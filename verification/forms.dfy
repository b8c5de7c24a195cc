/** What the decoder takes for a message, on the bytes themselves. */
module FrameForm {
  import opened Bytes
  import opened Framing

  predicate NoSoh(s: seq<Byte>) {
    forall i :: 0 <= i < |s| ==> s[i] != 1
  }

  /** "8=", a text, byte 1, "9=", a length, byte 1, the body, "10=", a check, byte 1. */
  function Built(begin: seq<Byte>, length: seq<Byte>, body: seq<Byte>, check: seq<Byte>): seq<Byte> {
    [56, 61] + begin + [1, 57, 61] + length + [1] + body + [49, 48, 61] + check + [1]
  }

  /** A length in digits that is the body's, within the limit, and three bytes of check. */
  ghost predicate Honest(begin: seq<Byte>, length: seq<Byte>, body: seq<Byte>, check: seq<Byte>) {
    NoSoh(begin) && AllDigits(length) && Value(length) == |body| && 0 < |body| <= 4096 && |check| == 3
  }

  ghost predicate IsMessage(f: seq<Byte>) {
    exists begin, length, body, check :: Honest(begin, length, body, check) && f == Built(begin, length, body, check)
  }

  lemma {:induction false} FrameParts(s: seq<Byte>, offset: nat) returns (soh1: nat, soh2: nat, n: nat)
    requires FrameLength(s, offset) > 0
    ensures offset + 2 <= soh1 && soh1 + 3 <= soh2 && soh2 + 1 + n + 7 == offset + FrameLength(s, offset) <= |s|
    ensures s[offset] == 56 && s[offset + 1] == 61 && s[soh1] == 1 && s[soh1 + 1] == 57 && s[soh1 + 2] == 61
    ensures s[soh2] == 1 && s[soh2 + 1 + n] == 49 && s[soh2 + 2 + n] == 48 && s[soh2 + 3 + n] == 61
    ensures s[soh2 + 7 + n] == 1
    ensures forall i :: offset + 2 <= i < soh1 ==> s[i] != 1
    ensures AllDigits(s[soh1 + 3..soh2]) && Value(s[soh1 + 3..soh2]) == n && 0 < n <= 4096
  {
    soh1 := IndexOf(s, offset + 2, SOH);
    IndexOfIsFirst(s, offset + 2, SOH, soh1);
    soh2 := IndexOf(s, soh1 + 3, SOH);
    n := ParseLong(s[soh1 + 3..soh2]);
  }

  lemma Split3(s: seq<Byte>, i: nat, j: nat, k: nat, l: nat)
    requires i <= j <= k <= l <= |s|
    ensures s[i..l] == s[i..j] + s[j..k] + s[k..l]
  {
  }

  lemma FrontFrom(s: seq<Byte>, offset: nat, soh1: nat, soh2: nat)
    requires offset + 2 <= soh1 && soh1 + 3 <= soh2 < |s|
    requires s[offset] == 56 && s[offset + 1] == 61 && s[soh1] == 1 && s[soh1 + 1] == 57 && s[soh1 + 2] == 61
    requires s[soh2] == 1
    ensures s[offset..soh2 + 1] == [56, 61] + s[offset + 2..soh1] + [1, 57, 61] + s[soh1 + 3..soh2] + [1]
  {
    Split3(s, offset, offset + 2, soh1, soh2 + 1);
    Split3(s, soh1, soh1 + 3, soh2, soh2 + 1);
    assert s[offset..offset + 2] == [56, 61] && s[soh1..soh1 + 3] == [1, 57, 61] && s[soh2..soh2 + 1] == [1];
  }

  lemma BackFrom(s: seq<Byte>, from: nat, n: nat)
    requires from + n + 7 <= |s|
    requires s[from + n] == 49 && s[from + n + 1] == 48 && s[from + n + 2] == 61 && s[from + n + 6] == 1
    ensures s[from..from + n + 7] == s[from..from + n] + [49, 48, 61] + s[from + n + 3..from + n + 6] + [1]
  {
    Split3(s, from, from + n, from + n + 3, from + n + 7);
    Split3(s, from + n + 3, from + n + 6, from + n + 6, from + n + 7);
    assert s[from + n..from + n + 3] == [49, 48, 61] && s[from + n + 6..from + n + 7] == [1];
  }

  lemma BuiltFrom(s: seq<Byte>, offset: nat, soh1: nat, soh2: nat, n: nat)
    requires offset + 2 <= soh1 && soh1 + 3 <= soh2 && soh2 + 1 + n + 7 <= |s|
    requires s[offset] == 56 && s[offset + 1] == 61 && s[soh1] == 1 && s[soh1 + 1] == 57 && s[soh1 + 2] == 61
    requires s[soh2] == 1 && s[soh2 + 1 + n] == 49 && s[soh2 + 2 + n] == 48 && s[soh2 + 3 + n] == 61
    requires s[soh2 + 7 + n] == 1
    ensures s[offset..soh2 + 8 + n]
            == Built(s[offset + 2..soh1], s[soh1 + 3..soh2], s[soh2 + 1..soh2 + 1 + n], s[soh2 + 4 + n..soh2 + 7 + n])
  {
    FrontFrom(s, offset, soh1, soh2);
    BackFrom(s, soh2 + 1, n);
    assert s[offset..soh2 + 8 + n] == s[offset..soh2 + 1] + s[soh2 + 1..soh2 + 8 + n];
  }

  /** Whatever the decoder takes for a message is one, to the byte. */
  lemma FrameIsMessage(s: seq<Byte>, offset: nat)
    requires FrameLength(s, offset) > 0
    ensures IsMessage(s[offset..offset + FrameLength(s, offset)])
  {
    var soh1, soh2, n := FrameParts(s, offset);
    BuiltFrom(s, offset, soh1, soh2, n);
    assert Honest(s[offset + 2..soh1], s[soh1 + 3..soh2], s[soh2 + 1..soh2 + 1 + n], s[soh2 + 4 + n..soh2 + 7 + n]);
  }

  ghost predicate AllMessages(fs: seq<seq<Byte>>) {
    forall i :: 0 <= i < |fs| ==> IsMessage(fs[i])
  }

  lemma {:induction false} MoveIsMessage(s: seq<Byte>, pos: nat)
    requires pos <= |s|
    ensures AllMessages(NextMove(s, pos).emits)
  {
    var start := IndexOfBegin(s, pos);
    if start != -1 && FrameLength(s, start) > 0 {
      FrameIsMessage(s, start);
    }
  }

  /** Every frame of a stream is a message. */
  lemma {:induction false} FramesAreMessages(s: seq<Byte>, pos: nat)
    requires pos <= |s|
    ensures AllMessages(Frames(s, pos).frames)
    decreases |s| - pos
  {
    var m := NextMove(s, pos);
    MoveIsMessage(s, pos);
    if !m.stop {
      FramesAreMessages(s, m.next);
    }
  }

  /** And so is everything the decoder emits, however the stream is cut. */
  lemma DecoderEmitsMessages(chunks: seq<seq<Byte>>)
    ensures AllMessages(FeedAll([], chunks))
  {
    assert Frames([], 0).frames == [];
    ChunkingIndependence([], chunks);
    FramesAreMessages([] + Concat(chunks), 0);
  }

  // ---------- What a header decides ----------

  /** What a message that begins "8=..|9=..|" comes to, given what follows. */
  function Verdict(begin: seq<Byte>, length: seq<Byte>, rest: seq<Byte>): int {
    if length == [] || !AllDigits(length) || !(0 < Value(length) <= 4096) then -1
    else
      var n := Value(length);
      if |rest| < n + 7 then 0
      else if rest[n] != 49 || rest[n + 1] != 48 || rest[n + 2] != 61 || rest[n + 6] != 1 then -1
      else |begin| + |length| + n + 13
  }

  lemma HeaderAt(s: seq<Byte>, begin: seq<Byte>, length: seq<Byte>, rest: seq<Byte>)
    requires NoSoh(begin) && NoSoh(length) && s == [56, 61] + begin + [1, 57, 61] + length + [1] + rest
    ensures var soh1, soh2 := 2 + |begin|, 5 + |begin| + |length|;
            && |s| == soh2 + 1 + |rest| && s[0] == 56 && s[1] == 61 && s[soh1 + 1] == 57 && s[soh1 + 2] == 61
            && IndexOf(s, 2, SOH) == soh1 && IndexOf(s, soh1 + 3, SOH) == soh2 && s[soh1 + 3..soh2] == length
            && s[soh2 + 1..] == rest
  {
    var soh1, soh2 := 2 + |begin|, 5 + |begin| + |length|;
    assert s[2..soh1] == begin && s[soh1 + 3..soh2] == length && s[soh2 + 1..] == rest;
    assert forall i :: 2 <= i < soh1 ==> s[i] == begin[i - 2];
    assert forall i :: soh1 + 3 <= i < soh2 ==> s[i] == length[i - soh1 - 3];
    IndexOfIsFirst(s, 2, SOH, soh1);
    IndexOfIsFirst(s, soh1 + 3, SOH, soh2);
  }

  lemma BehindHeader(s: seq<Byte>, at: nat, rest: seq<Byte>, i: nat)
    requires at <= |s| && s[at..] == rest && i < |rest|
    ensures s[at + i] == rest[i]
  {
    assert s[at..][i] == s[at + i];
  }

  lemma TrailerVerdict(s: seq<Byte>, begin: seq<Byte>, length: seq<Byte>, rest: seq<Byte>)
    requires length != [] && |s| == 6 + |begin| + |length| + |rest| && s[6 + |begin| + |length|..] == rest
    ensures LengthFrom(s, 0, 5 + |begin| + |length|, ParseLong(length)) == Verdict(begin, length, rest)
  {
    var at, n := 6 + |begin| + |length|, ParseLong(length);
    if 0 < n <= 4096 && n + 7 <= |rest| {
      BehindHeader(s, at, rest, n);
      BehindHeader(s, at, rest, n + 1);
      BehindHeader(s, at, rest, n + 2);
      BehindHeader(s, at, rest, n + 6);
    }
  }

  /** A header with its two fields decides: no length from 1 to 4096, or no "10=" and final byte 1 where it says they
      stand, is malformed; what is not all there has to wait; all else is a frame of just that length. */
  lemma {:induction false} HeaderDecides(begin: seq<Byte>, length: seq<Byte>, rest: seq<Byte>)
    requires NoSoh(begin) && NoSoh(length)
    ensures FrameLength([56, 61] + begin + [1, 57, 61] + length + [1] + rest, 0) == Verdict(begin, length, rest)
  {
    var s := [56, 61] + begin + [1, 57, 61] + length + [1] + rest;
    HeaderAt(s, begin, length, rest);
    AfterHeader(s, 2 + |begin|, 5 + |begin| + |length|, length);
    if length != [] {
      TrailerVerdict(s, begin, length, rest);
    }
  }

  lemma {:induction false} AfterHeader(s: seq<Byte>, soh1: nat, soh2: nat, length: seq<Byte>)
    requires |s| > soh2 >= soh1 + 3 && soh1 >= 2 && s[0] == 56 && s[1] == 61 && s[soh1 + 1] == 57 && s[soh1 + 2] == 61
    requires IndexOf(s, 2, SOH) == soh1 && IndexOf(s, soh1 + 3, SOH) == soh2 && s[soh1 + 3..soh2] == length
    ensures FrameLength(s, 0) == if length == [] then -1 else LengthFrom(s, 0, soh2, ParseLong(length))
  {
  }

  /** Where "9=" does not follow the first field, nothing can help. */
  lemma {:induction false} LengthMustFollow(begin: seq<Byte>, a: Byte, b: Byte, rest: seq<Byte>)
    requires NoSoh(begin) && (a != 57 || b != 61)
    ensures FrameLength([56, 61] + begin + [1, a, b] + rest, 0) == -1
  {
    var s := [56, 61] + begin + [1, a, b] + rest;
    assert s[2..2 + |begin|] == begin;
    assert forall i :: 2 <= i < 2 + |begin| ==> s[i] == begin[i - 2];
    IndexOfIsFirst(s, 2, SOH, 2 + |begin|);
    assert FrameLength(s, 0) == LengthAfter(s, 0, 2 + |begin|);
  }
}
