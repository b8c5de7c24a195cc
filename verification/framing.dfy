/** Length-prefixed FIX framing over a byte stream, with resynchronisation after broken input. */
module Framing {
  import opened Bytes

  const NEED_MORE := 0
  const MALFORMED := -1
  const TRAILER_LEN := 7
  const MAX_FRAME := 4096
  const B0: Byte := 48
  const B1: Byte := 49
  const B8: Byte := 56
  const B9: Byte := 57

  /** The verdict once the BodyLength field, ended at soh2, has been read as n. */
  function LengthFrom(s: seq<Byte>, offset: nat, soh2: nat, n: int): (r: int)
    requires offset <= soh2
    ensures r == NEED_MORE || r == MALFORMED || (2 < r <= |s| - offset && s[offset + r - 1] == SOH)
  {
    if n <= 0 || n > MAX_FRAME then MALFORMED
    else
      var end := soh2 + 1 + n + TRAILER_LEN;
      if end > |s| then NEED_MORE
      else if s[end - 7] != B1 || s[end - 6] != B0 || s[end - 5] != EQUALS || s[end - 1] != SOH then MALFORMED
      else end - offset
  }

  /** The verdict once the BeginString field has been found to end at soh1: BodyLength must follow at once. */
  function LengthAfter(s: seq<Byte>, offset: nat, soh1: nat): (r: int)
    requires offset <= soh1
    ensures r == NEED_MORE || r == MALFORMED || (2 < r <= |s| - offset && s[offset + r - 1] == SOH)
  {
    if soh1 + 3 > |s| then NEED_MORE
    else if s[soh1 + 1] != B9 || s[soh1 + 2] != EQUALS then MALFORMED
    else
      var soh2 := IndexOf(s, soh1 + 3, SOH);
      if soh2 < 0 then NEED_MORE
      else if soh2 == soh1 + 3 then MALFORMED
      else LengthFrom(s, offset, soh2, ParseLong(s[soh1 + 3..soh2]))
  }

  /** The length of the frame that starts at the offset, MALFORMED where there can be none, NEED_MORE while the bytes
      at hand leave it undecided. */
  function FrameLength(s: seq<Byte>, offset: nat): (r: int)
    ensures r == NEED_MORE || r == MALFORMED || (2 < r <= |s| - offset && s[offset + r - 1] == SOH)
  {
    if |s| < offset + 2 then NEED_MORE
    else if s[offset] != B8 || s[offset + 1] != EQUALS then MALFORMED
    else
      var soh1 := IndexOf(s, offset + 2, SOH);
      if soh1 < 0 then NEED_MORE else LengthAfter(s, offset, soh1)
  }

  predicate BeginsAt(s: seq<Byte>, i: nat) {
    i + 1 < |s| && s[i] == B8 && s[i + 1] == EQUALS
  }

  /** First position from `from` on where a BeginString starts, or -1. */
  function IndexOfBegin(s: seq<Byte>, from: nat): (r: int)
    requires from <= |s|
    ensures r == -1 || (from <= r && BeginsAt(s, r))
    decreases |s| - from
  {
    if from == |s| then -1 else if BeginsAt(s, from) then from else IndexOfBegin(s, from + 1)
  }

  predicate NoneBefore(s: seq<Byte>, from: nat, k: int) {
    forall i :: from <= i < k ==> !BeginsAt(s, i)
  }

  lemma {:induction false} BeginIsFirst(s: seq<Byte>, from: nat, r: int)
    requires from <= |s|
    ensures r == IndexOfBegin(s, from)
            <==> if r == -1 then NoneBefore(s, from, |s|) else from <= r && BeginsAt(s, r) && NoneBefore(s, from, r)
    decreases |s| - from
  {
    if from < |s| && !BeginsAt(s, from) {
      BeginIsFirst(s, from + 1, r);
    }
  }

  /** What the decoder does next from a position on: emit at most one frame, then either stop and keep the bytes from an
      offset on, or resume at that offset. */
  datatype Move = Move(emits: seq<seq<Byte>>, next: nat, stop: bool)

  function KeepFrom(s: seq<Byte>, pos: nat): (r: nat)
    requires pos <= |s|
    ensures pos <= r <= |s|
  {
    if pos < |s| && s[|s| - 1] == B8 then |s| - 1 else |s|
  }

  function MoveAt(s: seq<Byte>, start: nat, len: int): Move
    requires start + 2 <= |s| && len <= |s| - start
  {
    if len == NEED_MORE then Move([], start, true)
    else if len < 0 then Move([], start + 2, false)
    else Move([s[start..start + len]], start + len, false)
  }

  function NextMove(s: seq<Byte>, pos: nat): (m: Move)
    requires pos <= |s|
    ensures pos <= m.next <= |s| && (m.stop ==> m.emits == []) && (!m.stop ==> pos < m.next)
  {
    var start := IndexOfBegin(s, pos);
    if start == -1 then Move([], KeepFrom(s, pos), true) else MoveAt(s, start, FrameLength(s, start))
  }

  /** The complete frames from a position on, and where the bytes kept for the next call begin. */
  datatype Framed = Framed(frames: seq<seq<Byte>>, kept: nat)

  function Frames(s: seq<Byte>, pos: nat): (f: Framed)
    requires pos <= |s|
    ensures pos <= f.kept <= |s|
    decreases |s| - pos
  {
    var m := NextMove(s, pos);
    if m.stop then Framed([], m.next)
    else var more := Frames(s, m.next); Framed(m.emits + more.frames, more.kept)
  }

  // ---------- The decoder's loops ----------

  method IndexOfIn(buf: array<Byte>, from: nat, end: nat, target: Byte) returns (r: int)
    requires from <= end <= buf.Length
    ensures r == IndexOf(buf[..end], from, target)
  {
    var i := from;
    while i < end
      invariant from <= i <= end && forall k :: from <= k < i ==> buf[k] != target
    {
      if buf[i] == target {
        IndexOfIsFirst(buf[..end], from, target, i);
        return i;
      }
      i := i + 1;
    }
    IndexOfIsFirst(buf[..end], from, target, -1);
    r := -1;
  }

  method IndexOfBeginString(buf: array<Byte>, from: nat, end: nat) returns (r: int)
    requires from <= end <= buf.Length
    ensures r == IndexOfBegin(buf[..end], from)
  {
    var i := from;
    while i + 1 < end
      invariant from <= i <= end && NoneBefore(buf[..end], from, i)
    {
      if buf[i] == B8 && buf[i + 1] == EQUALS {
        BeginIsFirst(buf[..end], from, i);
        return i;
      }
      i := i + 1;
    }
    assert NoneBefore(buf[..end], from, end);
    BeginIsFirst(buf[..end], from, -1);
    r := -1;
  }

  /** The last checks: the length is sane, the frame is all there and a trailer ends it. */
  method LengthFromAt(buf: array<Byte>, offset: nat, end: nat, soh2: nat, n: int) returns (r: int)
    requires offset <= soh2 < end <= buf.Length
    ensures r == LengthFrom(buf[..end], offset, soh2, n)
  {
    if n <= 0 || n > MAX_FRAME {
      return MALFORMED;
    }
    var endExclusive := soh2 + 1 + n + TRAILER_LEN;
    if endExclusive > end {
      return NEED_MORE;
    }
    var t := endExclusive - TRAILER_LEN;
    if buf[t] != B1 || buf[t + 1] != B0 || buf[t + 2] != EQUALS || buf[endExclusive - 1] != SOH {
      return MALFORMED;
    }
    r := endExclusive - offset;
  }

  /** BodyLength must follow the BeginString field at once. */
  method LengthAfterAt(buf: array<Byte>, offset: nat, end: nat, soh1: nat) returns (r: int)
    requires offset <= soh1 < end <= buf.Length
    ensures r == LengthAfter(buf[..end], offset, soh1)
  {
    if soh1 + 3 > end {
      return NEED_MORE;
    }
    if buf[soh1 + 1] != B9 || buf[soh1 + 2] != EQUALS {
      return MALFORMED;
    }
    var soh2 := IndexOfIn(buf, soh1 + 3, end, SOH);
    if soh2 < 0 {
      return NEED_MORE;
    }
    if soh2 == soh1 + 3 {
      return MALFORMED;
    }
    var n := ParseLongIn(buf, soh1 + 3, soh2);
    assert buf[..end][soh1 + 3..soh2] == buf[soh1 + 3..soh2];
    r := LengthFromAt(buf, offset, end, soh2, n);
  }

  method FrameLengthAt(buf: array<Byte>, offset: nat, available: nat) returns (r: int)
    requires offset + available <= buf.Length
    ensures r == FrameLength(buf[..offset + available], offset)
  {
    var end := offset + available;
    if available < 2 {
      return NEED_MORE;
    }
    if buf[offset] != B8 || buf[offset + 1] != EQUALS {
      return MALFORMED;
    }
    var soh1 := IndexOfIn(buf, offset + 2, end, SOH);
    if soh1 < 0 {
      return NEED_MORE;
    }
    r := LengthAfterAt(buf, offset, end, soh1);
  }

  lemma Associates<T>(a: seq<T>, b: seq<T>, c: seq<T>)
    ensures a + (b + c) == (a + b) + c
  {
  }

  lemma NothingBefore<T>(a: seq<T>)
    ensures [] + a == a && a + [] == a
  {
  }

  /** What has been emitted, and what the bytes from pos on still give, make up all. */
  ghost predicate Remaining(emitted: seq<seq<Byte>>, s: seq<Byte>, pos: nat, all: Framed)
    requires pos <= |s|
  {
    all == Framed(emitted + Frames(s, pos).frames, Frames(s, pos).kept)
  }

  lemma {:induction false} Advance(emitted: seq<seq<Byte>>, s: seq<Byte>, pos: nat, all: Framed)
    requires pos <= |s| && Remaining(emitted, s, pos, all)
    ensures var m := NextMove(s, pos);
            if m.stop then all == Framed(emitted, m.next) else Remaining(emitted + m.emits, s, m.next, all)
  {
    var m := NextMove(s, pos);
    if m.stop {
      NothingBefore(emitted);
    } else {
      Associates(emitted, m.emits, Frames(s, m.next).frames);
    }
  }

  /** One pass of the decoder's loop. */
  method Pass(data: array<Byte>, pos: nat, end: nat) returns (m: Move)
    requires pos <= end <= data.Length && end > 0
    requires pos == end ==> data[end - 1] != B8
    ensures m == NextMove(data[..end], pos)
    ensures !m.stop && m.next == end ==> data[end - 1] != B8
  {
    var start := IndexOfBeginString(data, pos, end);
    if start < 0 {
      var keep := if data[end - 1] == B8 then 1 else 0;
      return Move([], end - keep, true);
    }
    m := TakeFrame(data, start, end);
  }

  /** What the message that begins here comes to. */
  method TakeFrame(data: array<Byte>, start: nat, end: nat) returns (m: Move)
    requires end <= data.Length && BeginsAt(data[..end], start)
    ensures m == MoveAt(data[..end], start, FrameLength(data[..end], start))
    ensures !m.stop && m.next == end ==> data[end - 1] != B8
  {
    var len := FrameLengthAt(data, start, end - start);
    if len == NEED_MORE {
      return Move([], start, true);
    }
    if len == MALFORMED {
      return Move([], start + 2, false);
    }
    assert data[..end][start..start + len] == data[start..start + len];
    m := Move([data[start..start + len]], start + len, false);
  }

  /** Emits every complete frame of the available bytes and says how many bytes are done with. */
  method FrameAndEmit(data: array<Byte>, base: nat, avail: nat, out: seq<seq<Byte>>)
    returns (consumed: nat, emitted: seq<seq<Byte>>)
    requires base + avail <= data.Length && avail >= 1
    ensures consumed <= avail
    ensures Framed(emitted, base + consumed)
            == var f := Frames(data[..base + avail], base); Framed(out + f.frames, f.kept)
  {
    var end := base + avail;
    ghost var s := data[..end];
    ghost var all := Framed(out + Frames(s, base).frames, Frames(s, base).kept);
    var pos := base;
    emitted := out;
    while true
      invariant base <= pos <= end
      invariant Remaining(emitted, s, pos, all)
      invariant pos == end ==> data[end - 1] != B8
      decreases end - pos
    {
      Advance(emitted, s, pos, all);
      var m := Pass(data, pos, end);
      if m.stop {
        consumed := m.next - base;
        return;
      }
      emitted := emitted + m.emits;
      pos := m.next;
    }
  }

  // ---------- More bytes only add ----------

  lemma {:induction false} IndexOfExtended(s: seq<Byte>, t: seq<Byte>, from: nat, b: Byte)
    requires from <= |s| && IndexOf(s, from, b) != -1
    ensures IndexOf(s + t, from, b) == IndexOf(s, from, b)
    decreases |s| - from
  {
    if s[from] != b {
      IndexOfExtended(s, t, from + 1, b);
    }
  }

  lemma LengthFromMonotone(s: seq<Byte>, t: seq<Byte>, offset: nat, soh2: nat, n: int)
    requires offset <= soh2 && LengthFrom(s, offset, soh2, n) != NEED_MORE
    ensures LengthFrom(s + t, offset, soh2, n) == LengthFrom(s, offset, soh2, n)
  {
  }

  lemma {:induction false} LengthAfterMonotone(s: seq<Byte>, t: seq<Byte>, offset: nat, soh1: nat)
    requires offset <= soh1 && LengthAfter(s, offset, soh1) != NEED_MORE
    ensures LengthAfter(s + t, offset, soh1) == LengthAfter(s, offset, soh1)
  {
    if s[soh1 + 1] == B9 && s[soh1 + 2] == EQUALS {
      IndexOfExtended(s, t, soh1 + 3, SOH);
      var soh2 := IndexOf(s, soh1 + 3, SOH);
      if soh2 != soh1 + 3 {
        assert (s + t)[soh1 + 3..soh2] == s[soh1 + 3..soh2];
        LengthFromMonotone(s, t, offset, soh2, ParseLong(s[soh1 + 3..soh2]));
      }
    }
  }

  /** A verdict never changes as more bytes arrive. */
  lemma {:induction false} FrameLengthMonotone(s: seq<Byte>, t: seq<Byte>, offset: nat)
    requires FrameLength(s, offset) != NEED_MORE
    ensures FrameLength(s + t, offset) == FrameLength(s, offset)
  {
    if s[offset] == B8 && s[offset + 1] == EQUALS {
      IndexOfExtended(s, t, offset + 2, SOH);
      LengthAfterMonotone(s, t, offset, IndexOf(s, offset + 2, SOH));
    }
  }

  lemma {:induction false} BeginExtended(s: seq<Byte>, t: seq<Byte>, from: nat)
    requires from <= |s| && IndexOfBegin(s, from) != -1
    ensures IndexOfBegin(s + t, from) == IndexOfBegin(s, from)
    decreases |s| - from
  {
    if !BeginsAt(s, from) {
      BeginExtended(s, t, from + 1);
    }
  }

  /** A move that does not stop is made alike however many bytes follow. */
  lemma {:induction false} MoveMonotone(a: seq<Byte>, b: seq<Byte>, pos: nat)
    requires pos <= |a| && !NextMove(a, pos).stop
    ensures NextMove(a + b, pos) == NextMove(a, pos)
  {
    var start := IndexOfBegin(a, pos);
    BeginExtended(a, b, pos);
    FrameLengthMonotone(a, b, start);
    var len := FrameLength(a, start);
    assert len > 0 ==> (a + b)[start..start + len] == a[start..start + len];
  }

  /** Nothing is lost by a stop: no frame starts in the bytes dropped, whatever follows. */
  lemma {:induction false} StopDropsGarbage(a: seq<Byte>, b: seq<Byte>, pos: nat)
    requires pos <= |a| && NextMove(a, pos).stop
    ensures NextMove(a + b, pos) == NextMove(a + b, NextMove(a, pos).next)
  {
    var k, r := NextMove(a, pos).next, IndexOfBegin(a + b, NextMove(a, pos).next);
    BeginIsFirst(a, pos, IndexOfBegin(a, pos));
    BeginIsFirst(a + b, k, r);
    forall i | pos <= i < (if r == -1 then |a + b| else r)
      ensures !BeginsAt(a + b, i)
    {
      assert i < k ==> !BeginsAt(a, i);
    }
    BeginIsFirst(a + b, pos, r);
    if b == [] {
      assert a + b == a;
    }
  }

  /** Framing a, then the bytes kept of it followed by b, is framing a + b. */
  lemma {:induction false} FramesSplit(a: seq<Byte>, b: seq<Byte>, pos: nat)
    requires pos <= |a|
    ensures Frames(a + b, pos)
            == var f := Frames(a, pos); var g := Frames(a + b, f.kept); Framed(f.frames + g.frames, g.kept)
    decreases |a| - pos
  {
    var m := NextMove(a, pos);
    if m.stop {
      StopDropsGarbage(a, b, pos);
      NothingBefore(Frames(a + b, m.next).frames);
    } else {
      MoveMonotone(a, b, pos);
      FramesSplit(a, b, m.next);
      var f := Frames(a, m.next);
      Associates(m.emits, f.frames, Frames(a + b, f.kept).frames);
    }
  }

  // ---------- Positions do not matter ----------

  lemma {:induction false} IndexOfShift(s: seq<Byte>, k: nat, from: nat, b: Byte)
    requires k + from <= |s|
    ensures IndexOf(s[k..], from, b) == var r := IndexOf(s, k + from, b); if r == -1 then -1 else r - k
    decreases |s| - from
  {
    if k + from < |s| && s[k + from] != b {
      IndexOfShift(s, k, from + 1, b);
    }
  }

  lemma {:induction false} BeginShift(s: seq<Byte>, k: nat, from: nat)
    requires k + from <= |s|
    ensures IndexOfBegin(s[k..], from) == var r := IndexOfBegin(s, k + from); if r == -1 then -1 else r - k
    decreases |s| - from
  {
    if k + from < |s| {
      assert BeginsAt(s[k..], from) == BeginsAt(s, k + from);
      if !BeginsAt(s, k + from) {
        BeginShift(s, k, from + 1);
      }
    }
  }

  lemma SliceShift(s: seq<Byte>, k: nat, i: nat, j: nat)
    requires i <= j && k + j <= |s|
    ensures s[k..][i..j] == s[k + i..k + j]
  {
  }

  lemma LengthFromShift(s: seq<Byte>, k: nat, offset: nat, soh2: nat, n: int)
    requires k <= |s| && offset <= soh2
    ensures LengthFrom(s[k..], offset, soh2, n) == LengthFrom(s, k + offset, k + soh2, n)
  {
  }

  lemma {:induction false} LengthAfterShift(s: seq<Byte>, k: nat, offset: nat, soh1: nat)
    requires k <= |s| && offset <= soh1
    ensures LengthAfter(s[k..], offset, soh1) == LengthAfter(s, k + offset, k + soh1)
  {
    var t := s[k..];
    if soh1 + 3 <= |t| {
      IndexOfShift(s, k, soh1 + 3, SOH);
      var soh2 := IndexOf(t, soh1 + 3, SOH);
      if soh2 > soh1 + 3 {
        SliceShift(s, k, soh1 + 3, soh2);
        LengthFromShift(s, k, offset, soh2, ParseLong(t[soh1 + 3..soh2]));
      }
    }
  }

  lemma LengthShiftAt(s: seq<Byte>, k: nat, offset: nat, soh1: int)
    requires k + offset + 2 <= |s| && soh1 == IndexOf(s[k..], offset + 2, SOH)
    requires IndexOf(s, k + offset + 2, SOH) == if soh1 < 0 then soh1 else k + soh1
    requires soh1 >= 0 ==> LengthAfter(s[k..], offset, soh1) == LengthAfter(s, k + offset, k + soh1)
    ensures FrameLength(s[k..], offset) == FrameLength(s, k + offset)
  {
  }

  lemma {:induction false} LengthShift(s: seq<Byte>, k: nat, offset: nat)
    requires k <= |s|
    ensures FrameLength(s[k..], offset) == FrameLength(s, k + offset)
  {
    if k + offset + 2 <= |s| {
      IndexOfShift(s, k, offset + 2, SOH);
      var soh1 := IndexOf(s[k..], offset + 2, SOH);
      if soh1 >= 0 {
        LengthAfterShift(s, k, offset, soh1);
      }
      LengthShiftAt(s, k, offset, soh1);
    }
  }

  lemma {:induction false} MoveAtShift(s: seq<Byte>, k: nat, start: nat, len: int)
    requires k + start + 2 <= |s| && len == FrameLength(s[k..], start)
    ensures var m := MoveAt(s[k..], start, len); MoveAt(s, k + start, len) == m.(next := k + m.next)
  {
    if len > 0 {
      SliceShift(s, k, start, start + len);
    }
  }

  lemma {:induction false} KeepShift(s: seq<Byte>, k: nat, pos: nat)
    requires k + pos <= |s|
    ensures KeepFrom(s, k + pos) == k + KeepFrom(s[k..], pos)
  {
  }

  lemma {:induction false} MoveShift(s: seq<Byte>, k: nat, pos: nat)
    requires k + pos <= |s|
    ensures var m := NextMove(s[k..], pos); NextMove(s, k + pos) == m.(next := k + m.next)
  {
    var t := s[k..];
    BeginShift(s, k, pos);
    KeepShift(s, k, pos);
    var start := IndexOfBegin(t, pos);
    if start != -1 {
      LengthShift(s, k, start);
      var len := FrameLength(t, start);
      MoveAtShift(s, k, start, len);
      assert NextMove(t, pos) == MoveAt(t, start, len);
    } else {
      assert NextMove(t, pos) == Move([], KeepFrom(t, pos), true);
    }
  }

  /** The same frames, and the kept bytes k further on. */
  predicate Shifted(f: Framed, g: Framed, k: nat) {
    g.frames == f.frames && g.kept == k + f.kept
  }

  /** Every move of t is the move of s that starts k bytes further on. */
  ghost predicate MovesShift(s: seq<Byte>, t: seq<Byte>, k: nat) {
    && |s| == k + |t|
    && forall pos: nat :: pos <= |t| ==> SameMove(NextMove(t, pos), NextMove(s, k + pos), k)
  }

  predicate SameMove(m: Move, n: Move, k: nat) {
    n.emits == m.emits && n.stop == m.stop && n.next == k + m.next
  }

  lemma {:induction false} FramesFollow(s: seq<Byte>, t: seq<Byte>, k: nat, pos: nat)
    requires MovesShift(s, t, k) && pos <= |t|
    ensures Shifted(Frames(t, pos), Frames(s, k + pos), k)
    decreases |t| - pos
  {
    var m := NextMove(t, pos);
    assert SameMove(m, NextMove(s, k + pos), k);
    if !m.stop {
      FramesFollow(s, t, k, m.next);
    }
  }

  /** Dropping the bytes before a position changes no frame from there on. */
  lemma {:induction false} FramesShift(s: seq<Byte>, k: nat, pos: nat)
    requires k + pos <= |s|
    ensures Shifted(Frames(s[k..], pos), Frames(s, k + pos), k)
  {
    forall p: nat | p <= |s[k..]|
      ensures SameMove(NextMove(s[k..], p), NextMove(s, k + p), k)
    {
      MoveShift(s, k, p);
    }
    FramesFollow(s, s[k..], k, pos);
  }

  // ---------- Resynchronisation ----------

  /** Bytes in which no message can begin cost nothing that follows them. */
  lemma {:induction false} GarbageSkipped(g: seq<Byte>, s: seq<Byte>)
    requires s != [] && forall i :: 0 <= i < |g| ==> !((g + s)[i] == 56 && (g + s)[i + 1] == 61)
    ensures Frames(g + s, 0).frames == Frames(s, 0).frames
  {
    var u := g + s;
    var r := IndexOfBegin(u, |g|);
    BeginIsFirst(u, |g|, r);
    BeginIsFirst(u, 0, r);
    assert NextMove(u, 0) == NextMove(u, |g|);
    FramesShift(u, |g|, 0);
    assert u[|g|..] == s;
  }

  /** A broken message costs no more than its own BeginString: the search goes on right behind it. */
  lemma {:induction false} BrokenSkipped(s: seq<Byte>)
    requires |s| >= 2 && s[0] == 56 && s[1] == 61 && FrameLength(s, 0) == MALFORMED
    ensures Frames(s, 0).frames == Frames(s[2..], 0).frames
  {
    FramesShift(s, 2, 0);
    NothingBefore(Frames(s, 2).frames);
  }

  // ---------- Chunking ----------

  /** One read of the decoder: nothing is looked at until two bytes are there; what is not consumed is kept. */
  function Feed(kept: seq<Byte>, chunk: seq<Byte>): (seq<seq<Byte>>, seq<Byte>) {
    var s := kept + chunk;
    if |s| < 2 then ([], s) else (Frames(s, 0).frames, s[Frames(s, 0).kept..])
  }

  /** The frames emitted over a run of reads. */
  function FeedAll(kept: seq<Byte>, chunks: seq<seq<Byte>>): seq<seq<Byte>>
    decreases |chunks|
  {
    if chunks == [] then []
    else
      var (frames, rest) := Feed(kept, chunks[0]);
      frames + FeedAll(rest, chunks[1..])
  }

  function Concat(chunks: seq<seq<Byte>>): seq<Byte> {
    if chunks == [] then [] else chunks[0] + Concat(chunks[1..])
  }

  /** What is kept holds no complete frame. */
  lemma {:induction false} KeptHoldsNoFrame(s: seq<Byte>, pos: nat)
    requires pos <= |s|
    ensures Frames(s, Frames(s, pos).kept).frames == []
    decreases |s| - pos
  {
    var m := NextMove(s, pos);
    if !m.stop {
      KeptHoldsNoFrame(s, m.next);
    } else {
      StopDropsGarbage(s, [], pos);
      assert s + [] == s;
    }
  }

  lemma TailOfConcat(s: seq<Byte>, more: seq<Byte>, k: nat)
    requires k <= |s|
    ensures (s + more)[k..] == s[k..] + more
  {
  }

  /** Framing s and more, in two reads: what the second one finds starts at what the first one kept. */
  lemma {:induction false} ReadThen(s: seq<Byte>, more: seq<Byte>)
    ensures var f := Frames(s, 0); Frames(s + more, 0).frames == f.frames + Frames(s[f.kept..] + more, 0).frames
  {
    var k := Frames(s, 0).kept;
    FramesSplit(s, more, 0);
    FramesShift(s + more, k, 0);
    TailOfConcat(s, more, k);
  }

  lemma {:induction false} RestHoldsNoFrame(s: seq<Byte>)
    ensures Frames(s[Frames(s, 0).kept..], 0).frames == []
  {
    KeptHoldsNoFrame(s, 0);
    FramesShift(s, Frames(s, 0).kept, 0);
  }

  /** A read, then all that follows. */
  lemma {:induction false} FeedThen(kept: seq<Byte>, chunk: seq<Byte>, more: seq<Byte>)
    ensures var (frames, rest) := Feed(kept, chunk);
            && Frames(rest, 0).frames == []
            && Frames(kept + chunk + more, 0).frames == frames + Frames(rest + more, 0).frames
  {
    var s := kept + chunk;
    if |s| >= 2 {
      ReadThen(s, more);
      RestHoldsNoFrame(s);
    } else {
      NothingBefore(Frames(s + more, 0).frames);
    }
  }

  /** However a stream is cut into chunks, the decoder emits the frames of the whole stream. */
  lemma {:induction false} ChunkingIndependence(kept: seq<Byte>, chunks: seq<seq<Byte>>)
    requires Frames(kept, 0).frames == []
    ensures FeedAll(kept, chunks) == Frames(kept + Concat(chunks), 0).frames
    decreases |chunks|
  {
    if chunks == [] {
      NothingBefore(kept);
    } else {
      FeedThen(kept, chunks[0], Concat(chunks[1..]));
      Associates(kept, chunks[0], Concat(chunks[1..]));
      ChunkingIndependence(Feed(kept, chunks[0]).1, chunks[1..]);
    }
  }
}
