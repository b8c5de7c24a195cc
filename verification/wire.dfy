/** From a client's requests to the events the gateway publishes, over a byte stream cut anywhere. */
module WireTheorems {
  import opened Orders
  import opened Events
  import opened Bytes
  import opened Framing
  import opened FixParsing
  import opened FixPrinting
  import opened CodecTheorems
  import opened SymbolTheorems
  import opened Gateway

  // ---------- Encoded messages as frames ----------

  predicate IsFrame(m: seq<Byte>) {
    m != [] && FrameLength(m, 0) == |m|
  }

  lemma {:induction false} FirstFrame(m: seq<Byte>, rest: seq<Byte>)
    requires IsFrame(m)
    ensures NextMove(m + rest, 0) == Move([m], |m|, false)
  {
    FrameLengthMonotone(m, rest, 0);
    assert BeginsAt(m + rest, 0);
    assert (m + rest)[0..|m|] == m;
  }

  lemma {:induction false} FirstFramed(m: seq<Byte>, rest: seq<Byte>)
    requires IsFrame(m)
    ensures Frames(m + rest, 0).frames == [m] + Frames(rest, 0).frames
  {
    FirstFrame(m, rest);
    FramedOnce(m + rest, [m], |m|);
    FramesBehind(m, rest);
  }

  lemma {:induction false} FramesBehind(m: seq<Byte>, rest: seq<Byte>)
    ensures Frames(m + rest, |m|).frames == Frames(rest, 0).frames
  {
    FramesShift(m + rest, |m|, 0);
    assert (m + rest)[|m|..] == rest;
  }

  lemma {:induction false} FramedOnce(s: seq<Byte>, emits: seq<seq<Byte>>, next: nat)
    requires next <= |s| && NextMove(s, 0) == Move(emits, next, false)
    ensures Frames(s, 0).frames == emits + Frames(s, next).frames
  {
  }

  /** A stream of frames is framed into just these, and nothing is left over. */
  lemma {:induction false} FramesOfStream(ms: seq<seq<Byte>>)
    requires forall i :: 0 <= i < |ms| ==> IsFrame(ms[i])
    ensures Frames(Concat(ms), 0).frames == ms
    decreases |ms|
  {
    if ms == [] {
      NoFrames();
    } else {
      FirstFramed(ms[0], Concat(ms[1..]));
      FramesOfStream(ms[1..]);
      assert [ms[0]] + ms[1..] == ms;
    }
  }

  lemma NoFrames()
    ensures Frames([], 0).frames == []
  {
  }

  /** However the stream is cut, the frames that went in come out. */
  lemma FramesDelivered(ms: seq<seq<Byte>>, chunks: seq<seq<Byte>>)
    requires forall i :: 0 <= i < |ms| ==> IsFrame(ms[i])
    requires Concat(chunks) == Concat(ms)
    ensures FeedAll([], chunks) == ms
  {
    NoFrames();
    ChunkingIndependence([], chunks);
    assert [] + Concat(chunks) == Concat(chunks);
    FramesOfStream(ms);
  }

  // ---------- Messages are small enough ----------

  lemma {:induction false} EncodeBound(fs: seq<Field>, n: nat)
    requires Tagged(fs) && forall i :: 0 <= i < |fs| ==> fs[i].tag < 1000 && |fs[i].value| <= n
    ensures |Encode(fs)| <= |fs| * (n + 5)
    decreases |fs|
  {
    if fs != [] {
      EncodeBound(fs[1..], n);
      DigitsLength(fs[0].tag, 3) by {
        assert Pow10(3) == 1000;
      }
      assert |fs| * (n + 5) == |fs[1..]| * (n + 5) + (n + 5);
    }
  }

  lemma LongTextBound(n: int)
    requires IsLong(n)
    ensures |SignedDigits(n)| <= 20
  {
    var m := if n >= 0 then n else -n;
    if m == MAX_LONG + 1 {
      DigitsLength(m, 19) by {
        Pow10Of19();
      }
    } else {
      LongDigits(m);
    }
  }

  lemma FractionTextBound(frac: int)
    requires -SCALE < frac < SCALE
    ensures |PadFour(frac)| <= 19 && |SignedDigits(TruncDiv(frac, 100))| <= 19
  {
    var m := if frac >= 0 then frac else -frac;
    assert Pow10(4) == 10_000;
    DigitsLength(m, 4);
    DigitsLength(m / 100, 4);
  }

  lemma TruncBound(px: int)
    requires IsLong(px)
    ensures IsLong(TruncDiv(px, SCALE)) && -SCALE < TruncMod(px, SCALE) < SCALE
  {
  }

  lemma PriceTextBound(px: int)
    requires IsLong(px)
    ensures |FormatPrice(px)| <= 41
  {
    TruncBound(px);
    LongTextBound(TruncDiv(px, SCALE));
    FractionTextBound(TruncMod(px, SCALE));
  }

  /** The body of the request's message is within the decoder's limit. */
  predicate Fits(r: Request) {
    0 < |Encode(Body(r))| <= 4096
  }

  /** Any order with an ordinary symbol does, with room to spare. */
  lemma RequestFits(r: Request)
    requires Longs(r) && (r.NewOrder? ==> |r.symbol| <= 400)
    ensures Fits(r)
  {
    if r.NewOrder? {
      LongTextBound(r.clOrdId);
      LongTextBound(r.qty);
      LongTextBound(r.maxFloor);
      PriceTextBound(r.price);
    } else {
      LongTextBound(r.clOrdId);
      LongTextBound(r.origClOrdId);
    }
    EncodeBound(Body(r), 400);
  }

  // ---------- End to end ----------

  predicate AllLongs(rs: seq<Request>) {
    forall i :: 0 <= i < |rs| ==> Longs(rs[i])
  }

  predicate Sendable(rs: seq<Request>) {
    AllLongs(rs) && forall i :: 0 <= i < |rs| ==> Fits(rs[i])
  }

  function Sent(rs: seq<Request>): (ms: seq<seq<Byte>>)
    ensures |ms| == |rs| && forall i :: 0 <= i < |rs| ==> ms[i] == Message(Body(rs[i]))
  {
    seq(|rs|, i requires 0 <= i < |rs| => Message(Body(rs[i])))
  }

  /** The events of the acceptable requests, in order, each stamped when its frame came in. */
  function Wanted(rs: seq<Request>, stamps: seq<int>): seq<OrderEvent>
    requires |stamps| == |rs|
  {
    if rs == [] then []
    else
      var n := |rs| - 1;
      Wanted(rs[..n], stamps[..n]) + AsList(EventFor(rs[n], stamps[n]))
  }

  function AsList<T>(x: Option<T>): seq<T> {
    match x case None => [] case Some(e) => [e]
  }

  /** The events the requests come to, in order, whatever their symbols. */
  function Received(rs: seq<Request>, stamps: seq<int>): seq<OrderEvent>
    requires |stamps| == |rs|
  {
    if rs == [] then []
    else
      var n := |rs| - 1;
      Received(rs[..n], stamps[..n]) + AsList(Taken(rs[n], stamps[n]))
  }

  /** Handed over message by message, whatever their length, requests publish exactly the events they come to. */
  lemma {:induction false} PublishedIsReceived(rs: seq<Request>, stamps: seq<int>)
    requires |stamps| == |rs| && AllLongs(rs)
    ensures Published(Sent(rs), stamps) == Received(rs, stamps)
    decreases |rs|
  {
    if rs != [] {
      var n := |rs| - 1;
      PublishedIsReceived(rs[..n], stamps[..n]);
      assert Sent(rs)[..n] == Sent(rs[..n]);
      TakenIsParsed(rs[n], stamps[n]);
    }
  }

  predicate NoneRewrites(rs: seq<Request>) {
    forall i :: 0 <= i < |rs| ==> !Rewrites(rs[i])
  }

  lemma NoneRewritesStep(rs: seq<Request>)
    requires rs != []
    ensures NoneRewrites(rs) <==> NoneRewrites(rs[..|rs| - 1]) && !Rewrites(rs[|rs| - 1])
  {
    assert forall i :: 0 <= i < |rs| - 1 ==> rs[..|rs| - 1][i] == rs[i];
  }

  lemma TakenOrMore(r: Request, stamp: int)
    requires Longs(r)
    ensures !Rewrites(r) ==> Taken(r, stamp) == EventFor(r, stamp)
    ensures Rewrites(r) ==> Taken(r, stamp).Some? && EventFor(r, stamp) == None
  {
    TakenIsParsed(r, stamp);
    RoundTrip(r, stamp);
    if Rewrites(r) {
      HasSeparator(Ascii(r.symbol));
      TakenIfRewritten(r, stamp);
      NotTheVenues(r, stamp);
    }
  }

  lemma OneMoreOf<T>(a: seq<T>, b: seq<T>, x: Option<T>, y: Option<T>)
    requires |a| >= |b| && (|a| == |b| ==> a == b)
    requires x == y || (x.Some? && y.None?)
    ensures a + AsList(x) == b + AsList(y) <==> a == b && x == y
    ensures |a + AsList(x)| >= |b + AsList(y)|
    ensures |a + AsList(x)| == |b + AsList(y)| ==> a == b && x == y
  {
  }

  /** Orders rewritten by their symbols come on top of those that are wanted. */
  lemma {:induction false} ReceivedIsWanted(rs: seq<Request>, stamps: seq<int>)
    requires |stamps| == |rs| && AllLongs(rs)
    ensures |Received(rs, stamps)| >= |Wanted(rs, stamps)|
    ensures |Received(rs, stamps)| == |Wanted(rs, stamps)| ==> Received(rs, stamps) == Wanted(rs, stamps)
    ensures Received(rs, stamps) == Wanted(rs, stamps) <==> NoneRewrites(rs)
    decreases |rs|
  {
    if rs != [] {
      var n := |rs| - 1;
      ReceivedIsWanted(rs[..n], stamps[..n]);
      TakenOrMore(rs[n], stamps[n]);
      NoneRewritesStep(rs);
      OneMoreOf(Received(rs[..n], stamps[..n]), Wanted(rs[..n], stamps[..n]),
                Taken(rs[n], stamps[n]), EventFor(rs[n], stamps[n]));
    }
  }

  /** Any list of requests that fit, encoded, concatenated and cut into chunks anywhere, is decoded into exactly its
      messages, and the gateway publishes exactly the events they come to, in order. These are the acceptable requests,
      unchanged, if and only if no symbol rewrites its order. */
  lemma WireIsFaithful(rs: seq<Request>, chunks: seq<seq<Byte>>, stamps: seq<int>)
    requires Sendable(rs) && |stamps| == |rs| && Concat(chunks) == Concat(Sent(rs))
    ensures FeedAll([], chunks) == Sent(rs)
    ensures Published(FeedAll([], chunks), stamps) == Received(rs, stamps)
    ensures Published(FeedAll([], chunks), stamps) == Wanted(rs, stamps) <==> NoneRewrites(rs)
  {
    forall i | 0 <= i < |rs|
      ensures IsFrame(Sent(rs)[i])
    {
      MessageIsFrame(Body(rs[i]));
    }
    FramesDelivered(Sent(rs), chunks);
    PublishedIsReceived(rs, stamps);
    ReceivedIsWanted(rs, stamps);
  }
}
