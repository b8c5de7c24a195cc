/** When the peg pools cross each other, and what a cancel undoes. */
module CrossAndCancel {
  import opened Orders
  import opened Matching
  import opened Invariant

  /** Of two orders with ids of their own, one queued later than the other: a later timestamp always decides, a larger
      id only where timestamps tie. */
  lemma LaterIsTotal(a: OrderValue, b: OrderValue, c: OrderValue)
    requires a.id != b.id
    ensures IsLater(a, b) <==> !IsLater(b, a)
    ensures IsLater(a, b) && IsLater(b, c) ==> IsLater(a, c)
    ensures a.time > b.time ==> IsLater(a, b)
  {
  }

  /** e names the order that came later as aggressor: the larger timestamp, and where these tie the larger id. */
  predicate LaterTakes(bid: OrderValue, ask: OrderValue, e: Exec) {
    if bid.time > ask.time || (bid.time == ask.time && bid.id > ask.id)
    then e.aggressor == bid.id && e.passive == ask.id
    else e.aggressor == ask.id && e.passive == bid.id
  }

  /** e is a trade between a waiting buy peg and a waiting sell peg, the later arrival as aggressor. */
  ghost predicate CrossPair(b: Book, e: Exec) {
    exists i, j :: 0 <= i < |b.pegBids| && 0 <= j < |b.pegAsks| && LaterTakes(b.pegBids[i], b.pegAsks[j], e)
  }

  lemma CrossPairBefore(v: Venue, mid: int, e: Exec)
    requires v.book.pegBids != [] && v.book.pegAsks != []
    requires CrossPair(CrossStep(v, mid).book, e)
    ensures CrossPair(v.book, e)
  {
    var b, c := v.book, CrossStep(v, mid).book;
    var i, j :| 0 <= i < |c.pegBids| && 0 <= j < |c.pegAsks| && LaterTakes(c.pegBids[i], c.pegAsks[j], e);
    var k := if |c.pegBids| < |b.pegBids| then i + 1 else i;
    var l := if |c.pegAsks| < |b.pegAsks| then j + 1 else j;
    assert b.pegBids[k].id == c.pegBids[i].id && b.pegBids[k].time == c.pegBids[i].time;
    assert b.pegAsks[l].id == c.pegAsks[j].id && b.pegAsks[l].time == c.pegAsks[j].time;
    assert LaterTakes(b.pegBids[k], b.pegAsks[l], e);
  }

  /** All fills of a pool cross print at the one midpoint, between waiting pegs. */
  lemma {:induction false} CrossLoopFills(v: Venue, mid: int)
    ensures v.execs <= CrossLoop(v, mid).execs
    ensures forall i :: |v.execs| <= i < |CrossLoop(v, mid).execs| ==>
              IsFill(CrossLoop(v, mid).execs[i]) && CrossLoop(v, mid).execs[i].price == mid
              && CrossPair(v.book, CrossLoop(v, mid).execs[i])
    decreases |v.book.pegBids| + |v.book.pegAsks|
  {
    if v.book.pegBids != [] && v.book.pegAsks != [] {
      var w := CrossStep(v, mid);
      CrossLoopFills(w, mid);
      var z := CrossLoop(w, mid).execs;
      assert CrossPair(v.book, w.execs[|v.execs|]) by {
        assert LaterTakes(v.book.pegBids[0], v.book.pegAsks[0], w.execs[|v.execs|]);
      }
      forall i | |v.execs| <= i < |z|
        ensures IsFill(z[i]) && z[i].price == mid && CrossPair(v.book, z[i])
      {
        if i == |v.execs| {
          assert z[i] == w.execs[i];
        } else {
          CrossPairBefore(v, mid, z[i]);
        }
      }
    }
  }

  /** A pool cross leaves the lit book alone, ends with a pool empty when there is a midpoint, and prints all its fills
      at that one midpoint between pegs that were waiting. */
  lemma CrossPoolsEffect(v: Venue)
    requires Shape(v.book) && Uncrossed(v.book)
    ensures var z := CrossPools(v);
            && z.book.bids == v.book.bids && z.book.asks == v.book.asks
            && (z.book.Mid() != NA ==> z.book.pegBids == [] || z.book.pegAsks == [])
            && v.execs <= z.execs
            && forall i :: |v.execs| <= i < |z.execs| ==>
                 IsFill(z.execs[i]) && z.execs[i].price == v.book.Mid() && CrossPair(v.book, z.execs[i])
  {
    if v.book.Mid() != NA {
      CrossLoopKeeps(v, v.book.Mid());
      CrossLoopFills(v, v.book.Mid());
    }
  }

  /** The pool cross after an order does something only if that order rested, the midpoint was born by it, and both
      pools were waiting. */
  lemma CrossOnlyAtBirthOfMid(v: Venue, o: OrderValue)
    requires BookOk(v.book) && Incoming(o, v.book) && o.ordType == LIMIT && o.qty > 0
    requires var y := Dispose(Trading(Match(v, o))); CrossPools(y.v) != y.v
    ensures v.book.Mid() == NA && Dispose(Trading(Match(v, o))).v.book.Mid() != NA
    ensures Trading(Match(v, o)).a.qty > 0 && o.tif == GTC
    ensures v.book.pegBids != [] && v.book.pegAsks != []
  {
    var x := Trading(Match(v, o));
    TradingKeeps(Match(v, o));
    if x.a.qty > 0 && x.a.tif == GTC {
      RestKeeps(x);
      MidExists(v.book);
      assert v.book.Mid() != NA ==> x.v.book.Peg(o.side) == v.book.Peg(o.side);
      if v.book.Mid() != NA {
        PoolsStayIdle(v, o);
      } else {
        assert !TakesPool(o, v.book);
        SweepKeeps(Match(v, o));
      }
    }
  }

  lemma PoolsStayIdle(v: Venue, o: OrderValue)
    requires BookOk(v.book) && Incoming(o, v.book) && v.book.Mid() != NA
    ensures var b := Trading(Match(v, o)).v.book; b.pegBids == [] || b.pegAsks == []
  {
    var x := Match(v, o);
    var y := if TakesPool(o, v.book) then PoolSweep(x, v.book.Mid()) else x;
    if TakesPool(o, v.book) {
      PoolSweepKeeps(x, v.book.Mid());
      PoolsShrink(x, v.book.Mid());
    }
    if o.ordType == LIMIT {
      SweepKeeps(y);
    }
  }

  lemma {:induction false} PoolsShrink(x: Match, mid: int)
    ensures |PoolSweep(x, mid).v.book.pegBids| <= |x.v.book.pegBids|
    ensures |PoolSweep(x, mid).v.book.pegAsks| <= |x.v.book.pegAsks|
    decreases |x.v.book.Peg(x.a.side.Opposite())|, x.a.qty
  {
    if PoolReady(x) {
      PoolsShrink(PoolStep(x, mid), mid);
    }
  }

  // ---------- Pools are first in, first out ----------

  /** The fills take the queue c from its front: the i-th fill is the i-th order waiting, taken whole unless it is the
      last; left is the rest of the queue, its head reduced where it was taken in part. */
  ghost predicate Fifo(c: seq<OrderValue>, fills: seq<Exec>, left: seq<OrderValue>) {
    && |fills| <= |c|
    && (forall i :: 0 <= i < |fills| ==> fills[i].passive == c[i].id && 0 < fills[i].filled <= c[i].qty)
    && (forall i :: 0 <= i < |fills| - 1 ==> fills[i].filled == c[i].qty)
    && (left == c[|fills|..] || (fills != [] && TakenInPart(c, |fills| - 1, fills[|fills| - 1].filled, left)))
  }

  ghost predicate TakenInPart(c: seq<OrderValue>, k: nat, m: int, left: seq<OrderValue>)
    requires k < |c|
  {
    m < c[k].qty && left == [c[k].Fill(m)] + c[k + 1..]
  }

  lemma FifoCons(c: seq<OrderValue>, e: Exec, fills: seq<Exec>, left: seq<OrderValue>)
    requires c != [] && e.passive == c[0].id && 0 < e.filled == c[0].qty && Fifo(c[1..], fills, left)
    ensures Fifo(c, [e] + fills, left)
  {
    var all, n := [e] + fills, |fills|;
    forall i | 0 <= i < |all|
      ensures all[i].passive == c[i].id && 0 < all[i].filled <= c[i].qty
    {
      assert i > 0 ==> all[i] == fills[i - 1] && c[i] == c[1..][i - 1];
    }
    assert c[1..][n..] == c[n + 1..];
    if fills != [] {
      assert all[n] == fills[n - 1];
    }
  }

  lemma FifoOne(c: seq<OrderValue>, e: Exec)
    requires c != [] && e.passive == c[0].id && 0 < e.filled <= c[0].qty
    ensures Fifo(c, [e], AfterPoolFill(c, e.filled))
  {
  }

  lemma ReportsFrom(a: seq<Exec>, b: seq<Exec>, e: Exec)
    requires a + [e] <= b
    ensures a <= b && b[|a|..] == [e] + b[|a| + 1..]
  {
  }

  /** A peg step trades the opposite pool first in, first out. */
  lemma {:induction false} PoolIsFifo(x: Match, mid: int)
    requires BookOk(x.v.book) && Incoming(x.a, x.v.book)
    ensures var z := PoolSweep(x, mid);
            && x.v.execs <= z.v.execs
            && Fifo(x.v.book.Peg(x.a.side.Opposite()), z.v.execs[|x.v.execs|..], z.v.book.Peg(x.a.side.Opposite()))
    decreases |x.v.book.Peg(x.a.side.Opposite())|, x.a.qty
  {
    var c := x.v.book.Peg(x.a.side.Opposite());
    if PoolReady(x) {
      assert Member(c[0], x.a.side.Opposite(), PEG_MID);
      var y := PoolStep(x, mid);
      var m := Min(x.a.qty, c[0].qty);
      var e := y.v.execs[|x.v.execs|];
      assert y.v.execs == x.v.execs + [e];
      if y.a.qty == 0 {
        FifoOne(c, e);
        assert y.v.execs[|x.v.execs|..] == [e];
      } else {
        PoolStepKeeps(x, mid);
        PoolIsFifo(y, mid);
        var z := PoolSweep(y, mid).v.execs;
        ReportsFrom(x.v.execs, z, e);
        FifoCons(c, e, z[|x.v.execs| + 1..], PoolSweep(y, mid).v.book.Peg(x.a.side.Opposite()));
      }
    }
  }

  // ---------- Cancel ----------

  /** A cancel takes out the named order and nothing else, and keeps the order of all others; a second one finds
      nothing. */
  lemma CancelIsExact(b: Book, id: int)
    requires BookOk(b)
    ensures id !in OpenIds(Cancel(b, id)) && Cancel(Cancel(b, id), id) == Cancel(b, id)
    ensures id !in OpenIds(b) ==> Cancel(b, id) == b
    ensures forall side :: OneLess(b.Lit(side), Cancel(b, id).Lit(side), id)
                           && OneLess(b.Peg(side), Cancel(b, id).Peg(side), id)
  {
    CancelKeeps(b, id);
    var c := Cancel(b, id);
    assert OpenIds(c) == OpenIds(b) - {id};
    RemovedOne(b.bids, id);
    RemovedOne(b.asks, id);
    RemovedOne(b.pegBids, id);
    RemovedOne(b.pegAsks, id);
    RemoveAbsent(c.bids, id);
    RemoveAbsent(c.asks, id);
    RemoveAbsent(c.pegBids, id);
    RemoveAbsent(c.pegAsks, id);
  }

  ghost predicate OneLess(l: seq<OrderValue>, r: seq<OrderValue>, id: int) {
    if id in Ids(l) then exists k :: 0 <= k < |l| && l[k].id == id && r == l[..k] + l[k + 1..] else r == l
  }

  lemma RemovedOne(l: seq<OrderValue>, id: int)
    ensures OneLess(l, Remove(l, id), id)
  {
    if id in Ids(l) {
      var k := RemoveIsSlice(l, id);
    } else {
      RemoveAbsent(l, id);
    }
  }

  lemma {:induction false} SweepTrades(x: Match)
    ensures |Sweep(x).v.trades| >= |x.v.trades|
    ensures |Sweep(x).v.trades| == |x.v.trades| ==> Sweep(x) == x
    decreases x.a.qty
  {
    if LitReady(x) {
      SweepTrades(LitStep(x));
    }
  }

  lemma {:induction false} PoolSweepTrades(x: Match, mid: int)
    ensures |PoolSweep(x, mid).v.trades| >= |x.v.trades|
    ensures |PoolSweep(x, mid).v.trades| == |x.v.trades| ==> PoolSweep(x, mid) == x
    decreases |x.v.book.Peg(x.a.side.Opposite())|, x.a.qty
  {
    if PoolReady(x) {
      PoolSweepTrades(PoolStep(x, mid), mid);
    }
  }

  lemma {:induction false} CrossLoopTrades(v: Venue, mid: int)
    ensures |CrossLoop(v, mid).trades| >= |v.trades|
    ensures |CrossLoop(v, mid).trades| == |v.trades| ==> CrossLoop(v, mid) == v
    decreases |v.book.pegBids| + |v.book.pegAsks|
  {
    if v.book.pegBids != [] && v.book.pegAsks != [] {
      CrossLoopTrades(CrossStep(v, mid), mid);
    }
  }

  lemma {:induction false} RemoveInserted(l: seq<OrderValue>, r: seq<OrderValue>, o: OrderValue)
    requires o.id !in Ids(l)
    ensures Remove(l + [o] + r, o.id) == l + r
  {
    if l == [] {
      assert l + [o] + r == [o] + r;
      assert ([o] + r)[1..] == r;
    } else {
      assert (l + [o] + r)[1..] == l[1..] + [o] + r;
      assert l == [l[0]] + l[1..];
      assert l[0] in l;
      assert Ids(l[1..]) <= Ids(l);
      RemoveInserted(l[1..], r, o);
    }
  }

  lemma TradingIdle(v: Venue, o: OrderValue)
    ensures |v.trades| <= |Trading(Match(v, o)).v.trades|
    ensures |v.trades| == |Trading(Match(v, o)).v.trades| ==> Trading(Match(v, o)) == Match(v, o)
  {
    var x := Match(v, o);
    if TakesPool(o, v.book) {
      PoolSweepTrades(x, v.book.Mid());
    }
    SweepTrades(if TakesPool(o, v.book) then PoolSweep(x, v.book.Mid()) else x);
  }

  /** An order that rested without trading changed nothing else. */
  lemma NoTradeNoChange(v: Venue, o: OrderValue)
    requires BookOk(v.book) && Incoming(o, v.book) && o.qty > 0 && o.tif == GTC
    requires Add(v, o).v.trades == v.trades
    ensures Add(v, o) == Rest(Match(v, o))
  {
    TradingIdle(v, o);
    if o.ordType == LIMIT {
      var w := Dispose(Trading(Match(v, o)));
      CrossLoopTrades(w.v, w.v.book.Mid());
    }
  }

  lemma PegUndone(b: Book, o: OrderValue)
    requires BookOk(b) && Incoming(o, b) && o.ordType == PEG_MID
    ensures var c := b.WithPeg(o.side, b.Peg(o.side) + [o]); o.id in OpenIds(c) && Cancel(c, o.id) == b
  {
    var l := b.Peg(o.side);
    RemoveAbsent(b.Peg(o.side.Opposite()), o.id);
    RemoveAbsent(b.bids, o.id);
    RemoveAbsent(b.asks, o.id);
    RemoveInserted(l, [], o);
    assert l + [o] + [] == l + [o] && l + [] == l;
    assert o in l + [o];
  }

  lemma LitUndone(b: Book, o: OrderValue)
    requires BookOk(b) && Incoming(o, b)
    ensures var c := b.WithLit(o.side, Insert(b.Lit(o.side), o)); o.id in OpenIds(c) && Cancel(c, o.id) == b
  {
    var l := b.Lit(o.side);
    var k := Place(l, o);
    RemoveAbsent(b.Lit(o.side.Opposite()), o.id);
    RemoveAbsent(b.pegBids, o.id);
    RemoveAbsent(b.pegAsks, o.id);
    assert l == l[..k] + l[k..];
    assert Ids(l[..k]) <= Ids(l);
    RemoveInserted(l[..k], l[k..], o);
    InsertIds(l, o);
  }

  lemma RestUndone(b: Book, o: OrderValue)
    requires BookOk(b) && Incoming(o, b) && o.qty > 0
    ensures var c := Rest(Match(Venue(b, 0, [], []), o)).v.book;
            o.id in OpenIds(c) && Cancel(c, o.id) == b
  {
    if o.ordType == PEG_MID {
      PegUndone(b, o);
    } else {
      LitUndone(b, o.Refresh());
    }
  }

  /** Cancelling an order that rested without trading restores the book as it was. */
  lemma CancelUndoesRest(v: Venue, o: OrderValue)
    requires BookOk(v.book) && Incoming(o, v.book) && o.qty > 0 && o.tif == GTC
    requires Add(v, o).v.trades == v.trades
    ensures o.id in OpenIds(Add(v, o).v.book) && Cancel(Add(v, o).v.book, o.id) == v.book
  {
    NoTradeNoChange(v, o);
    RestUndone(v.book, o);
  }
}
