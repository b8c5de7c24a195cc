/** The invariant of every reachable book, and that order entry and cancels keep it. */
module Invariant {
  import opened Orders
  import opened Matching

  ghost predicate NoDup(l: seq<OrderValue>) {
    forall i, j :: 0 <= i < j < |l| ==> l[i].id != l[j].id
  }

  ghost predicate Sorted(l: seq<OrderValue>, side: Side) {
    forall i, j :: 0 <= i <= j < |l| ==> AtLeast(side, l[i].price, l[j].price)
  }

  ghost predicate Member(o: OrderValue, side: Side, ordType: OrdType) {
    OrderOk(o) && o.side == side && o.ordType == ordType && o.tif == GTC
  }

  ghost predicate LitOk(l: seq<OrderValue>, side: Side) {
    && (forall i :: 0 <= i < |l| ==> Member(l[i], side, LIMIT))
    && Sorted(l, side)
    && NoDup(l)
  }

  ghost predicate PoolOk(l: seq<OrderValue>, side: Side) {
    && (forall i :: 0 <= i < |l| ==> Member(l[i], side, PEG_MID))
    && NoDup(l)
  }

  /** Every order is where its side, type and price put it, and in one place only. */
  ghost predicate Shape(b: Book) {
    && LitOk(b.bids, BUY) && LitOk(b.asks, SELL)
    && PoolOk(b.pegBids, BUY) && PoolOk(b.pegAsks, SELL)
    && Ids(b.bids) !! Ids(b.asks) !! Ids(b.pegBids) !! Ids(b.pegAsks)
  }

  ghost predicate Uncrossed(b: Book) {
    b.bids != [] && b.asks != [] ==> b.bids[0].price < b.asks[0].price
  }

  /** With a midpoint to trade at, the two pools never both wait. */
  ghost predicate PoolsIdle(b: Book) {
    b.Mid() != NA ==> b.pegBids == [] || b.pegAsks == []
  }

  ghost predicate BookOk(b: Book) {
    Shape(b) && Uncrossed(b) && PoolsIdle(b)
  }

  /** An incoming order, before or during matching, whatever its id. */
  ghost predicate Live(a: OrderValue) {
    && a.qty >= 0
    && a.id > 0 && a.time > 0 && a.participant > 0 && a.peak >= 0
    && (a.peak > 0 ==> a.ordType == LIMIT && a.tif == GTC)
    && (a.ordType == LIMIT ==> IsOnTick(a.price))
    && (a.ordType == PEG_MID ==> a.price == NA && a.visible == a.qty)
  }

  /** An incoming order whose id is not open. */
  ghost predicate Incoming(a: OrderValue, b: Book) {
    Live(a) && a.id !in OpenIds(b)
  }

  /** Matching takes y from x: the order keeps its terms, and no id is opened. */
  ghost predicate Onward(x: Match, y: Match) {
    && Live(y.a) && y.a == x.a.(qty := y.a.qty, visible := y.a.visible, status := y.a.status)
    && OpenIds(y.v.book) <= OpenIds(x.v.book)
  }

  /** The same on prices: bids fall, asks rise, every bid is below every ask, and a resting order shows at least one and
      at most all of what is left of it. */
  lemma BookOnPrices(b: Book)
    requires BookOk(b)
    ensures forall i, j :: 0 <= i <= j < |b.bids| ==> b.bids[i].price >= b.bids[j].price
    ensures forall i, j :: 0 <= i <= j < |b.asks| ==> b.asks[i].price <= b.asks[j].price
    ensures forall i, j :: 0 <= i < |b.bids| && 0 <= j < |b.asks| ==> b.bids[i].price < b.asks[j].price
    ensures forall i :: 0 <= i < |b.bids| ==> b.bids[i].side == BUY && 0 < b.bids[i].visible <= b.bids[i].qty
    ensures forall i :: 0 <= i < |b.asks| ==> b.asks[i].side == SELL && 0 < b.asks[i].visible <= b.asks[i].qty
    ensures b.bids != [] && b.asks != [] ==> b.pegBids == [] || b.pegAsks == []
  {
    MidExists(b);
    assert forall i :: 0 <= i < |b.bids| ==> Member(b.bids[i], BUY, LIMIT);
    assert forall i :: 0 <= i < |b.asks| ==> Member(b.asks[i], SELL, LIMIT);
  }

  // ---------- One list at a time ----------

  lemma InsertIds(l: seq<OrderValue>, o: OrderValue)
    ensures Ids(Insert(l, o)) == Ids(l) + {o.id}
    ensures forall x :: x in Insert(l, o) <==> x in l || x == o
  {
    assert l == l[..Place(l, o)] + l[Place(l, o)..];
    assert forall x :: x in Insert(l, o) <==> x in l || x == o;
  }

  lemma InsertAt(l: seq<OrderValue>, o: OrderValue)
    ensures |Insert(l, o)| == |l| + 1
    ensures forall i :: 0 <= i <= |l| ==>
              Insert(l, o)[i] == if i < Place(l, o) then l[i] else if i == Place(l, o) then o else l[i - 1]
  {
  }

  lemma InsertNoDup(l: seq<OrderValue>, o: OrderValue)
    requires NoDup(l) && o.id !in Ids(l)
    ensures NoDup(Insert(l, o))
  {
    InsertAt(l, o);
    assert forall i :: 0 <= i < |l| ==> l[i].id in Ids(l);
  }

  lemma InsertSorted(l: seq<OrderValue>, o: OrderValue)
    requires Sorted(l, o.side)
    ensures Sorted(Insert(l, o), o.side)
  {
    InsertAt(l, o);
    assert forall i :: Place(l, o) <= i < |l| ==> !AtLeast(o.side, l[i].price, o.price);
  }

  lemma InsertKeeps(l: seq<OrderValue>, o: OrderValue)
    requires LitOk(l, o.side) && Member(o, o.side, LIMIT) && o.id !in Ids(l)
    ensures LitOk(Insert(l, o), o.side)
    ensures Ids(Insert(l, o)) == Ids(l) + {o.id}
    ensures Insert(l, o)[0].price == if l == [] || !AtLeast(o.side, l[0].price, o.price) then o.price else l[0].price
  {
    InsertIds(l, o);
    InsertNoDup(l, o);
    InsertSorted(l, o);
    InsertAt(l, o);
  }

  lemma RemoveIsSlice(l: seq<OrderValue>, id: int) returns (k: nat)
    requires id in Ids(l)
    ensures k < |l| && l[k].id == id && Remove(l, id) == l[..k] + l[k + 1..]
    ensures forall i :: 0 <= i < k ==> l[i].id != id
  {
    if l[0].id == id {
      k := 0;
    } else {
      assert l == [l[0]] + l[1..];
      k := RemoveIsSlice(l[1..], id);
      k := k + 1;
    }
  }

  lemma RemoveAbsent(l: seq<OrderValue>, id: int)
    requires id !in Ids(l)
    ensures Remove(l, id) == l
  {
    if l != [] {
      assert l[0] in l;
      assert Ids(l[1..]) <= Ids(l);
      RemoveAbsent(l[1..], id);
    }
  }

  /** Removing an id takes out that order alone and leaves all others in their order. */
  lemma RemoveKeeps(l: seq<OrderValue>, id: int)
    requires NoDup(l)
    ensures NoDup(Remove(l, id)) && Ids(Remove(l, id)) == Ids(l) - {id}
    ensures forall o :: o in Remove(l, id) <==> o in l && o.id != id
  {
    if id in Ids(l) {
      var k := RemoveIsSlice(l, id);
      RemoveOneIds(l, k);
    } else {
      RemoveAbsent(l, id);
      assert forall o :: o in l ==> o.id in Ids(l);
    }
  }

  lemma RemoveOneMembers(l: seq<OrderValue>, k: nat)
    requires NoDup(l) && k < |l|
    ensures forall o :: o in l[..k] + l[k + 1..] <==> o in l && o.id != l[k].id
  {
    var r := l[..k] + l[k + 1..];
    forall o
      ensures o in r <==> o in l && o.id != l[k].id
    {
      if o in r {
        var i :| 0 <= i < |r| && r[i] == o;
        assert o == l[if i < k then i else i + 1];
      }
      if o in l && o.id != l[k].id {
        var i :| 0 <= i < |l| && l[i] == o;
        assert o == r[if i < k then i else i - 1];
      }
    }
  }

  lemma RemoveOneDistinct(l: seq<OrderValue>, k: nat)
    requires NoDup(l) && k < |l|
    ensures NoDup(l[..k] + l[k + 1..])
  {
    var r := l[..k] + l[k + 1..];
    assert forall i :: 0 <= i < |r| ==> r[i] == l[if i < k then i else i + 1];
  }

  lemma RemoveOneIds(l: seq<OrderValue>, k: nat)
    requires NoDup(l) && k < |l|
    ensures var r := l[..k] + l[k + 1..];
            NoDup(r) && Ids(r) == Ids(l) - {l[k].id} && forall o :: o in r <==> o in l && o.id != l[k].id
  {
    RemoveOneMembers(l, k);
    RemoveOneDistinct(l, k);
  }

  lemma RemoveSorted(l: seq<OrderValue>, id: int, side: Side)
    requires Sorted(l, side)
    ensures Sorted(Remove(l, id), side)
  {
    if id in Ids(l) {
      var k := RemoveIsSlice(l, id);
      var r := Remove(l, id);
      assert forall i :: 0 <= i < |r| ==> r[i] == if i < k then l[i] else l[i + 1];
    } else {
      RemoveAbsent(l, id);
    }
  }

  lemma RemoveLit(l: seq<OrderValue>, id: int, side: Side)
    requires LitOk(l, side)
    ensures LitOk(Remove(l, id), side) && Ids(Remove(l, id)) == Ids(l) - {id}
    ensures Remove(l, id) != [] ==> l != [] && AtLeast(side, l[0].price, Remove(l, id)[0].price)
  {
    RemoveKeeps(l, id);
    RemoveSorted(l, id, side);
    assert forall i :: 0 <= i < |Remove(l, id)| ==> Remove(l, id)[i] in l;
  }

  lemma RemovePool(l: seq<OrderValue>, id: int, side: Side)
    requires PoolOk(l, side)
    ensures PoolOk(Remove(l, id), side) && Ids(Remove(l, id)) == Ids(l) - {id}
    ensures l == [] ==> Remove(l, id) == []
  {
    RemoveKeeps(l, id);
    assert forall i :: 0 <= i < |Remove(l, id)| ==> Remove(l, id)[i] in l;
  }

  lemma HeadIds(l: seq<OrderValue>)
    requires l != [] && NoDup(l)
    ensures l[0].id in Ids(l) && Ids(l[1..]) == Ids(l) - {l[0].id}
  {
    assert l[0] in l;
    assert l == [l[0]] + l[1..];
  }

  lemma ReplaceHeadIds(l: seq<OrderValue>, h: OrderValue)
    requires l != [] && NoDup(l) && h.id == l[0].id
    ensures Ids([h] + l[1..]) == Ids(l)
    ensures NoDup([h] + l[1..])
  {
    HeadIds(l);
    var r := [h] + l[1..];
    assert forall x :: x in r <==> x == h || x in l[1..];
    assert forall i :: 0 < i < |r| ==> r[i] == l[i];
  }

  lemma TailKeeps(l: seq<OrderValue>, side: Side)
    requires LitOk(l, side) && l != []
    ensures LitOk(l[1..], side) && Ids(l[1..]) == Ids(l) - {l[0].id}
    ensures l[1..] != [] ==> AtLeast(side, l[0].price, l[1].price)
  {
    HeadIds(l);
    assert forall i :: 0 <= i < |l[1..]| ==> l[1..][i] == l[i + 1];
  }

  lemma HeadKeeps(l: seq<OrderValue>, h: OrderValue, side: Side)
    requires LitOk(l, side) && l != [] && Member(h, side, LIMIT) && h.id == l[0].id && h.price == l[0].price
    ensures LitOk([h] + l[1..], side) && Ids([h] + l[1..]) == Ids(l)
  {
    ReplaceHeadIds(l, h);
    assert forall i :: 0 < i < |l| ==> ([h] + l[1..])[i] == l[i];
  }

  /** A fill leaves the side well formed, its head no better than before, and loses only a used-up order. */
  lemma AfterFillKeeps(l: seq<OrderValue>, m: int, side: Side)
    requires LitOk(l, side) && l != [] && 0 < m <= l[0].visible
    ensures LitOk(AfterFill(l, m), side)
    ensures Ids(AfterFill(l, m)) == if m == l[0].qty then Ids(l) - {l[0].id} else Ids(l)
    ensures AfterFill(l, m) != [] ==> AtLeast(side, l[0].price, AfterFill(l, m)[0].price)
  {
    var h := l[0].Fill(m);
    assert Member(l[0], side, LIMIT) && l[0].id in Ids(l);
    TailKeeps(l, side);
    if h.qty != 0 && h.visible == 0 {
      InsertKeeps(l[1..], h.Refresh());
    } else if h.qty != 0 {
      HeadKeeps(l, h, side);
    }
  }

  lemma AfterPoolFillKeeps(l: seq<OrderValue>, m: int, side: Side)
    requires PoolOk(l, side) && l != [] && 0 < m <= l[0].qty
    ensures PoolOk(AfterPoolFill(l, m), side)
    ensures Ids(AfterPoolFill(l, m)) == if m == l[0].qty then Ids(l) - {l[0].id} else Ids(l)
  {
    var h := l[0].Fill(m);
    HeadIds(l);
    assert Member(l[0], side, PEG_MID);
    if h.qty != 0 {
      ReplaceHeadIds(l, h);
      assert forall i :: 0 < i < |l| ==> ([h] + l[1..])[i] == l[i];
    }
  }

  lemma AppendKeeps(l: seq<OrderValue>, o: OrderValue)
    requires PoolOk(l, o.side) && Member(o, o.side, PEG_MID) && o.id !in Ids(l)
    ensures PoolOk(l + [o], o.side) && Ids(l + [o]) == Ids(l) + {o.id}
  {
    assert forall i :: 0 <= i < |l| ==> l[i].id in Ids(l);
    assert forall x :: x in l + [o] <==> x in l || x == o;
  }

  // ---------- The matching loops ----------

  lemma LitStepKeeps(x: Match)
    requires LitReady(x) && BookOk(x.v.book) && Live(x.a)
    ensures BookOk(LitStep(x).v.book) && Onward(x, LitStep(x))
    ensures LitStep(x).v.book.Lit(x.a.side) == x.v.book.Lit(x.a.side)
    ensures LitStep(x).v.book.pegBids == x.v.book.pegBids && LitStep(x).v.book.pegAsks == x.v.book.pegAsks
  {
    var side := x.a.side.Opposite();
    var l := x.v.book.Lit(side);
    assert Member(l[0], side, LIMIT);
    AfterFillKeeps(l, Min(x.a.qty, l[0].visible), side);
  }

  lemma {:induction false} SweepKeeps(x: Match)
    requires BookOk(x.v.book) && Live(x.a)
    ensures BookOk(Sweep(x).v.book) && Onward(x, Sweep(x))
    ensures Sweep(x).v.book.Lit(x.a.side) == x.v.book.Lit(x.a.side)
    ensures Sweep(x).v.book.pegBids == x.v.book.pegBids && Sweep(x).v.book.pegAsks == x.v.book.pegAsks
    ensures !LitReady(Sweep(x))
    decreases x.a.qty
  {
    if LitReady(x) {
      LitStepKeeps(x);
      SweepKeeps(LitStep(x));
    }
  }

  lemma PoolStepKeeps(x: Match, mid: int)
    requires PoolReady(x) && BookOk(x.v.book) && Live(x.a)
    ensures BookOk(PoolStep(x, mid).v.book) && Onward(x, PoolStep(x, mid))
  {
    var side := x.a.side.Opposite();
    var pool := x.v.book.Peg(side);
    assert Member(pool[0], side, PEG_MID);
    AfterPoolFillKeeps(pool, Min(x.a.qty, pool[0].qty), side);
  }

  lemma {:induction false} PoolSweepKeeps(x: Match, mid: int)
    requires BookOk(x.v.book) && Live(x.a)
    ensures BookOk(PoolSweep(x, mid).v.book) && Onward(x, PoolSweep(x, mid))
    ensures !PoolReady(PoolSweep(x, mid))
    ensures PoolSweep(x, mid).v.book.bids == x.v.book.bids && PoolSweep(x, mid).v.book.asks == x.v.book.asks
    ensures PoolSweep(x, mid).v.book.Peg(x.a.side) == x.v.book.Peg(x.a.side)
    decreases |x.v.book.Peg(x.a.side.Opposite())|, x.a.qty
  {
    if PoolReady(x) {
      PoolStepKeeps(x, mid);
      PoolSweepKeeps(PoolStep(x, mid), mid);
    }
  }

  /** The two pools by themselves. */
  ghost predicate PoolsOk(b: Book) {
    PoolOk(b.pegBids, BUY) && PoolOk(b.pegAsks, SELL) && Ids(b.pegBids) !! Ids(b.pegAsks)
  }

  ghost function PegIds(b: Book): set<int> {
    Ids(b.pegBids) + Ids(b.pegAsks)
  }

  lemma CrossStepPools(v: Venue, mid: int)
    requires v.book.pegBids != [] && v.book.pegAsks != [] && PoolsOk(v.book)
    ensures var bid, ask := v.book.pegBids[0], v.book.pegAsks[0];
            var m, b := Min(bid.qty, ask.qty), CrossStep(v, mid).book;
            && PoolsOk(b)
            && Ids(b.pegBids) == (if m == bid.qty then Ids(v.book.pegBids) - {bid.id} else Ids(v.book.pegBids))
            && Ids(b.pegAsks) == (if m == ask.qty then Ids(v.book.pegAsks) - {ask.id} else Ids(v.book.pegAsks))
  {
    assert Member(v.book.pegBids[0], BUY, PEG_MID) && Member(v.book.pegAsks[0], SELL, PEG_MID);
    var m := Min(v.book.pegBids[0].qty, v.book.pegAsks[0].qty);
    AfterPoolFillKeeps(v.book.pegBids, m, BUY);
    AfterPoolFillKeeps(v.book.pegAsks, m, SELL);
  }

  lemma CrossStepKeeps(v: Venue, mid: int)
    requires v.book.pegBids != [] && v.book.pegAsks != []
    requires Shape(v.book) && Uncrossed(v.book)
    ensures Shape(CrossStep(v, mid).book) && Uncrossed(CrossStep(v, mid).book)
    ensures OpenIds(CrossStep(v, mid).book) <= OpenIds(v.book)
  {
    CrossStepPools(v, mid);
  }

  /** The pool cross leaves the lit book alone and a pool empty. */
  lemma {:induction false} CrossLoopKeeps(v: Venue, mid: int)
    requires Shape(v.book) && Uncrossed(v.book)
    ensures BookOk(CrossLoop(v, mid).book)
    ensures CrossLoop(v, mid).book.pegBids == [] || CrossLoop(v, mid).book.pegAsks == []
    ensures CrossLoop(v, mid).book.bids == v.book.bids && CrossLoop(v, mid).book.asks == v.book.asks
    ensures OpenIds(CrossLoop(v, mid).book) <= OpenIds(v.book)
    decreases |v.book.pegBids| + |v.book.pegAsks|
  {
    if v.book.pegBids != [] && v.book.pegAsks != [] {
      CrossStepKeeps(v, mid);
      CrossLoopKeeps(CrossStep(v, mid), mid);
    }
  }

  // ---------- Order entry ----------

  lemma MidExists(b: Book)
    requires Shape(b)
    ensures b.Mid() != NA <==> b.bids != [] && b.asks != []
    ensures b.bids != [] ==> IsOnTick(b.bids[0].price)
    ensures b.asks != [] ==> IsOnTick(b.asks[0].price)
  {
    assert b.bids != [] ==> Member(b.bids[0], BUY, LIMIT);
    assert b.asks != [] ==> Member(b.asks[0], SELL, LIMIT);
  }

  /** Trading keeps the invariant and ends with nothing left to trade on either path. */
  lemma TradingKeeps(x: Match)
    requires BookOk(x.v.book) && Live(x.a)
    ensures var y := Trading(x);
            && BookOk(y.v.book) && Onward(x, y)
            && y.v.book.Lit(x.a.side) == x.v.book.Lit(x.a.side)
            && y.v.book.Peg(x.a.side) == x.v.book.Peg(x.a.side)
            && (x.a.ordType == LIMIT ==> !LitReady(y))
            && (x.a.ordType == PEG_MID ==> y.v.book.bids == x.v.book.bids && y.v.book.asks == x.v.book.asks)
            && (x.a.ordType == PEG_MID && x.v.book.Mid() != NA ==> !PoolReady(y))
  {
    var y := if TakesPool(x.a, x.v.book) then PoolSweep(x, x.v.book.Mid()) else x;
    if TakesPool(x.a, x.v.book) {
      PoolSweepKeeps(x, x.v.book.Mid());
    }
    if x.a.ordType == LIMIT {
      SweepKeeps(y);
    }
  }

  lemma RestPegKeeps(x: Match)
    requires BookOk(x.v.book) && Incoming(x.a, x.v.book) && x.a.qty > 0 && x.a.tif == GTC && x.a.ordType == PEG_MID
    requires x.v.book.Mid() != NA ==> !PoolReady(x)
    ensures BookOk(Rest(x).v.book) && OpenIds(Rest(x).v.book) == OpenIds(x.v.book) + {x.a.id}
  {
    assert Member(x.a, x.a.side, PEG_MID);
    AppendKeeps(x.v.book.Peg(x.a.side), x.a);
  }

  lemma RestLitShape(x: Match)
    requires Shape(x.v.book) && Incoming(x.a, x.v.book) && x.a.qty > 0 && x.a.tif == GTC && x.a.ordType == LIMIT
    ensures Shape(Rest(x).v.book) && OpenIds(Rest(x).v.book) == OpenIds(x.v.book) + {x.a.id}
  {
    InsertKeeps(x.v.book.Lit(x.a.side), x.a.Refresh());
  }

  lemma RestLitUncrossed(x: Match)
    requires Shape(x.v.book) && Uncrossed(x.v.book) && Incoming(x.a, x.v.book) && x.a.qty > 0 && x.a.tif == GTC
    requires x.a.ordType == LIMIT && !LitReady(x)
    ensures Uncrossed(Rest(x).v.book)
  {
    var contra := x.v.book.Lit(x.a.side.Opposite());
    InsertKeeps(x.v.book.Lit(x.a.side), x.a.Refresh());
    assert contra != [] ==> Member(contra[0], x.a.side.Opposite(), LIMIT);
  }

  lemma RestKeeps(x: Match)
    requires BookOk(x.v.book) && Incoming(x.a, x.v.book) && x.a.qty > 0 && x.a.tif == GTC
    requires x.a.ordType == LIMIT ==> !LitReady(x)
    requires x.a.ordType == PEG_MID && x.v.book.Mid() != NA ==> !PoolReady(x)
    ensures Shape(Rest(x).v.book) && Uncrossed(Rest(x).v.book)
    ensures x.a.ordType == PEG_MID ==> BookOk(Rest(x).v.book)
    ensures OpenIds(Rest(x).v.book) == OpenIds(x.v.book) + {x.a.id}
  {
    if x.a.ordType == PEG_MID {
      RestPegKeeps(x);
    } else {
      RestLitShape(x);
      RestLitUncrossed(x);
    }
  }

  /** After trading, the order is to rest, but another order is still open under its id. */
  ghost predicate Clashes(x: Match) {
    x.a.qty > 0 && x.a.tif == GTC && x.a.id in OpenIds(x.v.book)
  }

  /** The engine does not check an incoming id: this is when it takes one it should not have. */
  ghost predicate Reuses(v: Venue, o: OrderValue) {
    !Killed(v, o) && Clashes(Trading(Match(v, o)))
  }

  lemma DisposeKeeps(x: Match)
    requires BookOk(x.v.book) && Live(x.a) && !Clashes(x)
    requires x.a.ordType == LIMIT ==> !LitReady(x)
    requires x.a.ordType == PEG_MID && x.v.book.Mid() != NA ==> !PoolReady(x)
    ensures Shape(Dispose(x).v.book) && Uncrossed(Dispose(x).v.book)
    ensures x.a.ordType == PEG_MID ==> BookOk(Dispose(x).v.book)
  {
    if x.a.qty > 0 && x.a.tif == GTC {
      RestKeeps(x);
    }
  }

  /** Admitting an order keeps the invariant, unless it comes to rest beside an order with its id. */
  lemma AddKeeps(v: Venue, o: OrderValue)
    requires BookOk(v.book) && Live(o) && !Reuses(v, o)
    ensures BookOk(Add(v, o).v.book)
  {
    if !Killed(v, o) {
      var x := Trading(Match(v, o));
      TradingKeeps(Match(v, o));
      DisposeKeeps(x);
      var y := Dispose(x);
      if o.ordType == LIMIT {
        MidExists(y.v.book);
        if y.v.book.Mid() != NA {
          CrossLoopKeeps(y.v, y.v.book.Mid());
        }
      }
    }
  }

  /** With a fresh id there is no clash. */
  lemma FreshIdKeeps(v: Venue, o: OrderValue)
    requires BookOk(v.book) && Incoming(o, v.book)
    ensures !Reuses(v, o) && BookOk(Add(v, o).v.book)
  {
    TradingKeeps(Match(v, o));
    AddKeeps(v, o);
  }

  /** A cancel keeps the invariant: in particular it never creates a midpoint, so it never needs a pool cross. */
  lemma CancelKeeps(b: Book, id: int)
    requires BookOk(b)
    ensures BookOk(Cancel(b, id)) && OpenIds(Cancel(b, id)) == OpenIds(b) - {id}
    ensures b.Mid() == NA ==> Cancel(b, id).Mid() == NA
  {
    RemoveLit(b.bids, id, BUY);
    RemoveLit(b.asks, id, SELL);
    RemovePool(b.pegBids, id, BUY);
    RemovePool(b.pegAsks, id, SELL);
    RemovedMid(b, Cancel(b, id));
  }

  /** Sides that shrink bring no midpoint about. */
  lemma RemovedMid(b: Book, c: Book)
    requires Shape(b) && Shape(c) && (b.bids == [] ==> c.bids == []) && (b.asks == [] ==> c.asks == [])
    ensures b.Mid() == NA ==> c.Mid() == NA
  {
    MidExists(b);
    MidExists(c);
  }
}
