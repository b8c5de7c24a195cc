/** The matching engine: price levels, peg pools, id index and logs, mutated in place. */
module Engine {
  import opened Orders
  import opened Matching
  import opened Invariant
  import opened Levels
  import opened LiquidityTheorems
  import opened Depth
  import opened Reuse

  const RING_SIZE := 1024

  /** One report as it stands in its slot, with the moment it was written. */
  datatype Slot = Slot(report: Exec, timestamp: int)

  /** The outbound ring: its slots are reused in turn. What it was handed so far is remembered beside it. */
  datatype RingState = RingState(slots: seq<Slot>, next: nat, ghost events: seq<Exec>, ghost stamps: seq<int>)

  /** The ring holds the last reports published, as many as it has slots, each exactly as published. */
  ghost predicate Retains(r: RingState) {
    && |r.slots| == RING_SIZE && |r.events| == |r.stamps| == r.next
    && forall k :: 0 <= k < r.next && r.next - RING_SIZE <= k ==>
         r.slots[k % RING_SIZE] == Slot(r.events[k], r.stamps[k])
  }

  type Ring = r: RingState | Retains(r)
    witness RingState(seq(RING_SIZE, _ => Slot(PlainExec(ORDER_ACCEPTED, 0), 0)), 0, [], [])

  /** The publisher of reports. A slot still holds an old report when it is claimed; the ring retains what it should at
      all times, whoever publishes. */
  class ExecutionPublisher {
    var ring: Ring
    /** The readings of the clock, one for each report. */
    const clock: nat -> int

    constructor (clock: nat -> int)
      ensures ring.events == [] && this.clock == clock
    {
      this.clock := clock;
      ring := RingState(seq(RING_SIZE, _ => Slot(PlainExec(ORDER_ACCEPTED, 0), 0)), 0, [], []);
    }

    /** Claims the next slot, overwrites every field of the report left in it, and publishes it. */
    method Publish(execType: ExecType, orderId: int, tradeId: int, price: int, filled: int, remaining: int,
                   aggressor: int, passive: int)
      modifies this
      ensures ring.events
              == old(ring.events) + [Exec(execType, orderId, tradeId, price, filled, remaining, aggressor, passive)]
      ensures ring.stamps == old(ring.stamps) + [clock(|old(ring.stamps)|)]
    {
      var seqNo := ring.next;
      var slot := ring.slots[seqNo % RING_SIZE];
      var e := slot.report;
      e := e.(execType := execType);
      e := e.(orderId := orderId);
      e := e.(tradeId := tradeId);
      e := e.(price := price);
      e := e.(filled := filled);
      e := e.(remaining := remaining);
      e := e.(aggressor := aggressor);
      e := e.(passive := passive);
      slot := slot.(report := e);
      slot := slot.(timestamp := clock(seqNo));
      ring := RingState(ring.slots[seqNo % RING_SIZE := slot], seqNo + 1,
                        ring.events + [e], ring.stamps + [slot.timestamp]);
    }

    method OnFill(aggressor: int, passive: int, tradeId: int, price: int, filled: int, remaining: int)
      modifies this
      ensures ring.events == old(ring.events) + [FillExec(aggressor, passive, tradeId, price, filled, remaining)]
    {
      var execType := if remaining == 0 then ORDER_FILLED else ORDER_PARTIALLY_FILLED;
      Publish(execType, aggressor, tradeId, price, filled, remaining, aggressor, passive);
    }

    method OnAccepted(orderId: int, price: int, remaining: int)
      modifies this
      ensures ring.events == old(ring.events) + [AcceptedExec(orderId, price, remaining)]
    {
      Publish(ORDER_ACCEPTED, orderId, NA, price, NA, remaining, NA, NA);
    }

    method OnExpired(orderId: int, expired: int)
      modifies this
      ensures ring.events == old(ring.events) + [ExpiredExec(orderId, expired)]
    {
      Publish(ORDER_EXPIRED, orderId, NA, NA, NA, expired, NA, NA);
    }
  }

  // ---------- The first level after a trade ----------

  /** Dropping the first order, and its level once empty, drops the head of the flat list. */
  lemma TopRemoved(levels: seq<Level>, after: seq<Level>, side: Side)
    requires LevelsOk(levels, side) && levels != []
    requires after == if |levels[0].queue| == 1 then levels[1..]
                      else [Level(levels[0].price, levels[0].queue[1..])] + levels[1..]
    ensures LevelsOk(after, side) && Flat(after) == Flat(levels)[1..]
  {
    TailOk(levels, side);
    FirstDropped(levels[0].queue, Flat(levels[1..]));
    if |levels[0].queue| > 1 {
      PrependOk(Level(levels[0].price, levels[0].queue[1..]), levels[1..], side);
      assert after[0] == Level(levels[0].price, levels[0].queue[1..]) && after[1..] == levels[1..];
    }
  }

  lemma FirstDropped<T>(q: seq<T>, rest: seq<T>)
    requires q != []
    ensures (q + rest)[1..] == q[1..] + rest
    ensures |q| == 1 ==> (q + rest)[1..] == rest
  {
  }

  lemma InFront(h: Order, q: seq<Order>)
    ensures ([h] + q)[1..] == q && Values([h] + q) == [h.Value()] + Values(q)
  {
    ValuesConcat([h], q);
    assert Values([h]) == [h.Value()];
  }

  /** Moving an only order to the back of its level changes nothing. */
  lemma AloneInLevel(levels: seq<Level>)
    requires levels != [] && |levels[0].queue| == 1
    ensures levels == [Level(levels[0].price, levels[0].queue[1..] + [levels[0].queue[0]])] + levels[1..]
  {
    assert levels[0].queue[1..] + [levels[0].queue[0]] == levels[0].queue;
  }

  lemma TopRotatedAlone(levels: seq<Level>, side: Side)
    requires LevelsOk(levels, side) && levels != [] && |levels[0].queue| == 1
    ensures Values(Flat(levels)) == Insert(Values(Flat(levels)[1..]), levels[0].queue[0].Value())
  {
    var h, rest := levels[0].queue[0], levels[1..];
    TailOk(levels, side);
    assert levels[0].queue == [h];
    InsertFirst(rest, h);
    InFront(h, Flat(rest));
  }

  lemma BackOfLevel(p: int, q: seq<Order>, rest: seq<Level>, h: Order)
    requires LevelsOk([Level(p, q)] + rest, h.side) && h.price == p
    ensures LevelsOk([Level(p, q + [h])] + rest, h.side)
    ensures Values(Flat([Level(p, q + [h])] + rest)) == Insert(Values(q + Flat(rest)), h.Value())
    ensures Flat([Level(p, q + [h])] + rest) == q + [h] + Flat(rest)
  {
    var below := [Level(p, q)] + rest;
    assert below[0] == Level(p, q) && below[1..] == rest;
    EnqueueSame(below, h);
  }

  lemma TailRefs(q: seq<Order>)
    requires q != []
    ensures Refs(q) == Refs(q[1..]) + {q[0]}
  {
    assert q == [q[0]] + q[1..];
  }

  lemma AddedRef(q: seq<Order>, o: Order)
    ensures Refs(q + [o]) == Refs(q) + {o}
  {
  }

  lemma RotateRefs(a: seq<Order>, b: seq<Order>)
    requires a != []
    ensures (a + b)[1..] == a[1..] + b
    ensures Refs(a + b) == Refs(a[1..] + [a[0]] + b)
  {
    var l, r := a + b, a[1..] + [a[0]] + b;
    assert a == [a[0]] + a[1..];
    forall o
      ensures o in l <==> o in r
    {
      assert o in l <==> o == a[0] || o in a[1..] || o in b;
    }
  }

  lemma TopRotatedAmong(levels: seq<Level>, side: Side)
    requires LevelsOk(levels, side) && levels != [] && |levels[0].queue| > 1
    ensures var after := [Level(levels[0].price, levels[0].queue[1..] + [levels[0].queue[0]])] + levels[1..];
            && LevelsOk(after, side)
            && Values(Flat(after)) == Insert(Values(Flat(levels)[1..]), levels[0].queue[0].Value())
            && Flat(after) == levels[0].queue[1..] + [levels[0].queue[0]] + Flat(levels[1..])
  {
    var q, rest := levels[0].queue[1..], levels[1..];
    RotateRefs(levels[0].queue, Flat(rest));
    TailOk(levels, side);
    PrependOk(Level(levels[0].price, q), rest, side);
    BackOfLevel(levels[0].price, q, rest, levels[0].queue[0]);
  }

  /** Moving the first order to the back of its level is queueing it anew at its price. */
  lemma TopRotated(levels: seq<Level>, after: seq<Level>, side: Side)
    requires LevelsOk(levels, side) && levels != []
    requires after == [Level(levels[0].price, levels[0].queue[1..] + [levels[0].queue[0]])] + levels[1..]
    ensures LevelsOk(after, side)
    ensures Values(Flat(after)) == Insert(Values(Flat(levels)[1..]), levels[0].queue[0].Value())
    ensures Refs(Flat(after)) == Refs(Flat(levels))
  {
    if |levels[0].queue| == 1 {
      AloneInLevel(levels);
      TopRotatedAlone(levels, side);
    } else {
      TopRotatedAmong(levels, side);
      RotateRefs(levels[0].queue, Flat(levels[1..]));
    }
  }

  lemma ValuesAre(q: seq<Order>, vs: seq<OrderValue>)
    requires |q| == |vs| && forall i :: 0 <= i < |q| ==> q[i].Value() == vs[i]
    ensures Values(q) == vs
  {
  }

  /** A change to the order being removed does not show in what remains. */
  lemma {:induction false} RemoveIgnores(l: seq<OrderValue>, m: seq<OrderValue>, id: int)
    requires |l| == |m| && forall i :: 0 <= i < |l| ==> l[i].id == m[i].id && (l[i].id == id || l[i] == m[i])
    requires NoDup(l)
    ensures Remove(l, id) == Remove(m, id)
  {
    if l != [] {
      if l[0].id == id {
        assert forall i :: 0 < i < |l| ==> l[i].id != id;
        assert l[1..] == m[1..];
      } else {
        assert forall i :: 0 <= i < |l| - 1 ==> l[1..][i] == l[i + 1] && m[1..][i] == m[i + 1];
        RemoveIgnores(l[1..], m[1..], id);
      }
    }
  }

  lemma SameButOne(q: seq<Order>, before: seq<OrderValue>, o: Order)
    requires |before| == |q| && NoDup(before) && forall i :: 0 <= i < |q| ==> q[i].orderID == before[i].id
    requires forall i :: 0 <= i < |q| && q[i] != o ==> q[i].Value() == before[i]
    ensures Remove(Values(q), o.orderID) == Remove(before, o.orderID) && NoDup(Values(q))
  {
    if o in q {
      var n :| 0 <= n < |q| && q[n] == o;
      assert before[n].id == o.orderID;
    }
    assert forall i :: 0 <= i < |q| ==> Values(q)[i].id == before[i].id;
    RemoveIgnores(before, Values(q), o.orderID);
  }

  lemma CancelLitParts(b: Book, side: Side, id: int)
    requires Shape(b) && id in Ids(b.Lit(side))
    ensures Cancel(b, id) == b.WithLit(side, Remove(b.Lit(side), id))
  {
    RemoveAbsent(b.Lit(side.Opposite()), id);
    RemoveAbsent(b.pegBids, id);
    RemoveAbsent(b.pegAsks, id);
  }

  lemma CancelPegParts(b: Book, side: Side, id: int)
    requires Shape(b) && id in Ids(b.Peg(side))
    ensures Cancel(b, id) == b.WithPeg(side, Remove(b.Peg(side), id))
  {
    RemoveAbsent(b.Peg(side.Opposite()), id);
    RemoveAbsent(b.bids, id);
    RemoveAbsent(b.asks, id);
  }

  lemma CancelAbsent(b: Book, id: int)
    requires id !in OpenIds(b)
    ensures Cancel(b, id) == b
  {
    RemoveAbsent(b.bids, id);
    RemoveAbsent(b.asks, id);
    RemoveAbsent(b.pegBids, id);
    RemoveAbsent(b.pegAsks, id);
  }

  lemma ListedMember(q: seq<Order>, o: Order, side: Side, ordType: OrdType)
    requires o in q && forall i :: 0 <= i < |q| ==> Member(Values(q)[i], side, ordType)
    ensures Member(o.Value(), side, ordType) && o.orderID in Ids(Values(q))
  {
    var i :| 0 <= i < |q| && q[i] == o;
    assert Values(q)[i] == o.Value() && Values(q)[i] in Values(q);
  }

  lemma NotListed(q: seq<Order>, o: Order)
    requires o.orderID !in Ids(Values(q))
    ensures o !in q
  {
    forall i | 0 <= i < |q|
      ensures q[i] != o
    {
      assert Values(q)[i] in Values(q);
    }
  }

  /** Lists without a common id have no common order. */
  lemma NotListedBeside(q: seq<Order>, p: seq<Order>, o: Order)
    requires Ids(Values(q)) !! Ids(Values(p)) && o in p
    ensures o !in q
  {
    var i :| 0 <= i < |p| && p[i] == o;
    assert Values(p)[i] in Values(p) && Values(p)[i].id in Ids(Values(p));
    NotListed(q, o);
  }

  lemma HeadValue(levels: seq<Level>, side: Side)
    requires LevelsOk(levels, side) && levels != []
    ensures Flat(levels) != [] && Flat(levels)[0] == levels[0].queue[0]
    ensures Values(Flat(levels))[0] == levels[0].queue[0].Value()
    ensures Values(Flat(levels)) == [levels[0].queue[0].Value()] + Values(Flat(levels)[1..])
  {
    FlatHead(levels, side);
  }

  /** A list whose head has been filled, the rest as before. */
  lemma {:induction false} HeadFilled(q: seq<Order>, before: seq<OrderValue>, m: int)
    requires q != [] && |before| == |q| && q[0].Value() == before[0].Fill(m) && Values(q[1..]) == before[1..]
    ensures Values(q) == [before[0].Fill(m)] + before[1..]
  {
    assert q == [q[0]] + q[1..];
    ValuesConcat([q[0]], q[1..]);
    assert Values([q[0]]) == [q[0].Value()];
  }

  /** A side whose first order has just been filled: gone, reloaded at the back of its price, or still first. */
  function Settle(l: seq<OrderValue>): seq<OrderValue>
    requires l != []
  {
    if l[0].qty == 0 then l[1..]
    else if l[0].visible == 0 then Insert(l[1..], l[0].Refresh())
    else l
  }

  lemma SettleIsAfterFill(l: seq<OrderValue>, m: int)
    requires l != []
    ensures Settle([l[0].Fill(m)] + l[1..]) == AfterFill(l, m)
  {
    assert ([l[0].Fill(m)] + l[1..])[1..] == l[1..];
  }

  lemma FilledSettles(q: seq<Order>, before: seq<OrderValue>, m: int)
    requires q != [] && |before| == |q| && q[0].Value() == before[0].Fill(m) && Values(q[1..]) == before[1..]
    ensures Settle(Values(q)) == AfterFill(before, m)
  {
    HeadFilled(q, before, m);
    SettleIsAfterFill(before, m);
  }

  /** The queue work after a fill of the first order. */
  method SettleTop(levels: seq<Level>, ghost side: Side, ghost others: seq<seq<Order>>)
    returns (after: seq<Level>, consumed: bool)
    requires LevelsOk(levels, side) && levels != []
    requires levels[0].queue[0] !in Flat(levels)[1..]
    requires forall i :: 0 <= i < |others| ==> levels[0].queue[0] !in others[i]
    modifies levels[0].queue[0]
    ensures LevelsOk(after, side)
    ensures Values(Flat(after)) == Settle(old(Values(Flat(levels))))
    ensures forall i :: 0 <= i < |others| ==> Values(others[i]) == old(Values(others[i]))
    ensures consumed == (old(levels[0].queue[0].quantity) == 0)
    ensures levels[0].queue[0].quantity == old(levels[0].queue[0].quantity)
    ensures consumed ==> levels[0].queue[0].Value() == old(levels[0].queue[0].Value())
    ensures Refs(Flat(after)) == if consumed then Refs(Flat(levels)) - {levels[0].queue[0]} else Refs(Flat(levels))
  {
    HeadValue(levels, side);
    ghost var flat, vs := Flat(levels), Values(Flat(levels));
    assert flat == [flat[0]] + flat[1..];
    assert vs[1..] == Values(flat[1..]);
    var price, queue := levels[0].price, levels[0].queue;
    var order := queue[0];
    after, consumed := levels, false;
    if order.quantity == 0 {
      queue := queue[1..];
      consumed := true;
      after := if queue == [] then levels[1..] else [Level(price, queue)] + levels[1..];
      TopRemoved(levels, after, side);
    } else if order.visibleQty == 0 {
      after := ReloadTop(levels, side, others);
    }
  }

  /** An exhausted tip with reserve left: a fresh slice, at the back of its level. */
  method ReloadTop(levels: seq<Level>, ghost side: Side, ghost others: seq<seq<Order>>) returns (after: seq<Level>)
    requires LevelsOk(levels, side) && levels != []
    requires levels[0].queue[0] !in Flat(levels)[1..]
    requires forall i :: 0 <= i < |others| ==> levels[0].queue[0] !in others[i]
    modifies levels[0].queue[0]
    ensures LevelsOk(after, side)
    ensures Values(Flat(after))
            == Insert(old(Values(Flat(levels)))[1..], old(levels[0].queue[0].Value()).Refresh())
    ensures forall i :: 0 <= i < |others| ==> Values(others[i]) == old(Values(others[i]))
    ensures levels[0].queue[0].quantity == old(levels[0].queue[0].quantity)
    ensures Refs(Flat(after)) == Refs(Flat(levels))
  {
    HeadValue(levels, side);
    ghost var tail, vs := Flat(levels)[1..], Values(Flat(levels));
    assert vs[1..] == Values(tail);
    var price, queue := levels[0].price, levels[0].queue;
    var order := queue[0];
    queue := queue[1..];
    order.RefreshDisplay();
    queue := queue + [order];
    after := [Level(price, queue)] + levels[1..];
    TopRotated(levels, after, side);
    assert vs[1..] == Values(tail);
  }

  /** What one trade with the contra side's first order does, field by field. */
  ghost predicate Traded(x: Match, y: Match)
  {
    var side := x.a.side.Opposite();
    var c := x.v.book.Lit(side);
    && c != []
    && var m := Min(x.a.qty, c[0].visible);
       && y.v.book.Lit(side) == AfterFill(c, m)
       && y.v.book.Lit(x.a.side) == x.v.book.Lit(x.a.side)
       && y.v.book.pegBids == x.v.book.pegBids && y.v.book.pegAsks == x.v.book.pegAsks
       && y.a == x.a.Fill(m)
       && y.v.(book := EMPTY_BOOK) == Print(x.v.(book := EMPTY_BOOK), x.a, c[0], c[0].price, m)
  }

  lemma TradedIsLitStep(x: Match, y: Match)
    requires LitReady(x) && Traded(x, y)
    ensures y == LitStep(x)
  {
  }

  lemma LitStepIds(x: Match)
    requires LitReady(x) && Shape(x.v.book)
    ensures var c := x.v.book.Lit(x.a.side.Opposite());
            OpenIds(LitStep(x).v.book)
            == if Min(x.a.qty, c[0].visible) == c[0].qty then OpenIds(x.v.book) - {c[0].id} else OpenIds(x.v.book)
  {
    var side := x.a.side.Opposite();
    var c := x.v.book.Lit(side);
    assert Member(c[0], side, LIMIT);
    HeadIds(c);
    AfterFillKeeps(c, Min(x.a.qty, c[0].visible), side);
  }

  /** What one trade with the opposite pool's first order does, field by field. */
  ghost predicate PoolTraded(x: Match, y: Match, mid: int)
  {
    var side := x.a.side.Opposite();
    var c := x.v.book.Peg(side);
    && c != []
    && var m := Min(x.a.qty, c[0].qty);
       && y.v.book.Peg(side) == AfterPoolFill(c, m)
       && y.v.book.Peg(x.a.side) == x.v.book.Peg(x.a.side)
       && y.v.book.bids == x.v.book.bids && y.v.book.asks == x.v.book.asks
       && y.a == x.a.Fill(m)
       && y.v.(book := EMPTY_BOOK) == Print(x.v.(book := EMPTY_BOOK), x.a, c[0], mid, m)
  }

  lemma PoolTradedIsPoolStep(x: Match, y: Match, mid: int)
    requires PoolReady(x) && PoolTraded(x, y, mid)
    ensures y == PoolStep(x, mid)
  {
  }

  lemma PoolStepIds(x: Match, mid: int)
    requires PoolReady(x) && Shape(x.v.book)
    ensures var c := x.v.book.Peg(x.a.side.Opposite());
            OpenIds(PoolStep(x, mid).v.book)
            == if Min(x.a.qty, c[0].qty) == c[0].qty then OpenIds(x.v.book) - {c[0].id} else OpenIds(x.v.book)
  {
    var side := x.a.side.Opposite();
    var c := x.v.book.Peg(side);
    assert Member(c[0], side, PEG_MID);
    HeadIds(c);
    AfterPoolFillKeeps(c, Min(x.a.qty, c[0].qty), side);
  }

  /** What one trade between the pool heads does, field by field. */
  ghost predicate Crossed(v: Venue, w: Venue, mid: int)
  {
    && v.book.pegBids != [] && v.book.pegAsks != []
    && var bid, ask := v.book.pegBids[0], v.book.pegAsks[0];
       var m := Min(bid.qty, ask.qty);
       && w.book.bids == v.book.bids && w.book.asks == v.book.asks
       && w.book.pegBids == AfterPoolFill(v.book.pegBids, m)
       && w.book.pegAsks == AfterPoolFill(v.book.pegAsks, m)
       && w.(book := EMPTY_BOOK)
          == (if IsLater(bid, ask) then Print(v.(book := EMPTY_BOOK), bid, ask, mid, m)
              else Print(v.(book := EMPTY_BOOK), ask, bid, mid, m))
  }

  lemma CrossedIsCrossStep(v: Venue, w: Venue, mid: int)
    requires Crossed(v, w, mid)
    ensures w == CrossStep(v, mid)
  {
  }

  lemma CrossStepIds(v: Venue, mid: int)
    requires Shape(v.book) && v.book.pegBids != [] && v.book.pegAsks != []
    ensures var bid, ask := v.book.pegBids[0], v.book.pegAsks[0];
            var m := Min(bid.qty, ask.qty);
            OpenIds(CrossStep(v, mid).book)
            == OpenIds(v.book) - (if m == bid.qty then {bid.id} else {}) - (if m == ask.qty then {ask.id} else {})
  {
    var bid, ask := v.book.pegBids[0], v.book.pegAsks[0];
    var m := Min(bid.qty, ask.qty);
    assert Member(bid, BUY, PEG_MID) && Member(ask, SELL, PEG_MID);
    HeadIds(v.book.pegBids);
    HeadIds(v.book.pegAsks);
    AfterPoolFillKeeps(v.book.pegBids, m, BUY);
    AfterPoolFillKeeps(v.book.pegAsks, m, SELL);
  }

  /** The keys one trade of the cross takes out are those of the pegs that leave. */
  lemma CrossKeys(v: Venue, mid: int)
    requires v.book.pegBids != [] && v.book.pegAsks != [] && PoolsOk(v.book)
    ensures var bid, ask := v.book.pegBids[0], v.book.pegAsks[0];
            var m := Min(bid.qty, ask.qty);
            var b := CrossStep(v, mid).book;
            && PegIds(b) <= PegIds(v.book)
            && PegIds(v.book) - PegIds(b)
               == (if m == bid.qty then {bid.id} else {}) + (if m == ask.qty then {ask.id} else {})
  {
    CrossStepPools(v, mid);
    HeadIds(v.book.pegBids);
    HeadIds(v.book.pegAsks);
  }

  /** The keys of the index once a traded order is disposed of. */
  ghost function KeysAfter(x: Match): set<int> {
    OpenIds(x.v.book) + if x.a.qty > 0 && x.a.tif == GTC then {x.a.id} else {}
  }

  lemma KeysAreIndex(v: Venue, o: OrderValue)
    requires BookOk(v.book) && Live(o) && !Killed(v, o)
    ensures var x := Trading(Match(v, o));
            IndexAfter(v, o)
            == if o.ordType == PEG_MID then KeysAfter(x)
               else KeysAfter(x) - (PegIds(Dispose(x).v.book) - PegIds(CrossPools(Dispose(x).v).book))
  {
    TradingKeeps(Match(v, o));
  }

  ghost predicate AllPositive(vs: seq<OrderValue>) {
    forall k :: 0 <= k < |vs| ==> vs[k].qty > 0
  }

  class MatchingEngine {
    var bids: seq<Level>
    var asks: seq<Level>
    var pegBids: seq<Order>
    var pegAsks: seq<Order>
    var openOrders: map<int, Order>
    var trades: seq<Trade>
    var lastTradeId: int
    const listener: ExecutionPublisher

    /** Every order object that rests somewhere. */
    ghost function Held(): set<Order>
      reads this
    {
      Refs(Flat(bids)) + Refs(Flat(asks)) + Refs(pegBids) + Refs(pegAsks)
    }

    /** Those of them that rest at a price. */
    ghost function LitHeld(): set<Order>
      reads this
    {
      Refs(Flat(bids)) + Refs(Flat(asks))
    }

    ghost function Contents(): Book
      reads this, Flat(bids), Flat(asks), pegBids, pegAsks
    {
      Book(Values(Flat(bids)), Values(Flat(asks)), Values(pegBids), Values(pegAsks))
    }

    /** The engine as the matcher sees it. */
    ghost function View(): Venue
      reads this, Flat(bids), Flat(asks), pegBids, pegAsks, listener
    {
      Venue(Contents(), lastTradeId, trades, listener.ring.events)
    }

    /** The id index holds exactly the resting orders, each under its own id. */
    ghost predicate Indexed()
      reads this, Flat(bids), Flat(asks), pegBids, pegAsks
    {
      && openOrders.Keys == OpenIds(Contents())
      && forall id :: id in openOrders ==> openOrders[id].orderID == id && openOrders[id] in Held()
    }

    ghost predicate Structured()
      reads this, Flat(bids), Flat(asks), pegBids, pegAsks
    {
      && LevelsOk(bids, BUY) && LevelsOk(asks, SELL)
      && Shape(Contents()) && Uncrossed(Contents())
      && Indexed()
    }

    /** Holds before and after every call. */
    ghost predicate Valid()
      reads this, Flat(bids), Flat(asks), pegBids, pegAsks
    {
      Structured() && PoolsIdle(Contents())
    }

    constructor (listener: ExecutionPublisher)
      ensures Valid() && View() == OPENING.(execs := listener.ring.events) && this.listener == listener
      ensures Held() == {}
    {
      bids, asks, pegBids, pegAsks := [], [], [], [];
      openOrders, trades, lastTradeId := map[], [], 0;
      this.listener := listener;
    }

    method NextTradeID() returns (id: int)
      modifies this`lastTradeId
      ensures id == lastTradeId == old(lastTradeId) + 1
    {
      lastTradeId := lastTradeId + 1;
      id := lastTradeId;
    }

    /** Fill both orders, log the trade, report it. */
    method Deal(aggressor: Order, passive: Order, price: int, m: int, ghost others: seq<seq<Order>>)
      requires aggressor != passive
      requires forall i :: 0 <= i < |others| ==> aggressor !in others[i] && passive !in others[i]
      requires 0 < m <= aggressor.quantity && m <= passive.quantity
      modifies this`trades, this`lastTradeId, listener, aggressor, passive
      ensures aggressor.Value() == old(aggressor.Value()).Fill(m)
      ensures passive.Value() == old(passive.Value()).Fill(m)
      ensures forall i :: 0 <= i < |others| ==> Values(others[i]) == old(Values(others[i]))
      ensures Venue(EMPTY_BOOK, lastTradeId, trades, listener.ring.events)
              == old(Print(Venue(EMPTY_BOOK, lastTradeId, trades, listener.ring.events),
                           aggressor.Value(), passive.Value(), price, m))
    {
      var filled := aggressor.Fill(m);
      filled := passive.Fill(m);
      var buyOrder, sellOrder := aggressor, passive;
      if aggressor.side == SELL {
        buyOrder, sellOrder := passive, aggressor;
      }
      var tradeID := NextTradeID();
      trades := trades + [Trade(tradeID, buyOrder.orderID, sellOrder.orderID, buyOrder.participantID,
                                sellOrder.participantID, price, m)];
      listener.OnFill(aggressor.orderID, passive.orderID, tradeID, price, m, aggressor.quantity);
    }

    /** The same, with the orders queued behind the passive one named apart. */
    method DealBefore(aggressor: Order, passive: Order, price: int, m: int, ghost tail: seq<Order>,
                      ghost others: seq<seq<Order>>)
      requires aggressor != passive && aggressor !in tail && passive !in tail
      requires forall i :: 0 <= i < |others| ==> aggressor !in others[i] && passive !in others[i]
      requires 0 < m <= aggressor.quantity && m <= passive.quantity
      modifies this`trades, this`lastTradeId, listener, aggressor, passive
      ensures aggressor.Value() == old(aggressor.Value()).Fill(m)
      ensures passive.Value() == old(passive.Value()).Fill(m)
      ensures Values(tail) == old(Values(tail))
      ensures forall i :: 0 <= i < |others| ==> Values(others[i]) == old(Values(others[i]))
      ensures Venue(EMPTY_BOOK, lastTradeId, trades, listener.ring.events)
              == old(Print(Venue(EMPTY_BOOK, lastTradeId, trades, listener.ring.events),
                           aggressor.Value(), passive.Value(), price, m))
    {
      ghost var all := [tail] + others;
      assert all[0] == tail && forall i :: 0 <= i < |others| ==> all[i + 1] == others[i];
      Deal(aggressor, passive, price, m, all);
    }

    /** An object that no list of the engine holds. */
    ghost predicate Apart(o: Order)
      reads this
    {
      o !in Flat(bids) && o !in Flat(asks) && o !in pegBids && o !in pegAsks
    }

    /** An order object handed in for matching, whatever its id: it rests nowhere. */
    ghost predicate Taking(o: Order)
      reads this, o
    {
      Live(o.Value()) && o !in Held()
    }

    lemma TakingApart(o: Order)
      requires Taking(o)
      ensures Apart(o)
    {
    }

    /** The best ask can trade, and is in no other place. */
    ghost predicate BestAskAlone()
      reads this, Flat(asks)
    {
      && asks != [] && asks[0].queue != []
      && var h := asks[0].queue[0];
         && h in Flat(asks) && h !in Flat(asks)[1..] && h !in Flat(bids) && h !in pegBids && h !in pegAsks
         && 0 < h.visibleQty <= h.quantity && h.side == SELL && h.price == asks[0].price
    }

    lemma BestAskApart()
      requires Structured() && asks != []
      ensures BestAskAlone()
    {
      HeadValue(asks, SELL);
      FlatHead(asks, SELL);
      var h, c := Flat(asks)[0], Contents().asks;
      HeadIds(c);
      assert Member(c[0], SELL, LIMIT);
      NotListed(Flat(bids), h);
      NotListed(pegBids, h);
      NotListed(pegAsks, h);
      assert Values(Flat(asks)[1..]) == c[1..];
      NotListed(Flat(asks)[1..], h);
    }

    /** The best bid can trade, and is in no other place. */
    ghost predicate BestBidAlone()
      reads this, Flat(bids)
    {
      && bids != [] && bids[0].queue != []
      && var h := bids[0].queue[0];
         && h in Flat(bids) && h !in Flat(bids)[1..] && h !in Flat(asks) && h !in pegBids && h !in pegAsks
         && 0 < h.visibleQty <= h.quantity && h.side == BUY && h.price == bids[0].price
    }

    lemma BestBidApart()
      requires Structured() && bids != []
      ensures BestBidAlone()
    {
      HeadValue(bids, BUY);
      FlatHead(bids, BUY);
      var h, c := Flat(bids)[0], Contents().bids;
      HeadIds(c);
      assert Member(c[0], BUY, LIMIT);
      NotListed(Flat(asks), h);
      NotListed(pegBids, h);
      NotListed(pegAsks, h);
      assert Values(Flat(bids)[1..]) == c[1..];
      NotListed(Flat(bids)[1..], h);
    }

    /** The trade alone, before any queue work. */
    method DealTop(levels: seq<Level>, ghost side: Side, aggressor: Order, ghost others: seq<seq<Order>>)
      requires LevelsOk(levels, side) && levels != []
      requires var h := levels[0].queue[0];
               && h !in Flat(levels)[1..] && 0 < h.visibleQty <= h.quantity && aggressor.quantity > 0
               && aggressor !in Flat(levels) && aggressor != h
               && forall i :: 0 <= i < |others| ==> h !in others[i] && aggressor !in others[i]
      modifies this`trades, this`lastTradeId, listener, aggressor, levels[0].queue[0]
      ensures forall i :: 0 <= i < |others| ==> Values(others[i]) == old(Values(others[i]))
      ensures var h, m := levels[0].queue[0], old(Min(aggressor.quantity, levels[0].queue[0].visibleQty));
              && Settle(Values(Flat(levels))) == AfterFill(old(Values(Flat(levels))), m)
              && h.quantity == old(h.quantity) - m
              && aggressor.Value() == old(aggressor.Value()).Fill(m)
              && Venue(EMPTY_BOOK, lastTradeId, trades, listener.ring.events)
                 == old(Print(Venue(EMPTY_BOOK, lastTradeId, trades, listener.ring.events),
                              aggressor.Value(), levels[0].queue[0].Value(), levels[0].price, m))
    {
      HeadValue(levels, side);
      DealHead(Flat(levels), levels[0].queue[0], levels[0].price, aggressor, others);
    }

    /** The first order of a list trades what it shows. */
    method DealHead(ghost q: seq<Order>, h: Order, price: int, aggressor: Order, ghost others: seq<seq<Order>>)
      requires q != [] && q[0] == h && h !in q[1..] && aggressor !in q
      requires 0 < h.visibleQty <= h.quantity && aggressor.quantity > 0
      requires forall i :: 0 <= i < |others| ==> h !in others[i] && aggressor !in others[i]
      modifies this`trades, this`lastTradeId, listener, aggressor, h
      ensures forall i :: 0 <= i < |others| ==> Values(others[i]) == old(Values(others[i]))
      ensures var m := old(Min(aggressor.quantity, h.visibleQty));
              && Settle(Values(q)) == AfterFill(old(Values(q)), m)
              && h.quantity == old(h.quantity) - m
              && aggressor.Value() == old(aggressor.Value()).Fill(m)
              && Venue(EMPTY_BOOK, lastTradeId, trades, listener.ring.events)
                 == old(Print(Venue(EMPTY_BOOK, lastTradeId, trades, listener.ring.events),
                              aggressor.Value(), h.Value(), price, m))
    {
      ghost var c := Values(q);
      var quantityMatched := Min(aggressor.quantity, h.visibleQty);
      assert Values(q[1..]) == c[1..];
      DealBefore(aggressor, h, price, quantityMatched, q[1..], others);
      FilledSettles(q, c, quantityMatched);
    }

    /** One trade of an incoming order against the first order of the contra side, and the queue work after it. */
    method TradeTop(levels: seq<Level>, ghost side: Side, aggressor: Order, ghost others: seq<seq<Order>>)
      returns (after: seq<Level>, consumed: bool)
      requires LevelsOk(levels, side) && levels != []
      requires var h := levels[0].queue[0];
               && h !in Flat(levels)[1..] && 0 < h.visibleQty <= h.quantity && aggressor.quantity > 0
               && aggressor !in Flat(levels) && aggressor != h
               && forall i :: 0 <= i < |others| ==> h !in others[i] && aggressor !in others[i]
      modifies this`trades, this`lastTradeId, listener, aggressor, levels[0].queue[0]
      ensures LevelsOk(after, side)
      ensures forall i :: 0 <= i < |others| ==> Values(others[i]) == old(Values(others[i]))
      ensures var h, m := levels[0].queue[0], old(Min(aggressor.quantity, levels[0].queue[0].visibleQty));
              && Values(Flat(after)) == AfterFill(old(Values(Flat(levels))), m)
              && aggressor.Value() == old(aggressor.Value()).Fill(m)
              && Venue(EMPTY_BOOK, lastTradeId, trades, listener.ring.events)
                 == old(Print(Venue(EMPTY_BOOK, lastTradeId, trades, listener.ring.events),
                              aggressor.Value(), levels[0].queue[0].Value(), levels[0].price, m))
              && consumed == (m == old(h.quantity))
              && Refs(Flat(after)) == if consumed then Refs(Flat(levels)) - {h} else Refs(Flat(levels))
    {
      DealTop(levels, side, aggressor, others);
      after, consumed := SettleTop(levels, side, others + [[aggressor]]);
      assert (others + [[aggressor]])[|others|] == [aggressor] && Values([aggressor]) == [aggressor.Value()];
      assert forall i :: 0 <= i < |others| ==> (others + [[aggressor]])[i] == others[i];
    }

    /** The index stays exact when a consumed order leaves both the lists and the index. */
    lemma StillIndexed(index: map<int, Order>, held: set<Order>, h: Order, consumed: bool)
      requires forall id :: id in index ==> index[id].orderID == id && index[id] in held
      requires openOrders == if consumed then index - {h.orderID} else index
      requires Held() >= if consumed then held - {h} else held
      requires openOrders.Keys == OpenIds(Contents())
      ensures Indexed()
    {
    }

    /** The best ask trades, and leaves the index once used up. */
    method ConsumeAsk(buyOrder: Order, ghost others: seq<seq<Order>>)
      requires LevelsOk(asks, SELL) && BestAskAlone() && Apart(buyOrder) && buyOrder.quantity > 0
      requires forall i :: 0 <= i < |others| ==> asks[0].queue[0] !in others[i] && buyOrder !in others[i]
      modifies this`asks, this`openOrders, this`trades, this`lastTradeId, listener, buyOrder, asks[0].queue[0]
      ensures LevelsOk(asks, SELL)
      ensures forall i :: 0 <= i < |others| ==> Values(others[i]) == old(Values(others[i]))
      ensures var h, m := old(asks[0].queue[0]), old(Min(buyOrder.quantity, asks[0].queue[0].visibleQty));
              && Values(Flat(asks)) == AfterFill(old(Values(Flat(asks))), m)
              && buyOrder.Value() == old(buyOrder.Value()).Fill(m)
              && Venue(EMPTY_BOOK, lastTradeId, trades, listener.ring.events)
                 == old(Print(Venue(EMPTY_BOOK, lastTradeId, trades, listener.ring.events),
                              buyOrder.Value(), asks[0].queue[0].Value(), asks[0].price, m))
              && if m == old(h.quantity)
                 then openOrders == old(openOrders) - {h.orderID} && Refs(Flat(asks)) == old(Refs(Flat(asks))) - {h}
                 else openOrders == old(openOrders) && Refs(Flat(asks)) == old(Refs(Flat(asks)))
    {
      FlatHead(asks, SELL);
      var askOrder := asks[0].queue[0];
      var consumed;
      asks, consumed := TradeTop(asks, SELL, buyOrder, others);
      if consumed {
        openOrders := openOrders - {askOrder.orderID};
      }
    }

    /** One trade against the best ask. */
    method TakeBestAsk(buyOrder: Order)
      requires LevelsOk(asks, SELL) && BestAskAlone() && Apart(buyOrder) && buyOrder.side == BUY
      requires buyOrder.quantity > 0
      modifies this`asks, this`openOrders, this`trades, this`lastTradeId, listener, buyOrder, asks[0].queue[0]
      ensures Traded(old(Match(View(), buyOrder.Value())), Match(View(), buyOrder.Value()))
      ensures LevelsOk(asks, SELL)
      ensures var h := old(asks[0].queue[0]);
              if old(Min(buyOrder.quantity, h.visibleQty)) == old(h.quantity)
              then openOrders == old(openOrders) - {h.orderID} && Refs(Flat(asks)) == old(Refs(Flat(asks))) - {h}
              else openOrders == old(openOrders) && Refs(Flat(asks)) == old(Refs(Flat(asks)))
    {
      HeadValue(asks, SELL);
      ghost var others := [Flat(bids), pegBids, pegAsks];
      ConsumeAsk(buyOrder, others);
      assert others[0] == Flat(bids) && others[1] == pegBids && others[2] == pegAsks;
    }

    /** One trade against the best ask keeps the engine valid and is one step of the matcher. */
    method BuyTrade(buyOrder: Order)
      requires Valid() && Taking(buyOrder) && buyOrder.side == BUY
      requires LitReady(Match(View(), buyOrder.Value()))
      modifies this`asks, this`openOrders, this`trades, this`lastTradeId, listener, buyOrder, Refs(Flat(asks))
      ensures Valid() && Taking(buyOrder)
      ensures Match(View(), buyOrder.Value()) == LitStep(old(Match(View(), buyOrder.Value())))
      ensures Refs(Flat(asks)) <= old(Refs(Flat(asks))) && buyOrder.quantity < old(buyOrder.quantity)
    {
      HeadValue(asks, SELL);
      BestAskApart();
      TakingApart(buyOrder);
      ghost var x, h := Match(View(), buyOrder.Value()), asks[0].queue[0];
      ghost var m := Min(buyOrder.quantity, h.visibleQty);
      ghost var index, held, consumed := openOrders, Held(), m == h.quantity;
      LitStepKeeps(x);
      LitStepIds(x);
      TakeBestAsk(buyOrder);
      TradedIsLitStep(x, Match(View(), buyOrder.Value()));
      StillIndexed(index, held, h, consumed);
    }

    method MatchBuy(buyOrder: Order)
      requires Valid() && Taking(buyOrder)
      requires buyOrder.side == BUY && buyOrder.ordType == LIMIT
      modifies this`asks, this`openOrders, this`trades, this`lastTradeId, listener, buyOrder, Refs(Flat(asks))
      ensures Valid() && Taking(buyOrder)
      ensures Match(View(), buyOrder.Value()) == Sweep(old(Match(View(), buyOrder.Value())))
      ensures Refs(Flat(asks)) <= old(Refs(Flat(asks)))
    {
      ghost var start := Match(View(), buyOrder.Value());
      while buyOrder.quantity > 0 && asks != []
        invariant Valid() && Taking(buyOrder)
        invariant Sweep(Match(View(), buyOrder.Value())) == Sweep(start)
        invariant Refs(Flat(asks)) <= old(Refs(Flat(asks)))
        decreases buyOrder.quantity
      {
        HeadValue(asks, SELL);
        FlatHead(asks, SELL);
        if !Marketable(BUY, buyOrder.price, asks[0].price) {
          break;
        }
        BuyTrade(buyOrder);
      }
    }

    /** The best bid trades, and leaves the index once used up. */
    method ConsumeBid(sellOrder: Order, ghost others: seq<seq<Order>>)
      requires LevelsOk(bids, BUY) && BestBidAlone() && Apart(sellOrder) && sellOrder.quantity > 0
      requires forall i :: 0 <= i < |others| ==> bids[0].queue[0] !in others[i] && sellOrder !in others[i]
      modifies this`bids, this`openOrders, this`trades, this`lastTradeId, listener, sellOrder, bids[0].queue[0]
      ensures LevelsOk(bids, BUY)
      ensures forall i :: 0 <= i < |others| ==> Values(others[i]) == old(Values(others[i]))
      ensures var h, m := old(bids[0].queue[0]), old(Min(sellOrder.quantity, bids[0].queue[0].visibleQty));
              && Values(Flat(bids)) == AfterFill(old(Values(Flat(bids))), m)
              && sellOrder.Value() == old(sellOrder.Value()).Fill(m)
              && Venue(EMPTY_BOOK, lastTradeId, trades, listener.ring.events)
                 == old(Print(Venue(EMPTY_BOOK, lastTradeId, trades, listener.ring.events),
                              sellOrder.Value(), bids[0].queue[0].Value(), bids[0].price, m))
              && if m == old(h.quantity)
                 then openOrders == old(openOrders) - {h.orderID} && Refs(Flat(bids)) == old(Refs(Flat(bids))) - {h}
                 else openOrders == old(openOrders) && Refs(Flat(bids)) == old(Refs(Flat(bids)))
    {
      FlatHead(bids, BUY);
      var bidOrder := bids[0].queue[0];
      var consumed;
      bids, consumed := TradeTop(bids, BUY, sellOrder, others);
      if consumed {
        openOrders := openOrders - {bidOrder.orderID};
      }
    }

    /** One trade against the best bid. */
    method TakeBestBid(sellOrder: Order)
      requires LevelsOk(bids, BUY) && BestBidAlone() && Apart(sellOrder) && sellOrder.side == SELL
      requires sellOrder.quantity > 0
      modifies this`bids, this`openOrders, this`trades, this`lastTradeId, listener, sellOrder, bids[0].queue[0]
      ensures Traded(old(Match(View(), sellOrder.Value())), Match(View(), sellOrder.Value()))
      ensures LevelsOk(bids, BUY)
      ensures var h := old(bids[0].queue[0]);
              if old(Min(sellOrder.quantity, h.visibleQty)) == old(h.quantity)
              then openOrders == old(openOrders) - {h.orderID} && Refs(Flat(bids)) == old(Refs(Flat(bids))) - {h}
              else openOrders == old(openOrders) && Refs(Flat(bids)) == old(Refs(Flat(bids)))
    {
      HeadValue(bids, BUY);
      ghost var others := [Flat(asks), pegBids, pegAsks];
      ConsumeBid(sellOrder, others);
      assert others[0] == Flat(asks) && others[1] == pegBids && others[2] == pegAsks;
    }

    /** One trade against the best bid keeps the engine valid and is one step of the matcher. */
    method SellTrade(sellOrder: Order)
      requires Valid() && Taking(sellOrder) && sellOrder.side == SELL
      requires LitReady(Match(View(), sellOrder.Value()))
      modifies this`bids, this`openOrders, this`trades, this`lastTradeId, listener, sellOrder, Refs(Flat(bids))
      ensures Valid() && Taking(sellOrder)
      ensures Match(View(), sellOrder.Value()) == LitStep(old(Match(View(), sellOrder.Value())))
      ensures Refs(Flat(bids)) <= old(Refs(Flat(bids))) && sellOrder.quantity < old(sellOrder.quantity)
    {
      HeadValue(bids, BUY);
      BestBidApart();
      TakingApart(sellOrder);
      ghost var x, h := Match(View(), sellOrder.Value()), bids[0].queue[0];
      ghost var m := Min(sellOrder.quantity, h.visibleQty);
      ghost var index, held, consumed := openOrders, Held(), m == h.quantity;
      LitStepKeeps(x);
      LitStepIds(x);
      TakeBestBid(sellOrder);
      TradedIsLitStep(x, Match(View(), sellOrder.Value()));
      StillIndexed(index, held, h, consumed);
    }

    method MatchSell(sellOrder: Order)
      requires Valid() && Taking(sellOrder)
      requires sellOrder.side == SELL && sellOrder.ordType == LIMIT
      modifies this`bids, this`openOrders, this`trades, this`lastTradeId, listener, sellOrder, Refs(Flat(bids))
      ensures Valid() && Taking(sellOrder)
      ensures Match(View(), sellOrder.Value()) == Sweep(old(Match(View(), sellOrder.Value())))
      ensures Refs(Flat(bids)) <= old(Refs(Flat(bids)))
    {
      ghost var start := Match(View(), sellOrder.Value());
      while sellOrder.quantity > 0 && bids != []
        invariant Valid() && Taking(sellOrder)
        invariant Sweep(Match(View(), sellOrder.Value())) == Sweep(start)
        invariant Refs(Flat(bids)) <= old(Refs(Flat(bids)))
        decreases sellOrder.quantity
      {
        HeadValue(bids, BUY);
        FlatHead(bids, BUY);
        if !Marketable(SELL, sellOrder.price, bids[0].price) {
          break;
        }
        SellTrade(sellOrder);
      }
    }

    // ---------- Peg pools ----------

    function Pool(side: Side): seq<Order>
      reads this
    {
      if side.BUY? then pegBids else pegAsks
    }

    /** The first order of a pool can trade, and is in no other place. */
    ghost predicate PoolHeadAlone(side: Side)
      reads this, Pool(side)
    {
      && Pool(side) != []
      && var h := Pool(side)[0];
         && h !in Pool(side)[1..] && h !in Flat(bids) && h !in Flat(asks) && h !in Pool(side.Opposite())
         && 0 < h.quantity && h.side == side
    }

    lemma PoolHeadApart(side: Side)
      requires Structured() && Pool(side) != []
      ensures PoolHeadAlone(side)
    {
      var h, c := Pool(side)[0], Contents().Peg(side);
      HeadIds(c);
      assert Member(c[0], side, PEG_MID);
      NotListed(Flat(bids), h);
      NotListed(Flat(asks), h);
      NotListed(Pool(side.Opposite()), h);
      assert Values(Pool(side)[1..]) == c[1..];
      NotListed(Pool(side)[1..], h);
    }

    /** One trade of an order against the first order of a pool. */
    method TradePoolHead(pool: seq<Order>, aggressor: Order, mid: int, ghost others: seq<seq<Order>>)
      returns (after: seq<Order>, consumed: bool)
      requires pool != [] && pool[0] !in pool[1..] && aggressor !in pool
      requires 0 < pool[0].quantity && 0 < aggressor.quantity
      requires forall i :: 0 <= i < |others| ==> pool[0] !in others[i] && aggressor !in others[i]
      modifies this`trades, this`lastTradeId, listener, aggressor, pool[0]
      ensures forall i :: 0 <= i < |others| ==> Values(others[i]) == old(Values(others[i]))
      ensures var m := old(Min(aggressor.quantity, pool[0].quantity));
              && Values(after) == AfterPoolFill(old(Values(pool)), m)
              && aggressor.Value() == old(aggressor.Value()).Fill(m)
              && Venue(EMPTY_BOOK, lastTradeId, trades, listener.ring.events)
                 == old(Print(Venue(EMPTY_BOOK, lastTradeId, trades, listener.ring.events),
                              aggressor.Value(), pool[0].Value(), mid, m))
              && consumed == (m == old(pool[0].quantity))
              && after == if consumed then pool[1..] else pool
    {
      var resting := pool[0];
      ghost var c, tail := Values(pool), pool[1..];
      assert pool == [resting] + tail;
      assert Values(tail) == c[1..];
      var quantityMatched := Min(aggressor.quantity, resting.quantity);
      DealBefore(aggressor, resting, mid, quantityMatched, tail, others);
      HeadFilled(pool, c, quantityMatched);
      after, consumed := pool, false;
      if resting.quantity == 0 {
        after, consumed := pool[1..], true;
      }
    }

    /** One trade of an incoming order against the first order of the opposite pool. */
    method TakePoolHead(aggressor: Order, mid: int)
      requires PoolHeadAlone(aggressor.side.Opposite()) && Apart(aggressor) && aggressor.quantity > 0
      modifies this`pegBids, this`pegAsks, this`openOrders, this`trades, this`lastTradeId, listener, aggressor,
               Pool(aggressor.side.Opposite())[0]
      ensures Pool(aggressor.side) == old(Pool(aggressor.side))
      ensures Values(Pool(aggressor.side)) == old(Values(Pool(aggressor.side)))
      ensures Values(Flat(bids)) == old(Values(Flat(bids))) && Values(Flat(asks)) == old(Values(Flat(asks)))
      ensures var side := aggressor.side.Opposite();
              var m := old(Min(aggressor.quantity, Pool(side)[0].quantity));
              && Values(Pool(side)) == AfterPoolFill(old(Values(Pool(side))), m)
              && aggressor.Value() == old(aggressor.Value()).Fill(m)
              && Venue(EMPTY_BOOK, lastTradeId, trades, listener.ring.events)
                 == old(Print(Venue(EMPTY_BOOK, lastTradeId, trades, listener.ring.events),
                              aggressor.Value(), Pool(side)[0].Value(), mid, m))
              && if m == old(Pool(side)[0].quantity)
                 then openOrders == old(openOrders) - {old(Pool(side)[0]).orderID} && Pool(side) == old(Pool(side))[1..]
                 else openOrders == old(openOrders) && Pool(side) == old(Pool(side))
    {
      var side := aggressor.side.Opposite();
      var restingID := Pool(side)[0].orderID;
      ghost var others := [Flat(bids), Flat(asks), Pool(aggressor.side)];
      var after, consumed := TradePoolHead(Pool(side), aggressor, mid, others);
      assert others[0] == Flat(bids) && others[1] == Flat(asks) && others[2] == Pool(aggressor.side);
      if consumed {
        LeavePool(side, after, restingID, others);
      } else {
        assert after == Pool(side);
      }
    }

    /** The pool without an order used up, and the index without its key. */
    method LeavePool(side: Side, after: seq<Order>, id: int, ghost others: seq<seq<Order>>)
      modifies this`pegBids, this`pegAsks, this`openOrders
      ensures Pool(side) == after && Pool(side.Opposite()) == old(Pool(side.Opposite()))
      ensures openOrders == old(openOrders) - {id} && Values(after) == old(Values(after))
      ensures forall i :: 0 <= i < |others| ==> Values(others[i]) == old(Values(others[i]))
    {
      ghost var vs := Values(after);
      if side == BUY {
        pegBids := after;
      } else {
        pegAsks := after;
      }
      openOrders := openOrders - {id};
      ValuesAre(after, vs);
      forall i | 0 <= i < |others|
        ensures Values(others[i]) == old(Values(others[i]))
      {
        ValuesAre(others[i], old(Values(others[i])));
      }
    }

    lemma PoolValues(side: Side)
      ensures Contents().Peg(side) == Values(Pool(side))
    {
    }

    lemma StillIndexedInPool(side: Side, index: map<int, Order>, held: set<Order>, pool: seq<Order>, consumed: bool)
      requires forall id :: id in index ==> index[id].orderID == id && index[id] in held
      requires pool != []
      requires openOrders == if consumed then index - {pool[0].orderID} else index
      requires held == Refs(Flat(bids)) + Refs(Flat(asks)) + Refs(pool) + Refs(Pool(side.Opposite()))
      requires Pool(side) == if consumed then pool[1..] else pool
      requires openOrders.Keys == OpenIds(Contents())
      ensures Indexed()
    {
      TailRefs(pool);
    }

    /** What one step of the pool sweep takes from the pool and the index. */
    ghost predicate PoolParted(x: Match, index: map<int, Order>, pool: seq<Order>)
      reads this
    {
      var c := x.v.book.Peg(x.a.side.Opposite());
      && c != [] && pool != [] && pool[0].orderID == c[0].id
      && var consumed := Min(x.a.qty, c[0].qty) == c[0].qty;
         && openOrders == (if consumed then index - {pool[0].orderID} else index)
         && Pool(x.a.side.Opposite()) == if consumed then pool[1..] else pool
    }

    /** The same, as the matcher sees it. */
    method TakeAsMatched(aggressor: Order, mid: int)
      requires PoolHeadAlone(aggressor.side.Opposite()) && Apart(aggressor) && aggressor.quantity > 0
      modifies this`pegBids, this`pegAsks, this`openOrders, this`trades, this`lastTradeId, listener, aggressor,
               Pool(aggressor.side.Opposite())[0]
      ensures PoolTraded(old(Match(View(), aggressor.Value())), Match(View(), aggressor.Value()), mid)
      ensures Pool(aggressor.side) == old(Pool(aggressor.side))
      ensures PoolParted(old(Match(View(), aggressor.Value())), old(openOrders), old(Pool(aggressor.side.Opposite())))
    {
      PoolValues(aggressor.side.Opposite());
      PoolValues(aggressor.side);
      TakePoolHead(aggressor, mid);
      PoolValues(aggressor.side.Opposite());
      PoolValues(aggressor.side);
    }

    /** One trade against the opposite pool keeps the engine valid and is one step of the matcher. */
    method PegTrade(aggressor: Order, mid: int)
      requires Valid() && Taking(aggressor)
      requires PoolReady(Match(View(), aggressor.Value()))
      modifies this`pegBids, this`pegAsks, this`openOrders, this`trades, this`lastTradeId, listener, aggressor,
               Refs(Pool(aggressor.side.Opposite()))
      ensures Valid() && Taking(aggressor)
      ensures Match(View(), aggressor.Value()) == PoolStep(old(Match(View(), aggressor.Value())), mid)
      ensures Refs(Pool(aggressor.side.Opposite())) <= old(Refs(Pool(aggressor.side.Opposite())))
      ensures Pool(aggressor.side) == old(Pool(aggressor.side))
    {
      ghost var side := aggressor.side.Opposite();
      PoolHeadApart(side);
      TakingApart(aggressor);
      ghost var x, pool := Match(View(), aggressor.Value()), Pool(side);
      ghost var index, held := openOrders, Held();
      TailRefs(pool);
      TakeAsMatched(aggressor, mid);
      PoolTradedIsPoolStep(x, Match(View(), aggressor.Value()), mid);
      StillValidInPool(x, mid, index, held, pool);
    }

    /** One step of the pool sweep keeps a valid engine valid. */
    lemma StillValidInPool(x: Match, mid: int, index: map<int, Order>, held: set<Order>, pool: seq<Order>)
      requires PoolReady(x) && BookOk(x.v.book) && Live(x.a) && View() == PoolStep(x, mid).v
      requires LevelsOk(bids, BUY) && LevelsOk(asks, SELL) && index.Keys == OpenIds(x.v.book) && pool != []
      requires forall id :: id in index ==> index[id].orderID == id && index[id] in held
      requires held == Refs(Flat(bids)) + Refs(Flat(asks)) + Refs(pool) + Refs(Pool(x.a.side))
      requires PoolParted(x, index, pool)
      ensures Valid() && Live(PoolStep(x, mid).a)
    {
      var side, c := x.a.side.Opposite(), x.v.book.Peg(x.a.side.Opposite());
      PoolStepKeeps(x, mid);
      PoolStepIds(x, mid);
      StillIndexedInPool(side, index, held, pool, Min(x.a.qty, c[0].qty) == c[0].qty);
    }

    method MatchPegPool(aggressor: Order, mid: int)
      requires Valid() && Taking(aggressor)
      modifies this`pegBids, this`pegAsks, this`openOrders, this`trades, this`lastTradeId, listener, aggressor,
               Refs(Pool(aggressor.side.Opposite()))
      ensures Valid() && Taking(aggressor)
      ensures Match(View(), aggressor.Value()) == PoolSweep(old(Match(View(), aggressor.Value())), mid)
      ensures Refs(Pool(aggressor.side.Opposite())) <= old(Refs(Pool(aggressor.side.Opposite())))
      ensures Pool(aggressor.side) == old(Pool(aggressor.side))
    {
      ghost var start := Match(View(), aggressor.Value());
      while aggressor.quantity > 0 && Pool(aggressor.side.Opposite()) != []
        invariant Valid() && Taking(aggressor)
        invariant PoolSweep(Match(View(), aggressor.Value()), mid) == PoolSweep(start, mid)
        invariant Refs(Pool(aggressor.side.Opposite())) <= old(Refs(Pool(aggressor.side.Opposite())))
        invariant Pool(aggressor.side) == old(Pool(aggressor.side))
        decreases |Pool(aggressor.side.Opposite())|, aggressor.quantity
      {
        PegTrade(aggressor, mid);
      }
    }

    /** The same, with what it leaves of the orders held. */
    method TakePool(order: Order, mid: int)
      requires Valid() && Taking(order)
      modifies this`pegBids, this`pegAsks, this`openOrders, this`trades, this`lastTradeId, listener, order,
               Refs(Pool(order.side.Opposite()))
      ensures Valid() && Taking(order) && Held() <= old(Held())
      ensures Match(View(), order.Value()) == PoolSweep(old(Match(View(), order.Value())), mid)
      ensures Refs(pegBids) <= old(Refs(pegBids)) && Refs(pegAsks) <= old(Refs(pegAsks))
    {
      MatchPegPool(order, mid);
    }

    // ---------- Pool cross ----------

    /** The index stays exact when consumed orders leave both the lists and the index. */
    lemma StillIndexedWithout(index: map<int, Order>, held: set<Order>, a: Order, aGone: bool, b: Order, bGone: bool)
      requires forall id :: id in index ==> index[id].orderID == id && index[id] in held
      requires openOrders == index - (if aGone then {a.orderID} else {}) - (if bGone then {b.orderID} else {})
      requires Held() >= held - (if aGone then {a} else {}) - (if bGone then {b} else {})
      requires openOrders.Keys == OpenIds(Contents())
      ensures Indexed()
    {
    }

    /** Two pegs trade at the midpoint, the later arrival as aggressor. */
    method DealPegs(bid: Order, ask: Order, mid: int, quantityMatched: int, ghost others: seq<seq<Order>>)
      requires bid != ask && 0 < quantityMatched <= bid.quantity && quantityMatched <= ask.quantity
      requires forall i :: 0 <= i < |others| ==> bid !in others[i] && ask !in others[i]
      modifies this`trades, this`lastTradeId, listener, bid, ask
      ensures forall i :: 0 <= i < |others| ==> Values(others[i]) == old(Values(others[i]))
      ensures bid.Value() == old(bid.Value()).Fill(quantityMatched)
      ensures ask.Value() == old(ask.Value()).Fill(quantityMatched)
      ensures Venue(EMPTY_BOOK, lastTradeId, trades, listener.ring.events)
              == old(var v := Venue(EMPTY_BOOK, lastTradeId, trades, listener.ring.events);
                     if IsLater(bid.Value(), ask.Value()) then Print(v, bid.Value(), ask.Value(), mid, quantityMatched)
                     else Print(v, ask.Value(), bid.Value(), mid, quantityMatched))
    {
      var bidLater :=
        if bid.timeStamp != ask.timeStamp then bid.timeStamp > ask.timeStamp else bid.orderID > ask.orderID;
      if bidLater {
        Deal(bid, ask, mid, quantityMatched, others);
      } else {
        Deal(ask, bid, mid, quantityMatched, others);
      }
    }

    /** The heads of two pools trade; what is left of the pools. */
    method TradeHeads(bidPool: seq<Order>, askPool: seq<Order>, mid: int, ghost others: seq<seq<Order>>)
      returns (bidAfter: seq<Order>, askAfter: seq<Order>)
      requires bidPool != [] && bidPool[0] !in bidPool[1..] && bidPool[0] !in askPool && 0 < bidPool[0].quantity
      requires askPool != [] && askPool[0] !in askPool[1..] && askPool[0] !in bidPool && 0 < askPool[0].quantity
      requires forall i :: 0 <= i < |others| ==> bidPool[0] !in others[i] && askPool[0] !in others[i]
      modifies this`trades, this`lastTradeId, listener, bidPool[0], askPool[0]
      ensures forall i :: 0 <= i < |others| ==> Values(others[i]) == old(Values(others[i]))
      ensures var bid, ask := bidPool[0], askPool[0];
              var m := old(Min(bidPool[0].quantity, askPool[0].quantity));
              && Values(bidAfter) == AfterPoolFill(old(Values(bidPool)), m)
              && Values(askAfter) == AfterPoolFill(old(Values(askPool)), m)
              && bidAfter == (if m == old(bid.quantity) then bidPool[1..] else bidPool)
              && askAfter == (if m == old(ask.quantity) then askPool[1..] else askPool)
              && Venue(EMPTY_BOOK, lastTradeId, trades, listener.ring.events)
                 == old(var v := Venue(EMPTY_BOOK, lastTradeId, trades, listener.ring.events);
                        if IsLater(bid.Value(), ask.Value()) then Print(v, bid.Value(), ask.Value(), mid, m)
                        else Print(v, ask.Value(), bid.Value(), mid, m))
    {
      var bid, ask := bidPool[0], askPool[0];
      ghost var b, a, bidTail, askTail := Values(bidPool), Values(askPool), bidPool[1..], askPool[1..];
      assert bidPool == [bid] + bidTail && askPool == [ask] + askTail;
      assert Values(bidTail) == b[1..] && Values(askTail) == a[1..];
      ghost var all := [bidTail, askTail] + others;
      assert all[0] == bidTail && all[1] == askTail && forall i :: 0 <= i < |others| ==> others[i] == all[i + 2];
      var quantityMatched := Min(bid.quantity, ask.quantity);
      DealPegs(bid, ask, mid, quantityMatched, all);
      HeadFilled(bidPool, b, quantityMatched);
      HeadFilled(askPool, a, quantityMatched);
      bidAfter := if bid.quantity == 0 then bidPool[1..] else bidPool;
      askAfter := if ask.quantity == 0 then askPool[1..] else askPool;
    }

    /** One trade between the heads of the pools; whichever is used up leaves its pool and the index. */
    method CrossHeads(mid: int, ghost others: seq<seq<Order>>)
      requires pegBids != [] && pegBids[0] !in pegBids[1..] && pegBids[0] !in pegAsks && 0 < pegBids[0].quantity
      requires pegAsks != [] && pegAsks[0] !in pegAsks[1..] && pegAsks[0] !in pegBids && 0 < pegAsks[0].quantity
      requires forall i :: 0 <= i < |others| ==> pegBids[0] !in others[i] && pegAsks[0] !in others[i]
      modifies this`pegBids, this`pegAsks, this`openOrders, this`trades, this`lastTradeId, listener
      modifies pegBids[0], pegAsks[0]
      ensures forall i :: 0 <= i < |others| ==> Values(others[i]) == old(Values(others[i]))
      ensures var bid, ask := old(pegBids[0]), old(pegAsks[0]);
              var m := old(Min(pegBids[0].quantity, pegAsks[0].quantity));
              var bidGone, askGone := m == old(bid.quantity), m == old(ask.quantity);
              && Values(pegBids) == AfterPoolFill(old(Values(pegBids)), m)
              && Values(pegAsks) == AfterPoolFill(old(Values(pegAsks)), m)
              && pegBids == (if bidGone then old(pegBids)[1..] else old(pegBids))
              && pegAsks == (if askGone then old(pegAsks)[1..] else old(pegAsks))
              && openOrders == old(openOrders) - (if bidGone then {bid.orderID} else {})
                                               - (if askGone then {ask.orderID} else {})
              && Venue(EMPTY_BOOK, lastTradeId, trades, listener.ring.events)
                 == old(var v := Venue(EMPTY_BOOK, lastTradeId, trades, listener.ring.events);
                        if IsLater(bid.Value(), ask.Value()) then Print(v, bid.Value(), ask.Value(), mid, m)
                        else Print(v, ask.Value(), bid.Value(), mid, m))
    {
      var bid, ask := pegBids[0], pegAsks[0];
      var bidAfter, askAfter := TradeHeads(pegBids, pegAsks, mid, others);
      var bidGone := if |bidAfter| < |pegBids| then {bid.orderID} else {};
      var askGone := if |askAfter| < |pegAsks| then {ask.orderID} else {};
      ReplacePools(bidAfter, askAfter, bidGone, askGone, others);
    }

    /** The pools after a trade of the cross, and the index without the keys of the pegs used up. */
    method ReplacePools(bidAfter: seq<Order>, askAfter: seq<Order>, bidGone: set<int>, askGone: set<int>,
                        ghost others: seq<seq<Order>>)
      modifies this`pegBids, this`pegAsks, this`openOrders
      ensures pegBids == bidAfter && pegAsks == askAfter && openOrders == old(openOrders) - bidGone - askGone
      ensures Values(bidAfter) == old(Values(bidAfter)) && Values(askAfter) == old(Values(askAfter))
      ensures forall i :: 0 <= i < |others| ==> Values(others[i]) == old(Values(others[i]))
    {
      ghost var b, a := Values(bidAfter), Values(askAfter);
      openOrders := openOrders - bidGone - askGone;
      pegBids, pegAsks := bidAfter, askAfter;
      ValuesAre(bidAfter, b);
      ValuesAre(askAfter, a);
      forall i | 0 <= i < |others|
        ensures Values(others[i]) == old(Values(others[i]))
      {
        ValuesAre(others[i], old(Values(others[i])));
      }
    }

    /** One trade between the pool heads, seen on the whole engine. */
    method CrossPair(mid: int)
      requires PoolHeadAlone(BUY) && PoolHeadAlone(SELL)
      modifies this`pegBids, this`pegAsks, this`openOrders, this`trades, this`lastTradeId, listener
      modifies pegBids[0], pegAsks[0]
      ensures Crossed(old(View()), View(), mid)
      ensures var bid, ask := old(pegBids[0]), old(pegAsks[0]);
              var m := old(Min(pegBids[0].quantity, pegAsks[0].quantity));
              var bidGone, askGone := m == old(bid.quantity), m == old(ask.quantity);
              && pegBids == (if bidGone then old(pegBids)[1..] else old(pegBids))
              && pegAsks == (if askGone then old(pegAsks)[1..] else old(pegAsks))
              && openOrders == old(openOrders) - (if bidGone then {bid.orderID} else {})
                                               - (if askGone then {ask.orderID} else {})
    {
      ghost var others := [Flat(bids), Flat(asks)];
      CrossHeads(mid, others);
      assert others[0] == Flat(bids) && others[1] == Flat(asks);
    }

    /** All a pool cross relies on: sound pools, apart from the lit book. */
    ghost predicate Crossable()
      reads this, pegBids, pegAsks
    {
      && LevelsOk(bids, BUY) && LevelsOk(asks, SELL)
      && PoolOk(Values(pegBids), BUY) && PoolOk(Values(pegAsks), SELL) && Ids(Values(pegBids)) !! Ids(Values(pegAsks))
      && Refs(pegBids) + Refs(pegAsks) !! LitHeld()
    }

    lemma StructuredCrossable()
      requires Structured()
      ensures Crossable()
    {
      forall o | o in pegBids || o in pegAsks
        ensures o !in Flat(bids) && o !in Flat(asks)
      {
        if o in pegBids {
          NotListedBeside(Flat(bids), pegBids, o);
          NotListedBeside(Flat(asks), pegBids, o);
        } else {
          NotListedBeside(Flat(bids), pegAsks, o);
          NotListedBeside(Flat(asks), pegAsks, o);
        }
      }
    }

    lemma CrossableBeside(order: Order, lit: set<Order>, buys: seq<OrderValue>, sells: seq<OrderValue>)
      requires PoolOk(buys, BUY) && PoolOk(sells, SELL) && Ids(buys) !! Ids(sells)
      requires Values(pegBids) == buys && Values(pegAsks) == sells
      requires LevelsOk(bids, BUY) && LevelsOk(asks, SELL)
      requires Refs(pegBids) + Refs(pegAsks) !! lit && order !in pegBids && order !in pegAsks
      requires LitHeld() == lit + {order}
      ensures Crossable()
    {
    }

    lemma CrossableHead(side: Side)
      requires Crossable() && Pool(side) != []
      ensures PoolHeadAlone(side)
    {
      var h, c := Pool(side)[0], Values(Pool(side));
      HeadIds(c);
      assert Member(c[0], side, PEG_MID);
      assert h in Refs(Pool(side));
      NotListed(Pool(side.Opposite()), h);
      assert Values(Pool(side)[1..]) == c[1..];
      NotListed(Pool(side)[1..], h);
    }

    /** One trade between the pool heads. */
    method CrossTrade(mid: int)
      requires Crossable() && pegBids != [] && pegAsks != []
      modifies this`pegBids, this`pegAsks, this`openOrders, this`trades, this`lastTradeId, listener,
               Refs(pegBids), Refs(pegAsks)
      ensures Crossable() && View() == CrossStep(old(View()), mid)
      ensures Refs(pegBids) <= old(Refs(pegBids)) && Refs(pegAsks) <= old(Refs(pegAsks))
      ensures |pegBids| + |pegAsks| < old(|pegBids| + |pegAsks|)
      ensures Parted(old(View()), old(openOrders), old(Held()), old(pegBids[0]), old(pegAsks[0]))
    {
      CrossableHead(BUY);
      CrossableHead(SELL);
      ghost var v := View();
      CrossStepPools(v, mid);
      TailRefs(pegBids);
      TailRefs(pegAsks);
      CrossPair(mid);
      CrossedIsCrossStep(v, View(), mid);
    }

    /** What one trade of the cross takes from the index, and from the orders held. */
    ghost predicate Parted(v: Venue, index: map<int, Order>, held: set<Order>, bid: Order, ask: Order)
      reads this
    {
      && v.book.pegBids != [] && v.book.pegAsks != []
      && var m := Min(v.book.pegBids[0].qty, v.book.pegAsks[0].qty);
         var bidGone, askGone := m == v.book.pegBids[0].qty, m == v.book.pegAsks[0].qty;
         && openOrders == index - (if bidGone then {bid.orderID} else {}) - (if askGone then {ask.orderID} else {})
         && Held() >= held - (if bidGone then {bid} else {}) - (if askGone then {ask} else {})
         && bid.orderID == v.book.pegBids[0].id && ask.orderID == v.book.pegAsks[0].id
    }

    /** One trade of the cross keeps a sound engine sound. */
    lemma StillStructured(v: Venue, mid: int, index: map<int, Order>, held: set<Order>, bid: Order, ask: Order)
      requires Shape(v.book) && Uncrossed(v.book) && index.Keys == OpenIds(v.book)
      requires forall id :: id in index ==> index[id].orderID == id && index[id] in held
      requires LevelsOk(bids, BUY) && LevelsOk(asks, SELL)
      requires Parted(v, index, held, bid, ask) && View() == CrossStep(v, mid)
      ensures Structured()
    {
      CrossStepKeeps(v, mid);
      CrossStepIds(v, mid);
      var m := Min(v.book.pegBids[0].qty, v.book.pegAsks[0].qty);
      StillIndexedWithout(index, held, bid, m == v.book.pegBids[0].qty, ask, m == v.book.pegAsks[0].qty);
    }

    /** One trade of the cross, and the keys it takes out. */
    method CrossKeyed(mid: int)
      requires Crossable() && pegBids != [] && pegAsks != []
      modifies this`pegBids, this`pegAsks, this`openOrders, this`trades, this`lastTradeId, listener,
               Refs(pegBids), Refs(pegAsks)
      ensures Crossable() && View() == CrossStep(old(View()), mid)
      ensures Refs(pegBids) <= old(Refs(pegBids)) && Refs(pegAsks) <= old(Refs(pegAsks))
      ensures |pegBids| + |pegAsks| < old(|pegBids| + |pegAsks|)
      ensures PegIds(Contents()) <= old(PegIds(Contents()))
      ensures openOrders.Keys == old(openOrders.Keys) - (old(PegIds(Contents())) - PegIds(Contents()))
      ensures Parted(old(View()), old(openOrders), old(Held()), old(pegBids[0]), old(pegAsks[0]))
    {
      CrossKeys(View(), mid);
      CrossTrade(mid);
    }

    /** One trade of the cross takes exactly the consumed pegs' keys out, and keeps a sound engine sound. */
    method CrossOnce(mid: int)
      requires Crossable() && pegBids != [] && pegAsks != []
      modifies this`pegBids, this`pegAsks, this`openOrders, this`trades, this`lastTradeId, listener,
               Refs(pegBids), Refs(pegAsks)
      ensures Crossable() && View() == CrossStep(old(View()), mid)
      ensures Refs(pegBids) <= old(Refs(pegBids)) && Refs(pegAsks) <= old(Refs(pegAsks))
      ensures |pegBids| + |pegAsks| < old(|pegBids| + |pegAsks|)
      ensures PegIds(Contents()) <= old(PegIds(Contents()))
      ensures openOrders.Keys == old(openOrders.Keys) - (old(PegIds(Contents())) - PegIds(Contents()))
      ensures old(Structured()) ==> Structured()
    {
      ghost var v, index, held, whole, bid, ask := View(), openOrders, Held(), Structured(), pegBids[0], pegAsks[0];
      CrossKeyed(mid);
      if whole {
        StillStructured(v, mid, index, held, bid, ask);
      }
    }

    /** Head against head until a pool is empty. */
    method CrossAll(mid: int)
      requires Crossable()
      modifies this`pegBids, this`pegAsks, this`openOrders, this`trades, this`lastTradeId, listener,
               Refs(pegBids), Refs(pegAsks)
      ensures Crossable() && View() == CrossLoop(old(View()), mid)
      ensures Refs(pegBids) <= old(Refs(pegBids)) && Refs(pegAsks) <= old(Refs(pegAsks))
      ensures openOrders.Keys == old(openOrders.Keys) - (old(PegIds(Contents())) - PegIds(Contents()))
      ensures old(Structured()) ==> Structured()
    {
      ghost var start, ids, keys, whole := View(), PegIds(Contents()), openOrders.Keys, Structured();
      while pegBids != [] && pegAsks != []
        invariant Crossable() && CrossLoop(View(), mid) == CrossLoop(start, mid)
        invariant whole ==> Structured()
        invariant KeysLeft(keys, ids)
        invariant Refs(pegBids) <= old(Refs(pegBids)) && Refs(pegAsks) <= old(Refs(pegAsks))
        decreases |pegBids| + |pegAsks|
      {
        CrossMore(mid, keys, ids);
      }
    }

    /** Of the keys, those of the pegs that left are gone. */
    ghost predicate KeysLeft(keys: set<int>, ids: set<int>)
      reads this, pegBids, pegAsks
    {
      var now := Ids(Values(pegBids)) + Ids(Values(pegAsks));
      now <= ids && openOrders.Keys == keys - (ids - now)
    }

    method CrossMore(mid: int, ghost keys: set<int>, ghost ids: set<int>)
      requires Crossable() && pegBids != [] && pegAsks != [] && KeysLeft(keys, ids)
      modifies this`pegBids, this`pegAsks, this`openOrders, this`trades, this`lastTradeId, listener,
               Refs(pegBids), Refs(pegAsks)
      ensures Crossable() && CrossLoop(View(), mid) == old(CrossLoop(View(), mid)) && KeysLeft(keys, ids)
      ensures Refs(pegBids) <= old(Refs(pegBids)) && Refs(pegAsks) <= old(Refs(pegAsks))
      ensures |pegBids| + |pegAsks| < old(|pegBids| + |pegAsks|)
      ensures old(Structured()) ==> Structured()
    {
      CrossOnce(mid);
    }

    method CrossPegPools()
      requires Crossable()
      modifies this`pegBids, this`pegAsks, this`openOrders, this`trades, this`lastTradeId, listener,
               Refs(pegBids), Refs(pegAsks)
      ensures View() == CrossPools(old(View())) && Held() <= old(Held())
      ensures LevelsOk(bids, BUY) && LevelsOk(asks, SELL)
      ensures openOrders.Keys == old(openOrders.Keys) - (old(PegIds(Contents())) - PegIds(Contents()))
      ensures old(Structured()) ==> Valid()
    {
      TopsAgree();
      var mid := Mid();
      if mid == NA {
        return;
      }
      ghost var whole := Structured();
      CrossAll(mid);
      if whole {
        CrossLoopKeeps(old(View()), mid);
      }
    }

    function GetBestBid(): int
      reads this
    {
      if bids == [] then NA else bids[0].price
    }

    function GetBestAsk(): int
      reads this
    {
      if asks == [] then NA else asks[0].price
    }

    /** The lit midpoint, or NA while a lit side is empty. */
    function Mid(): int
      reads this
    {
      if GetBestBid() == NA || GetBestAsk() == NA then NA else TruncDiv(WrapLong(GetBestBid() + GetBestAsk()), 2)
    }

    /** The tops of the level maps are the prices of the first orders. */
    lemma TopsAgree()
      requires LevelsOk(bids, BUY) && LevelsOk(asks, SELL)
      ensures GetBestBid() == Contents().Best(BUY) && GetBestAsk() == Contents().Best(SELL)
      ensures Mid() == Contents().Mid()
    {
      FlatHead(bids, BUY);
      FlatHead(asks, SELL);
    }

    // ---------- Resting ----------

    lemma OneMoreIndexed(index: map<int, Order>, held: set<Order>, o: Order)
      requires forall id :: id in index ==> index[id].orderID == id && index[id] in held
      requires openOrders == index[o.orderID := o]
      requires Held() >= held + {o}
      requires openOrders.Keys == OpenIds(Contents())
      ensures Indexed()
    {
    }

    /** Report without touching any order. */
    method Acknowledge(orderId: int, price: int, remaining: int, ghost others: seq<seq<Order>>)
      modifies listener
      ensures listener.ring.events == old(listener.ring.events) + [AcceptedExec(orderId, price, remaining)]
      ensures forall i :: 0 <= i < |others| ==> Values(others[i]) == old(Values(others[i]))
    {
      listener.OnAccepted(orderId, price, remaining);
    }

    method QueuePeg(order: Order)
      modifies this`pegBids, this`pegAsks, this`openOrders, listener
      ensures Pool(order.side) == old(Pool(order.side)) + [order]
      ensures Pool(order.side.Opposite()) == old(Pool(order.side.Opposite()))
      ensures Contents() == old(Contents().WithPeg(order.side, Contents().Peg(order.side) + [order.Value()]))
      ensures order.Value() == old(order.Value())
      ensures listener.ring.events
              == old(listener.ring.events) + [AcceptedExec(order.orderID, order.price, order.quantity)]
      ensures openOrders == old(openOrders)[order.orderID := order]
    {
      JoinPool(order);
      ghost var others := [Flat(bids), Flat(asks), pegBids, pegAsks, [order]];
      Acknowledge(order.orderID, order.price, order.quantity, others);
      assert others[0] == Flat(bids) && others[1] == Flat(asks) && others[2] == pegBids && others[3] == pegAsks;
      assert others[4] == [order] && Values([order]) == [order.Value()];
    }

    method JoinPool(order: Order)
      modifies this`pegBids, this`pegAsks, this`openOrders
      ensures Pool(order.side) == old(Pool(order.side)) + [order]
      ensures Pool(order.side.Opposite()) == old(Pool(order.side.Opposite()))
      ensures Contents() == old(Contents().WithPeg(order.side, Contents().Peg(order.side) + [order.Value()]))
      ensures openOrders == old(openOrders)[order.orderID := order]
    {
      ValuesConcat(Pool(order.side), [order]);
      assert Values([order]) == [order.Value()];
      if order.side == BUY {
        pegBids := pegBids + [order];
      } else {
        pegAsks := pegAsks + [order];
      }
      openOrders := openOrders[order.orderID := order];
    }

    /** A peg rests, as the matcher sees it. */
    method RestQueued(order: Order)
      requires order.ordType == PEG_MID
      modifies this`pegBids, this`pegAsks, this`openOrders, listener
      ensures Match(View(), order.Value()) == Rest(old(Match(View(), order.Value())))
      ensures Held() == old(Held()) + {order} && openOrders == old(openOrders)[order.orderID := order]
    {
      AddedRef(Pool(order.side), order);
      QueuePeg(order);
    }

    /** A peg comes to rest. Only where its id was open already does that break the index. */
    method RestPeg(order: Order)
      requires Valid() && Taking(order) && order.quantity > 0
      requires order.tif == GTC && order.ordType == PEG_MID
      requires Contents().Mid() != NA ==> !PoolReady(Match(View(), order.Value()))
      modifies this`pegBids, this`pegAsks, this`openOrders, listener
      ensures Match(View(), order.Value()) == Rest(old(Match(View(), order.Value())))
      ensures Held() == old(Held()) + {order} && openOrders.Keys == old(openOrders.Keys) + {order.orderID}
      ensures order.orderID !in OpenIds(old(Contents())) ==> Valid()
    {
      ghost var x, index, held := Match(View(), order.Value()), openOrders, Held();
      RestQueued(order);
      if order.orderID !in OpenIds(x.v.book) {
        PegRested(x, index, held, order);
      }
    }

    lemma PegRested(x: Match, index: map<int, Order>, held: set<Order>, order: Order)
      requires BookOk(x.v.book) && Incoming(x.a, x.v.book) && x.a.qty > 0 && x.a.tif == GTC && x.a.ordType == PEG_MID
      requires x.v.book.Mid() != NA ==> !PoolReady(x)
      requires index.Keys == OpenIds(x.v.book)
      requires forall id :: id in index ==> index[id].orderID == id && index[id] in held
      requires Match(View(), order.Value()) == Rest(x) && order.orderID == x.a.id
      requires LevelsOk(bids, BUY) && LevelsOk(asks, SELL)
      requires openOrders == index[order.orderID := order] && Held() >= held + {order}
      ensures Valid()
    {
      RestKeeps(x);
      OneMoreIndexed(index, held, order);
    }

    /** Rest an order at its price and index it. */
    method AddToBook(order: Order, ghost others: seq<seq<Order>>)
      requires LevelsOk(bids, BUY) && LevelsOk(asks, SELL)
      requires order !in Flat(bids) && order !in Flat(asks)
      requires forall i :: 0 <= i < |others| ==> order !in others[i]
      modifies this`bids, this`asks, this`openOrders, order
      ensures LevelsOk(bids, BUY) && LevelsOk(asks, SELL)
      ensures order.Value() == old(order.Value()).Refresh()
      ensures var l := old(Values(Flat(LevelsOf(order.side))));
              && Values(Flat(LevelsOf(order.side))) == Insert(l, order.Value())
              && Refs(Flat(LevelsOf(order.side))) == old(Refs(Flat(LevelsOf(order.side)))) + {order}
      ensures LevelsOf(order.side.Opposite()) == old(LevelsOf(order.side.Opposite()))
      ensures forall i :: 0 <= i < |others| ==> Values(others[i]) == old(Values(others[i]))
      ensures openOrders == old(openOrders)[order.orderID := order]
    {
      ghost var q := Flat(LevelsOf(order.side));
      ghost var l := Values(q);
      order.RefreshDisplay();
      ValuesAre(q, l);
      forall i | 0 <= i < |others|
        ensures Values(others[i]) == old(Values(others[i]))
      {
        ValuesAre(others[i], old(Values(others[i])));
      }
      JoinLevel(order, others);
    }

    /** Queue an order behind the others at its price and index it. */
    method JoinLevel(order: Order, ghost others: seq<seq<Order>>)
      requires LevelsOk(bids, BUY) && LevelsOk(asks, SELL)
      modifies this`bids, this`asks, this`openOrders
      ensures LevelsOk(bids, BUY) && LevelsOk(asks, SELL)
      ensures var l := old(Values(Flat(LevelsOf(order.side))));
              && Values(Flat(LevelsOf(order.side))) == Insert(l, order.Value())
              && Refs(Flat(LevelsOf(order.side))) == old(Refs(Flat(LevelsOf(order.side)))) + {order}
      ensures LevelsOf(order.side.Opposite()) == old(LevelsOf(order.side.Opposite()))
      ensures forall i :: 0 <= i < |others| ==> Values(others[i]) == old(Values(others[i]))
      ensures openOrders == old(openOrders)[order.orderID := order]
    {
      EnqueueInserts(LevelsOf(order.side), order);
      EnqueueMembers(LevelsOf(order.side), order);
      ghost var l, v := Values(Flat(LevelsOf(order.side))), order.Value();
      var after := Enqueue(LevelsOf(order.side), order);
      assert Values(Flat(after)) == Insert(l, v);
      ReplaceLevels(after, order, others);
      assert Values(Flat(LevelsOf(order.side))) == Values(Flat(after));
    }

    method ReplaceLevels(after: seq<Level>, order: Order, ghost others: seq<seq<Order>>)
      modifies this`bids, this`asks, this`openOrders
      ensures LevelsOf(order.side) == after
      ensures LevelsOf(order.side.Opposite()) == old(LevelsOf(order.side.Opposite()))
      ensures openOrders == old(openOrders)[order.orderID := order]
      ensures Values(Flat(after)) == old(Values(Flat(after))) && order.Value() == old(order.Value())
      ensures forall i :: 0 <= i < |others| ==> Values(others[i]) == old(Values(others[i]))
    {
      ghost var vs := Values(Flat(after));
      if order.side == BUY {
        bids := after;
      } else {
        asks := after;
      }
      openOrders := openOrders[order.orderID := order];
      ValuesAre(Flat(after), vs);
      forall i | 0 <= i < |others|
        ensures Values(others[i]) == old(Values(others[i]))
      {
        ValuesAre(others[i], old(Values(others[i])));
      }
    }

    function LevelsOf(side: Side): seq<Level>
      reads this
    {
      if side.BUY? then bids else asks
    }

    lemma LitValues(side: Side)
      ensures Contents().Lit(side) == Values(Flat(LevelsOf(side)))
    {
    }

    /** Rest and acknowledge. */
    method QueueLit(order: Order)
      requires LevelsOk(bids, BUY) && LevelsOk(asks, SELL) && Apart(order)
      modifies this`bids, this`asks, this`openOrders, listener, order
      ensures LevelsOk(bids, BUY) && LevelsOk(asks, SELL)
      ensures order.Value() == old(order.Value()).Refresh()
      ensures Values(Flat(LevelsOf(order.side))) == Insert(old(Values(Flat(LevelsOf(order.side)))), order.Value())
      ensures Values(Flat(LevelsOf(order.side.Opposite()))) == old(Values(Flat(LevelsOf(order.side.Opposite()))))
      ensures Values(pegBids) == old(Values(pegBids)) && Values(pegAsks) == old(Values(pegAsks))
      ensures listener.ring.events
              == old(listener.ring.events) + [AcceptedExec(order.orderID, order.price, order.quantity)]
      ensures openOrders == old(openOrders)[order.orderID := order]
      ensures LitHeld() == old(LitHeld()) + {order}
    {
      ghost var side := order.side.Opposite();
      ghost var others := [Flat(LevelsOf(side)), pegBids, pegAsks];
      AddToBook(order, others);
      assert others[0] == Flat(LevelsOf(side)) && others[1] == pegBids && others[2] == pegAsks;
      ghost var all := [Flat(LevelsOf(order.side)), Flat(LevelsOf(side)), pegBids, pegAsks, [order]];
      assert all[4] == [order] && Values(all[4]) == [order.Value()];
      Acknowledge(order.orderID, order.price, order.quantity, all);
      assert all[0] == Flat(LevelsOf(order.side)) && all[1] == Flat(LevelsOf(side));
      assert all[2] == pegBids && all[3] == pegAsks;
    }

    /** A lit order rests, as the matcher sees it. */
    method RestSorted(order: Order)
      requires LevelsOk(bids, BUY) && LevelsOk(asks, SELL) && Apart(order) && order.ordType == LIMIT
      modifies this`bids, this`asks, this`openOrders, listener, order
      ensures Match(View(), order.Value()) == Rest(old(Match(View(), order.Value())))
      ensures LevelsOk(bids, BUY) && LevelsOk(asks, SELL) && LitHeld() == old(LitHeld()) + {order}
      ensures Values(pegBids) == old(Values(pegBids)) && Values(pegAsks) == old(Values(pegAsks))
      ensures openOrders == old(openOrders)[order.orderID := order]
    {
      ghost var side := order.side.Opposite();
      LitValues(order.side);
      LitValues(side);
      QueueLit(order);
      LitValues(order.side);
      LitValues(side);
    }

    /** A lit order comes to rest. Only where its id was open already does that break the index. */
    method RestLit(order: Order)
      requires Valid() && Taking(order) && order.quantity > 0
      requires order.tif == GTC && order.ordType == LIMIT
      requires !LitReady(Match(View(), order.Value()))
      modifies this`bids, this`asks, this`openOrders, listener, order
      ensures Match(View(), order.Value()) == Rest(old(Match(View(), order.Value())))
      ensures Held() == old(Held()) + {order} && openOrders.Keys == old(openOrders.Keys) + {order.orderID}
      ensures Crossable() && order !in pegBids && order !in pegAsks
      ensures order.orderID !in OpenIds(old(Contents())) ==> Structured()
    {
      StructuredCrossable();
      TakingApart(order);
      ghost var x, index, held := Match(View(), order.Value()), openOrders, Held();
      ghost var lit, pegB, pegA := LitHeld(), Values(pegBids), Values(pegAsks);
      RestSorted(order);
      CrossableBeside(order, lit, pegB, pegA);
      if order.orderID !in OpenIds(x.v.book) {
        LitRested(x, index, held, order);
      }
    }

    lemma LitRested(x: Match, index: map<int, Order>, held: set<Order>, order: Order)
      requires BookOk(x.v.book) && Incoming(x.a, x.v.book) && x.a.qty > 0 && x.a.tif == GTC && x.a.ordType == LIMIT
      requires !LitReady(x) && index.Keys == OpenIds(x.v.book)
      requires forall id :: id in index ==> index[id].orderID == id && index[id] in held
      requires Match(View(), order.Value()) == Rest(x) && order.orderID == x.a.id
      requires LevelsOk(bids, BUY) && LevelsOk(asks, SELL)
      requires openOrders == index[order.orderID := order] && Held() >= held + {order}
      ensures Structured()
    {
      RestKeeps(x);
      OneMoreIndexed(index, held, order);
    }

    // ---------- The fill-or-kill probe ----------

    method PegPoolTotal(aggressorSide: Side) returns (total: int)
      ensures total == SumQty(Values(Pool(aggressorSide.Opposite())))
      ensures Contents() == old(Contents())
    {
      var pool := Pool(aggressorSide.Opposite());
      total := 0;
      ghost var vs := Values(pool);
      var i := 0;
      while i < |pool|
        invariant 0 <= i <= |pool|
        invariant total + SumQty(vs[i..]) == SumQty(vs)
      {
        total := total + pool[i].quantity;
        assert vs[i..][1..] == vs[i + 1..];
        i := i + 1;
      }
    }

    /** Adds up one level's total sizes, stopping once the order is covered. */
    method ProbeLevel(queue: seq<Order>, start: int, needed: int, ghost below: seq<Order>)
      returns (available: int, covered: bool)
      requires AllPositive(Values(queue))
      ensures covered ==> start + SumQty(Values(queue)) >= needed
      ensures !covered ==> available == start + SumQty(Values(queue))
      ensures Values(below) == old(Values(below)) && Values(queue) == old(Values(queue))
      ensures Contents() == old(Contents())
    {
      ghost var qs := Values(queue);
      available, covered := start, false;
      var j := 0;
      while j < |queue|
        invariant 0 <= j <= |queue|
        invariant available + SumQty(qs[j..]) == start + SumQty(qs)
      {
        available := available + queue[j].quantity;
        assert qs[j..][1..] == qs[j + 1..];
        j := j + 1;
        if available >= needed {
          SumPositive(qs[j..]);
          covered := true;
          return;
        }
      }
    }

    /** Walks the contra levels best first and stops as soon as the order is covered. */
    method ProbeLit(side: Side, limit: int, contra: seq<Level>, start: int, needed: int) returns (covered: bool)
      requires LevelsOk(contra, side.Opposite())
      requires AllPositive(Values(Flat(contra)))
      ensures covered == (start + SumQty(Reach(side, limit, Values(Flat(contra)))) >= needed)
      ensures Contents() == old(Contents())
    {
      ghost var total := start + SumQty(Reach(side, limit, Values(Flat(contra))));
      var available := start;
      var i := 0;
      while i < |contra|
        invariant 0 <= i <= |contra|
        invariant LevelsOk(contra[i..], side.Opposite())
        invariant AllPositive(Values(Flat(contra[i..]))) && Contents() == old(Contents())
        invariant available + SumQty(Reach(side, limit, Values(Flat(contra[i..])))) == total
      {
        ghost var levels := contra[i..];
        FlatHead(levels, side.Opposite());
        if !Marketable(side, limit, contra[i].price) {
          break;
        }
        LevelInReach(side, limit, levels);
        assert levels[1..] == contra[i + 1..];
        var done;
        available, done := ProbeLevel(contra[i].queue, available, needed, Flat(contra[i + 1..]));
        if done {
          return true;
        }
        i := i + 1;
      }
      covered := available >= needed;
    }

    lemma PositiveParts(a: seq<OrderValue>, b: seq<OrderValue>)
      requires AllPositive(a + b)
      ensures AllPositive(a) && AllPositive(b)
    {
      assert forall k :: 0 <= k < |a| ==> (a + b)[k] == a[k];
      assert forall k :: 0 <= k < |b| ==> (a + b)[|a| + k] == b[k];
    }

    /** A marketable first level is in reach as a whole. */
    lemma {:induction false} LevelInReach(side: Side, limit: int, levels: seq<Level>)
      requires LevelsOk(levels, side.Opposite()) && levels != [] && Marketable(side, limit, levels[0].price)
      requires AllPositive(Values(Flat(levels)))
      ensures LevelsOk(levels[1..], side.Opposite())
      ensures AllPositive(Values(levels[0].queue)) && AllPositive(Values(Flat(levels[1..])))
      ensures SumQty(Reach(side, limit, Values(Flat(levels))))
              == SumQty(Values(levels[0].queue)) + SumQty(Reach(side, limit, Values(Flat(levels[1..]))))
      ensures SumQty(Reach(side, limit, Values(Flat(levels[1..])))) >= 0
    {
      TailOk(levels, side.Opposite());
      var qs, rest := Values(levels[0].queue), Values(Flat(levels[1..]));
      ValuesConcat(levels[0].queue, Flat(levels[1..]));
      PositiveParts(qs, rest);
      ReachConcat(side, limit, qs, rest);
      ReachCovers(side, limit, rest);
    }

    /** The pre-trade probe: true exactly when the order could fill completely. It changes nothing. */
    method CanFillCompletely(order: Order) returns (covered: bool)
      requires Valid() && Taking(order) && order.quantity > 0
      ensures covered == (old(Liquidity(order.Value(), Contents())) >= order.quantity)
      ensures Contents() == old(Contents())
    {
      ghost var b, o := Contents(), order.Value();
      var needed := order.quantity;
      TopsAgree();
      var mid := Mid();
      PoolValues(order.side.Opposite());
      LitValues(order.side.Opposite());
      ContraPositive(order.side);
      var contra := LevelsOf(order.side.Opposite());
      if order.ordType == PEG_MID {
        if mid == NA {
          return false;
        }
        var total := PegPoolTotal(order.side);
        return total >= needed;
      }
      var available := 0;
      ReachCovers(order.side, order.price, Values(Flat(contra)));
      if mid != NA && CrossesMid(order.side, order.price, mid) {
        available := PegPoolTotal(order.side);
        if available >= needed {
          return true;
        }
      }
      assert available == if TakesPool(o, b) then SumQty(b.Peg(o.side.Opposite())) else 0;
      covered := ProbeLit(order.side, order.price, contra, available, needed);
    }

    lemma ContraPositive(side: Side)
      requires Shape(Contents())
      ensures AllPositive(Values(Flat(LevelsOf(side.Opposite()))))
    {
      LitValues(side.Opposite());
      var vs := Contents().Lit(side.Opposite());
      assert forall k :: 0 <= k < |vs| ==> Member(vs[k], side.Opposite(), LIMIT);
    }

    // ---------- Order entry ----------

    /** End an order by its time in force, and report it. */
    method ExpireOrder(order: Order, ghost others: seq<seq<Order>>)
      requires forall i :: 0 <= i < |others| ==> order !in others[i]
      modifies listener, order
      ensures order.Value() == old(order.Value()).(status := EXPIRED)
      ensures listener.ring.events == old(listener.ring.events) + [ExpiredExec(order.orderID, order.quantity)]
      ensures forall i :: 0 <= i < |others| ==> Values(others[i]) == old(Values(others[i]))
    {
      order.Expire();
      listener.OnExpired(order.orderID, order.quantity);
      forall i | 0 <= i < |others|
        ensures Values(others[i]) == old(Values(others[i]))
      {
        ValuesAre(others[i], old(Values(others[i])));
      }
    }

    method ReportExpired(order: Order, ghost others: seq<seq<Order>>)
      modifies listener
      ensures listener.ring.events == old(listener.ring.events) + [ExpiredExec(order.orderID, order.quantity)]
      ensures order.Value() == old(order.Value())
      ensures forall i :: 0 <= i < |others| ==> Values(others[i]) == old(Values(others[i]))
    {
      listener.OnExpired(order.orderID, order.quantity);
    }

    /** Finish an order that found too little and may not rest. */
    method ExpireRemainder(order: Order)
      requires Valid() && Taking(order)
      modifies listener, order
      ensures Valid()
      ensures order.Value() == old(order.Value()).(status := EXPIRED)
      ensures View() == old(View()).Say(ExpiredExec(order.orderID, order.quantity))
    {
      TakingApart(order);
      ghost var all := [Flat(bids), Flat(asks), pegBids, pegAsks];
      ExpireOrder(order, all);
      assert all[0] == Flat(bids) && all[1] == Flat(asks) && all[2] == pegBids && all[3] == pegAsks;
    }

    /** A killed order is reported, nothing else. */
    method ReportKilled(order: Order)
      requires Valid()
      modifies listener
      ensures Valid() && order.Value() == old(order.Value())
      ensures View() == old(View()).Say(ExpiredExec(order.orderID, order.quantity))
    {
      ghost var all := [Flat(bids), Flat(asks), pegBids, pegAsks];
      ReportExpired(order, all);
      assert all[0] == Flat(bids) && all[1] == Flat(asks) && all[2] == pegBids && all[3] == pegAsks;
    }

    /** A midpoint peg: fills only against the opposite pool, and only while there is a midpoint. */
    method AddPeg(order: Order)
      requires Valid() && Taking(order) && order.ordType == PEG_MID && order.quantity > 0
      modifies this, listener, order, Held()
      ensures Match(View(), order.Value()) == Dispose(Trading(old(Match(View(), order.Value()))))
      ensures Held() <= old(Held()) + {order} && LevelsOk(bids, BUY) && LevelsOk(asks, SELL)
      ensures openOrders.Keys == KeysAfter(Trading(old(Match(View(), order.Value()))))
      ensures Clashes(Trading(old(Match(View(), order.Value())))) || Valid()
    {
      TradingKeeps(Match(View(), order.Value()));
      TopsAgree();
      var mid := Mid();
      if mid != NA {
        TakePool(order, mid);
      }
      DisposePeg(order);
    }

    /** What becomes of the remainder of a peg. */
    method DisposePeg(order: Order)
      requires Valid() && Taking(order) && order.ordType == PEG_MID
      requires Contents().Mid() != NA ==> !PoolReady(Match(View(), order.Value()))
      modifies this`pegBids, this`pegAsks, this`openOrders, listener, order
      ensures Match(View(), order.Value()) == Dispose(old(Match(View(), order.Value())))
      ensures Held() <= old(Held()) + {order} && LevelsOk(bids, BUY) && LevelsOk(asks, SELL)
      ensures openOrders.Keys == KeysAfter(old(Match(View(), order.Value())))
      ensures Clashes(old(Match(View(), order.Value()))) || Valid()
    {
      if order.quantity > 0 {
        if order.tif == GTC {
          RestPeg(order);
        } else {
          ExpireRemainder(order);
        }
      }
    }

    /** A limit order trades: the opposite pool first if it reaches the midpoint, then the lit book. */
    method TradeLit(order: Order)
      requires Valid() && Taking(order) && order.ordType == LIMIT
      modifies this, listener, order, Held()
      ensures Valid() && Taking(order) && Held() <= old(Held())
      ensures Refs(pegBids) <= old(Refs(pegBids)) && Refs(pegAsks) <= old(Refs(pegAsks))
      ensures Match(View(), order.Value()) == Trading(old(Match(View(), order.Value())))
    {
      TopsAgree();
      var mid := Mid();
      if mid != NA && CrossesMid(order.side, order.price, mid) {
        TakePool(order, mid);
      }
      MatchLit(order);
    }

    method MatchLit(order: Order)
      requires Valid() && Taking(order) && order.ordType == LIMIT
      modifies this`bids, this`asks, this`openOrders, this`trades, this`lastTradeId, listener, order, LitHeld()
      ensures Valid() && Taking(order) && Held() <= old(Held())
      ensures Match(View(), order.Value()) == Sweep(old(Match(View(), order.Value())))
    {
      if order.side == BUY {
        MatchBuy(order);
      } else {
        MatchSell(order);
      }
    }

    /** What becomes of the remainder of a lit order. */
    method DisposeLit(order: Order)
      requires Valid() && Taking(order) && order.ordType == LIMIT && !LitReady(Match(View(), order.Value()))
      modifies this`bids, this`asks, this`openOrders, listener, order
      ensures Match(View(), order.Value()) == Dispose(old(Match(View(), order.Value())))
      ensures Held() <= old(Held()) + {order} && Crossable() && order !in pegBids && order !in pegAsks
      ensures openOrders.Keys == KeysAfter(old(Match(View(), order.Value())))
      ensures Clashes(old(Match(View(), order.Value()))) || Structured()
    {
      StructuredCrossable();
      if order.quantity > 0 {
        if order.tif == GTC {
          RestLit(order);
        } else {
          ExpireRemainder(order);
          StructuredCrossable();
        }
      }
    }

    method AddLit(order: Order)
      requires Valid() && Taking(order) && order.ordType == LIMIT
      modifies this, listener, order, Held()
      ensures Match(View(), order.Value()) == Dispose(Trading(old(Match(View(), order.Value()))))
      ensures Held() <= old(Held()) + {order} && Crossable() && order !in pegBids && order !in pegAsks
      ensures Refs(pegBids) <= old(Refs(pegBids)) && Refs(pegAsks) <= old(Refs(pegAsks))
      ensures openOrders.Keys == KeysAfter(Trading(old(Match(View(), order.Value()))))
      ensures Clashes(Trading(old(Match(View(), order.Value())))) || Structured()
    {
      TradingKeeps(Match(View(), order.Value()));
      TradeLit(order);
      DisposeLit(order);
    }

    /** The pool cross after a lit order leaves that order as it is. */
    method CrossAfter(order: Order)
      requires Crossable() && order !in pegBids && order !in pegAsks
      modifies this`pegBids, this`pegAsks, this`openOrders, this`trades, this`lastTradeId, listener,
               Refs(pegBids), Refs(pegAsks)
      ensures Match(View(), order.Value()) == Match(CrossPools(old(View())), old(order.Value()))
      ensures Held() <= old(Held()) && LevelsOk(bids, BUY) && LevelsOk(asks, SELL)
      ensures openOrders.Keys == old(openOrders.Keys) - (old(PegIds(Contents())) - PegIds(Contents()))
      ensures old(Structured()) ==> Valid()
    {
      CrossPegPools();
    }

    /** What follows the probe. */
    method Enter(order: Order)
      requires Valid() && Taking(order) && order.quantity > 0 && !Killed(View(), order.Value())
      modifies this, listener, order, Held()
      ensures Match(View(), order.Value()) == Add(old(View()), old(order.Value()))
      ensures Held() <= old(Held()) + {order} && LevelsOk(bids, BUY) && LevelsOk(asks, SELL)
      ensures openOrders.Keys == IndexAfter(old(View()), old(order.Value()))
      ensures Reuses(old(View()), old(order.Value())) || Valid()
    {
      KeysAreIndex(View(), order.Value());
      if order.ordType == PEG_MID {
        AddPeg(order);
        return;
      }
      TakingApart(order);
      AddLit(order);
      CrossAfter(order);
    }

    /** Admits one order: the probe, the peg step, the lit sweep, the disposition, the pool cross. */
    method AddOrder(order: Order)
      requires Valid() && OrderOk(order.Value()) && order !in Held()
      modifies this, listener, order, Held()
      ensures Match(View(), order.Value()) == Add(old(View()), old(order.Value()))
      ensures Held() <= old(Held()) + {order} && LevelsOk(bids, BUY) && LevelsOk(asks, SELL)
      ensures openOrders.Keys == IndexAfter(old(View()), old(order.Value()))
      ensures Valid() <==> !Reuses(old(View()), old(order.Value()))
    {
      AddNeedsFreshId(View(), order.Value());
      if order.tif == FOK {
        var covered := CanFillCompletely(order);
        if !covered {
          ReportKilled(order);
          return;
        }
      }
      Enter(order);
    }

    // ---------- Cancel ----------

    /** Cancel a resting lit order: mark it, take it out of its level, drop the level once empty. */
    method WithdrawLit(order: Order, ghost others: seq<seq<Order>>)
      requires LevelsOk(bids, BUY) && LevelsOk(asks, SELL)
      requires order in Flat(LevelsOf(order.side)) && NoDup(Values(Flat(LevelsOf(order.side))))
      requires forall i :: 0 <= i < |others| ==> order !in others[i]
      modifies this`bids, this`asks, order
      ensures LevelsOk(bids, BUY) && LevelsOk(asks, SELL)
      ensures order.Value() == old(order.Value()).(status := CANCELLED)
      ensures Values(Flat(LevelsOf(order.side))) == Remove(old(Values(Flat(LevelsOf(order.side)))), order.orderID)
      ensures LevelsOf(order.side.Opposite()) == old(LevelsOf(order.side.Opposite()))
      ensures old(Refs(Flat(LevelsOf(order.side)))) - {order} <= Refs(Flat(LevelsOf(order.side)))
      ensures Refs(Flat(LevelsOf(order.side))) <= old(Refs(Flat(LevelsOf(order.side))))
      ensures forall i :: 0 <= i < |others| ==> Values(others[i]) == old(Values(others[i]))
    {
      ghost var q := Flat(LevelsOf(order.side));
      ghost var l := Values(q);
      order.Cancel();
      SameButOne(q, l, order);
      DequeueRemoves(LevelsOf(order.side), order);
      DequeueMembers(LevelsOf(order.side), order);
      ghost var after := Dequeue(LevelsOf(order.side), order);
      ghost var vs := Values(Flat(after));
      if order.side == BUY {
        bids := Dequeue(bids, order);
      } else {
        asks := Dequeue(asks, order);
      }
      ValuesAre(Flat(after), vs);
      forall i | 0 <= i < |others|
        ensures Values(others[i]) == old(Values(others[i]))
      {
        ValuesAre(others[i], old(Values(others[i])));
      }
    }

    /** Cancel a resting peg: mark it and take it out of its pool. */
    method WithdrawPeg(order: Order, ghost others: seq<seq<Order>>)
      requires order in Pool(order.side) && NoDup(Values(Pool(order.side)))
      requires forall i :: 0 <= i < |others| ==> order !in others[i]
      modifies this`pegBids, this`pegAsks, order
      ensures order.Value() == old(order.Value()).(status := CANCELLED)
      ensures Values(Pool(order.side)) == Remove(old(Values(Pool(order.side))), order.orderID)
      ensures Pool(order.side.Opposite()) == old(Pool(order.side.Opposite()))
      ensures old(Refs(Pool(order.side))) - {order} <= Refs(Pool(order.side)) <= old(Refs(Pool(order.side)))
      ensures forall i :: 0 <= i < |others| ==> Values(others[i]) == old(Values(others[i]))
    {
      ghost var q := Pool(order.side);
      ghost var l := Values(q);
      order.Cancel();
      SameButOne(q, l, order);
      RefsUnique(q, order);
      RemoveRefRemoves(q, order);
      RemoveRefMembers(q, order);
      ghost var after := RemoveRef(q, order);
      ghost var vs := Values(after);
      if order.side == BUY {
        pegBids := RemoveRef(pegBids, order);
      } else {
        pegAsks := RemoveRef(pegAsks, order);
      }
      ValuesAre(after, vs);
      forall i | 0 <= i < |others|
        ensures Values(others[i]) == old(Values(others[i]))
      {
        ValuesAre(others[i], old(Values(others[i])));
      }
    }

    /** Where the index finds an order, the order itself says which list holds it. */
    lemma Whereabouts(o: Order)
      requires Structured() && o in Held()
      ensures OrderOk(o.Value()) && o.orderID in OpenIds(Contents())
      ensures o.ordType == LIMIT ==> o in Flat(LevelsOf(o.side)) && o.orderID in Ids(Contents().Lit(o.side))
      ensures o.ordType == PEG_MID ==> o in Pool(o.side) && o.orderID in Ids(Contents().Peg(o.side))
    {
      if o in Flat(bids) {
        ListedMember(Flat(bids), o, BUY, LIMIT);
      } else if o in Flat(asks) {
        ListedMember(Flat(asks), o, SELL, LIMIT);
      } else if o in pegBids {
        ListedMember(pegBids, o, BUY, PEG_MID);
      } else {
        ListedMember(pegAsks, o, SELL, PEG_MID);
      }
    }

    method TakeOutLit(order: Order)
      requires LevelsOk(bids, BUY) && LevelsOk(asks, SELL)
      requires order in Flat(LevelsOf(order.side)) && NoDup(Values(Flat(LevelsOf(order.side))))
      requires order !in Flat(LevelsOf(order.side.Opposite())) && order !in pegBids && order !in pegAsks
      modifies this`bids, this`asks, this`openOrders, order
      ensures LevelsOk(bids, BUY) && LevelsOk(asks, SELL)
      ensures openOrders == old(openOrders) - {order.orderID}
      ensures order.Value() == old(order.Value()).(status := CANCELLED)
      ensures Values(Flat(LevelsOf(order.side))) == Remove(old(Values(Flat(LevelsOf(order.side)))), order.orderID)
      ensures Values(Flat(LevelsOf(order.side.Opposite()))) == old(Values(Flat(LevelsOf(order.side.Opposite()))))
      ensures Values(pegBids) == old(Values(pegBids)) && Values(pegAsks) == old(Values(pegAsks))
      ensures old(Held()) - {order} <= Held() <= old(Held())
    {
      ghost var side := order.side.Opposite();
      ghost var others := [Flat(LevelsOf(side)), pegBids, pegAsks];
      TakeOutOfLevel(order, others);
      assert others[0] == Flat(LevelsOf(side)) && others[1] == pegBids && others[2] == pegAsks;
    }

    method TakeOutOfLevel(order: Order, ghost others: seq<seq<Order>>)
      requires LevelsOk(bids, BUY) && LevelsOk(asks, SELL)
      requires order in Flat(LevelsOf(order.side)) && NoDup(Values(Flat(LevelsOf(order.side))))
      requires forall i :: 0 <= i < |others| ==> order !in others[i]
      modifies this`bids, this`asks, this`openOrders, order
      ensures LevelsOk(bids, BUY) && LevelsOk(asks, SELL)
      ensures openOrders == old(openOrders) - {order.orderID}
      ensures order.Value() == old(order.Value()).(status := CANCELLED)
      ensures Values(Flat(LevelsOf(order.side))) == Remove(old(Values(Flat(LevelsOf(order.side)))), order.orderID)
      ensures LevelsOf(order.side.Opposite()) == old(LevelsOf(order.side.Opposite()))
      ensures old(Refs(Flat(LevelsOf(order.side)))) - {order} <= Refs(Flat(LevelsOf(order.side)))
      ensures Refs(Flat(LevelsOf(order.side))) <= old(Refs(Flat(LevelsOf(order.side))))
      ensures forall i :: 0 <= i < |others| ==> Values(others[i]) == old(Values(others[i]))
    {
      openOrders := openOrders - {order.orderID};
      WithdrawLit(order, others);
    }

    method TakeOutPeg(order: Order)
      requires order in Pool(order.side) && NoDup(Values(Pool(order.side)))
      requires order !in Pool(order.side.Opposite()) && order !in Flat(bids) && order !in Flat(asks)
      modifies this`pegBids, this`pegAsks, this`openOrders, order
      ensures openOrders == old(openOrders) - {order.orderID}
      ensures order.Value() == old(order.Value()).(status := CANCELLED)
      ensures Values(Pool(order.side)) == Remove(old(Values(Pool(order.side))), order.orderID)
      ensures Values(Pool(order.side.Opposite())) == old(Values(Pool(order.side.Opposite())))
      ensures Values(Flat(bids)) == old(Values(Flat(bids))) && Values(Flat(asks)) == old(Values(Flat(asks)))
      ensures old(Held()) - {order} <= Held() <= old(Held())
    {
      ghost var side := order.side.Opposite();
      ghost var others := [Pool(side), Flat(bids), Flat(asks)];
      TakeOutOfPool(order, others);
      assert others[0] == Pool(side) && others[1] == Flat(bids) && others[2] == Flat(asks);
    }

    method TakeOutOfPool(order: Order, ghost others: seq<seq<Order>>)
      requires order in Pool(order.side) && NoDup(Values(Pool(order.side)))
      requires forall i :: 0 <= i < |others| ==> order !in others[i]
      modifies this`pegBids, this`pegAsks, this`openOrders, order
      ensures openOrders == old(openOrders) - {order.orderID}
      ensures order.Value() == old(order.Value()).(status := CANCELLED)
      ensures Values(Pool(order.side)) == Remove(old(Values(Pool(order.side))), order.orderID)
      ensures Pool(order.side.Opposite()) == old(Pool(order.side.Opposite()))
      ensures old(Refs(Pool(order.side))) - {order} <= Refs(Pool(order.side)) <= old(Refs(Pool(order.side)))
      ensures forall i :: 0 <= i < |others| ==> Values(others[i]) == old(Values(others[i]))
    {
      openOrders := openOrders - {order.orderID};
      WithdrawPeg(order, others);
    }

    lemma OthersApart(order: Order)
      requires Structured() && order in Held()
      ensures order.ordType == LIMIT ==>
                order !in Flat(LevelsOf(order.side.Opposite())) && order !in pegBids && order !in pegAsks
      ensures order.ordType == PEG_MID ==>
                order !in Pool(order.side.Opposite()) && order !in Flat(bids) && order !in Flat(asks)
    {
      Whereabouts(order);
      LitValues(order.side.Opposite());
      PoolValues(order.side.Opposite());
      if order.ordType == LIMIT {
        NotListed(Flat(LevelsOf(order.side.Opposite())), order);
        NotListed(pegBids, order);
        NotListed(pegAsks, order);
      } else {
        NotListed(Pool(order.side.Opposite()), order);
        NotListed(Flat(bids), order);
        NotListed(Flat(asks), order);
      }
    }

    method CancelLit(order: Order)
      requires Valid() && order.orderID in openOrders && openOrders[order.orderID] == order && order.ordType == LIMIT
      modifies this`bids, this`asks, this`openOrders, order
      ensures Valid() && Contents() == Cancel(old(Contents()), order.orderID)
      ensures order.status == CANCELLED && Held() <= old(Held())
    {
      ghost var b, index, held, side := Contents(), openOrders, Held(), order.side.Opposite();
      Whereabouts(order);
      OthersApart(order);
      CancelLitParts(b, order.side, order.orderID);
      LitValues(order.side);
      LitValues(side);
      TakeOutLit(order);
      LitValues(order.side);
      LitValues(side);
      StillValid(b, index, held, order);
    }

    method CancelPeg(order: Order)
      requires Valid() && order.orderID in openOrders && openOrders[order.orderID] == order && order.ordType == PEG_MID
      modifies this`pegBids, this`pegAsks, this`openOrders, order
      ensures Valid() && Contents() == Cancel(old(Contents()), order.orderID)
      ensures order.status == CANCELLED && Held() <= old(Held())
    {
      ghost var b, index, held, side := Contents(), openOrders, Held(), order.side.Opposite();
      Whereabouts(order);
      OthersApart(order);
      CancelPegParts(b, order.side, order.orderID);
      PoolValues(order.side);
      PoolValues(side);
      TakeOutPeg(order);
      PoolValues(order.side);
      PoolValues(side);
      StillValid(b, index, held, order);
    }

    /** An engine whose book, index and orders are those of a cancel. */
    lemma StillValid(b: Book, index: map<int, Order>, held: set<Order>, order: Order)
      requires BookOk(b) && index.Keys == OpenIds(b) && LevelsOk(bids, BUY) && LevelsOk(asks, SELL)
      requires forall id :: id in index ==> index[id].orderID == id && index[id] in held
      requires Contents() == Cancel(b, order.orderID)
      requires openOrders == index - {order.orderID} && Held() >= held - {order}
      ensures Valid()
    {
      CancelKeeps(b, order.orderID);
      StillIndexed(index, held, order, true);
    }

    lemma HeldLive(o: Order)
      requires Structured() && o in Held()
      ensures o.quantity > 0
    {
      Whereabouts(o);
    }

    /** True exactly when the id was resting; then that order alone leaves, reserve included. */
    method CancelOrder(orderID: int) returns (cancelled: bool)
      requires Valid()
      modifies this`bids, this`asks, this`pegBids, this`pegAsks, this`openOrders, Held()
      ensures Valid()
      ensures cancelled == (orderID in OpenIds(old(Contents())))
      ensures View() == old(View()).(book := Cancel(old(Contents()), orderID))
      ensures cancelled ==> old(openOrders)[orderID].status == CANCELLED
      ensures Held() <= old(Held())
    {
      if orderID !in openOrders {
        CancelAbsent(Contents(), orderID);
        return false;
      }
      var order := openOrders[orderID];
      HeldLive(order);
      if order.quantity == 0 {
        return false;
      }
      CancelResting(order);
      cancelled := true;
    }

    method CancelResting(order: Order)
      requires Valid() && order.orderID in openOrders && openOrders[order.orderID] == order
      modifies this`bids, this`asks, this`pegBids, this`pegAsks, this`openOrders, order
      ensures Valid() && Contents() == Cancel(old(Contents()), order.orderID)
      ensures order.status == CANCELLED && Held() <= old(Held())
    {
      if order.ordType == PEG_MID {
        CancelPeg(order);
      } else {
        CancelLit(order);
      }
    }

    /** Constructing an order disturbs no resting one. */
    method CreateOrder(id: int, time: int, side: Option<Side>, qty: int, price: int, participant: int,
                       tif: TimeInForce, displayed: int, ordType: OrdType) returns (r: Option<Order>)
      requires Valid()
      ensures r.Some? <==> Admit(id, time, side, qty, price, participant, tif, displayed, ordType).Some?
      ensures r.Some? ==> fresh(r.value) && r.value !in Held()
      ensures r.Some? ==>
                r.value.Value() == Admit(id, time, side, qty, price, participant, tif, displayed, ordType).value
      ensures Valid() && View() == old(View()) && Held() == old(Held())
    {
      ghost var all := [Flat(bids), Flat(asks), pegBids, pegAsks];
      r := Order.Create(id, time, side, qty, price, participant, tif, displayed, ordType, all);
      ValuesAre(all[0], old(Values(Flat(bids))));
      ValuesAre(all[1], old(Values(Flat(asks))));
      ValuesAre(all[2], old(Values(pegBids)));
      ValuesAre(all[3], old(Values(pegAsks)));
    }

    /** A report that carries nothing but an order id. */
    method PublishPlain(execType: ExecType, orderId: int)
      requires Valid()
      modifies listener
      ensures Valid() && View() == old(View()).Say(PlainExec(execType, orderId))
    {
      ghost var all := [Flat(bids), Flat(asks), pegBids, pegAsks];
      ReportPlain(execType, orderId, all);
      assert all[0] == Flat(bids) && all[1] == Flat(asks) && all[2] == pegBids && all[3] == pegAsks;
    }

    method ReportPlain(execType: ExecType, orderId: int, ghost others: seq<seq<Order>>)
      modifies listener
      ensures listener.ring.events == old(listener.ring.events) + [PlainExec(execType, orderId)]
      ensures forall i :: 0 <= i < |others| ==> Values(others[i]) == old(Values(others[i]))
    {
      listener.Publish(execType, orderId, NA, NA, NA, NA, NA, NA);
    }

    // ---------- Snapshot ----------

    /** Writes a bounded depth snapshot of the lit book into the carrier. */
    method SnapshotInto(target: BookSnapshot, maxLevels: nat, now: int)
      requires LevelsOk(bids, BUY) && LevelsOk(asks, SELL) && target.Wired()
      modifies target, target.bidPrices, target.bidQtys, target.askPrices, target.askQtys
      ensures target.Shows(Contents(), Min(maxLevels, MAX_DEPTH_LEVELS)) && target.timestamp == now
      ensures View() == old(View()) && (Valid() <==> old(Valid()))
    {
      TopsAgree();
      var levels := Min(maxLevels, MAX_DEPTH_LEVELS);
      ghost var others := [Flat(bids), Flat(asks), pegBids, pegAsks];
      var bidCount := FillSide(bids, BUY, target.bidPrices, target.bidQtys, levels, others);
      assert others[0] == Flat(bids) && others[1] == Flat(asks) && others[2] == pegBids && others[3] == pegAsks;
      var askCount := FillSide(asks, SELL, target.askPrices, target.askQtys, levels, others);
      target.SetTops(bidCount, askCount, GetBestBid(), GetBestAsk(), now, others);
    }
  }
}
