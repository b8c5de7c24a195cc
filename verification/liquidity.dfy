/** How much an incoming order trades, and that fill-or-kill is all or nothing. */
module LiquidityTheorems {
  import opened Orders
  import opened Matching
  import opened Invariant

  lemma InsertUnfolds(l: seq<OrderValue>, o: OrderValue)
    ensures Insert(l, o) ==
            if l == [] || !AtLeast(o.side, l[0].price, o.price) then [o] + l else [l[0]] + Insert(l[1..], o)
  {
    if l != [] && AtLeast(o.side, l[0].price, o.price) {
      assert l[..Place(l, o)] == [l[0]] + l[1..][..Place(l[1..], o)];
      assert l[Place(l, o)..] == l[1..][Place(l[1..], o)..];
    }
  }

  /** Where an order queues does not change how much of the side is in reach. */
  lemma {:induction false} ReachInsert(side: Side, limit: int, l: seq<OrderValue>, o: OrderValue)
    requires o.side == side.Opposite() && Marketable(side, limit, o.price)
    ensures SumQty(Reach(side, limit, Insert(l, o))) == SumQty(Reach(side, limit, l)) + o.qty
  {
    InsertUnfolds(l, o);
    if l != [] && AtLeast(o.side, l[0].price, o.price) {
      ReachInsert(side, limit, l[1..], o);
      assert ([l[0]] + Insert(l[1..], o))[1..] == Insert(l[1..], o);
    } else {
      assert ([o] + l)[1..] == l;
    }
  }

  /** A fill of m takes exactly m out of what is in reach, reload or not. */
  lemma ReachAfterFill(side: Side, limit: int, l: seq<OrderValue>, m: int)
    requires LitOk(l, side.Opposite()) && l != [] && Marketable(side, limit, l[0].price)
    ensures SumQty(Reach(side, limit, AfterFill(l, m))) == SumQty(Reach(side, limit, l)) - m
  {
    var h := l[0].Fill(m);
    assert Member(l[0], side.Opposite(), LIMIT);
    if h.qty != 0 && h.visible == 0 {
      ReachInsert(side, limit, l[1..], h.Refresh());
    } else if h.qty != 0 {
      assert ([h] + l[1..])[1..] == l[1..];
    }
  }

  lemma {:induction false} ReachCovers(side: Side, limit: int, l: seq<OrderValue>)
    requires forall i :: 0 <= i < |l| ==> l[i].qty > 0
    ensures SumQty(Reach(side, limit, l)) >= 0
    ensures SumQty(Reach(side, limit, l)) == 0 <==> l == [] || !Marketable(side, limit, l[0].price)
  {
    if l != [] {
      ReachCovers(side, limit, l[1..]);
    }
  }

  lemma {:induction false} SumPositive(l: seq<OrderValue>)
    requires forall i :: 0 <= i < |l| ==> l[i].qty > 0
    ensures SumQty(l) >= 0 && (SumQty(l) == 0 <==> l == [])
  {
    if l != [] {
      SumPositive(l[1..]);
    }
  }

  /** The lit sweep trades the smaller of the order and what is in reach. */
  lemma {:induction false} SweepFills(x: Match)
    requires BookOk(x.v.book) && Live(x.a)
    ensures Sweep(x).a.qty ==
            x.a.qty - Min(x.a.qty, SumQty(Reach(x.a.side, x.a.price, x.v.book.Lit(x.a.side.Opposite()))))
    decreases x.a.qty
  {
    var contra := x.v.book.Lit(x.a.side.Opposite());
    assert forall i :: 0 <= i < |contra| ==> Member(contra[i], x.a.side.Opposite(), LIMIT);
    ReachCovers(x.a.side, x.a.price, contra);
    if LitReady(x) {
      var m := Min(x.a.qty, contra[0].visible);
      ReachAfterFill(x.a.side, x.a.price, contra, m);
      LitStepKeeps(x);
      SweepFills(LitStep(x));
    }
  }

  /** The pool step trades the smaller of the order and the whole opposite pool. */
  lemma {:induction false} PoolSweepFills(x: Match, mid: int)
    requires BookOk(x.v.book) && Live(x.a)
    ensures PoolSweep(x, mid).a.qty == x.a.qty - Min(x.a.qty, SumQty(x.v.book.Peg(x.a.side.Opposite())))
    decreases |x.v.book.Peg(x.a.side.Opposite())|, x.a.qty
  {
    var pool := x.v.book.Peg(x.a.side.Opposite());
    assert forall i :: 0 <= i < |pool| ==> Member(pool[i], x.a.side.Opposite(), PEG_MID);
    SumPositive(pool);
    if PoolReady(x) {
      var m := Min(x.a.qty, pool[0].qty);
      var h := pool[0].Fill(m);
      assert ([h] + pool[1..])[1..] == pool[1..];
      PoolStepKeeps(x, mid);
      PoolSweepFills(PoolStep(x, mid), mid);
    }
  }

  /** The total size, hidden reserve included, of the orders at or better than a limit price. */
  function SizeWithin(side: Side, limit: int, l: seq<OrderValue>): int {
    if l == [] then 0
    else
      (if side == BUY && l[0].price <= limit then l[0].qty
       else if side == SELL && l[0].price >= limit then l[0].qty else 0)
      + SizeWithin(side, limit, l[1..])
  }

  lemma {:induction false} NoneWithin(side: Side, limit: int, l: seq<OrderValue>)
    requires Sorted(l, side.Opposite()) && (l != [] ==> !Marketable(side, limit, l[0].price))
    ensures SizeWithin(side, limit, l) == 0
  {
    if l != [] {
      assert forall i, j :: 0 <= i <= j < |l[1..]| ==> l[1..][i] == l[i + 1] && l[1..][j] == l[j + 1];
      NoneWithin(side, limit, l[1..]);
    }
  }

  lemma {:induction false} ReachIsWithin(side: Side, limit: int, l: seq<OrderValue>)
    requires Sorted(l, side.Opposite())
    ensures SumQty(Reach(side, limit, l)) == SizeWithin(side, limit, l)
  {
    if l != [] && Marketable(side, limit, l[0].price) {
      assert forall i, j :: 0 <= i <= j < |l[1..]| ==> l[1..][i] == l[i + 1] && l[1..][j] == l[j + 1];
      ReachIsWithin(side, limit, l[1..]);
    } else {
      NoneWithin(side, limit, l);
    }
  }

  /** A limit price at or beyond the middle of two prices. */
  predicate AtMiddle(side: Side, limit: int, bid: int, ask: int) {
    if side == BUY then 2 * limit >= bid + ask else 2 * limit <= bid + ask
  }

  /** What an order could trade with, on prices alone: the opposite pegs, while both sides quote, for a peg and for a
      limit order at or beyond their middle; and, for a limit order, all of the opposite side within its limit. */
  lemma LiquidityOnPrices(o: OrderValue, b: Book)
    requires BookOk(b) && Live(o)
    requires b.bids != [] && b.asks != [] ==> b.bids[0].price + b.asks[0].price <= MAX_LONG
    ensures var side := o.side.Opposite();
            Liquidity(o, b)
            == (if b.bids != [] && b.asks != []
                   && (o.ordType == PEG_MID || AtMiddle(o.side, o.price, b.bids[0].price, b.asks[0].price))
                then SumQty(b.Peg(side)) else 0)
               + if o.ordType == PEG_MID then 0 else SizeWithin(o.side, o.price, b.Lit(side))
  {
    MidExists(b);
    ReachIsWithin(o.side, o.price, b.Lit(o.side.Opposite()));
    if b.bids != [] && b.asks != [] {
      MiddleOfTicks(b.bids[0].price, b.asks[0].price);
    }
  }

  lemma MiddleOfTicks(bid: int, ask: int)
    requires IsOnTick(bid) && IsOnTick(ask) && bid + ask <= MAX_LONG
    ensures 2 * TruncDiv(WrapLong(bid + ask), 2) == bid + ask
  {
    EvenHalf(bid + ask, bid / 100 + ask / 100);
  }

  lemma EvenHalf(sum: int, ticks: int)
    requires 0 <= sum <= MAX_LONG && sum == 100 * ticks
    ensures 2 * TruncDiv(WrapLong(sum), 2) == sum
  {
    assert sum == 2 * (50 * ticks);
  }

  /** An admitted order trades min(quantity, liquidity) in all, and a killed one nothing. */
  lemma TotalFilled(v: Venue, o: OrderValue)
    requires BookOk(v.book) && Live(o)
    ensures o.qty - Add(v, o).a.qty == if Killed(v, o) then 0 else Min(o.qty, Liquidity(o, v.book))
  {
    TradedInAll(v, o);
  }

  /** What it trades on its way, before anything becomes of the remainder. */
  lemma TradedInAll(v: Venue, o: OrderValue)
    requires BookOk(v.book) && Live(o)
    ensures Trading(Match(v, o)).a.qty == o.qty - Min(o.qty, Liquidity(o, v.book))
  {
    var x := Match(v, o);
    var side := o.side.Opposite();
    var pool, contra := v.book.Peg(side), v.book.Lit(side);
    assert forall i :: 0 <= i < |pool| ==> Member(pool[i], side, PEG_MID);
    assert forall i :: 0 <= i < |contra| ==> Member(contra[i], side, LIMIT);
    SumPositive(pool);
    ReachCovers(o.side, o.price, contra);
    var y := if TakesPool(o, v.book) then PoolSweep(x, v.book.Mid()) else x;
    if TakesPool(o, v.book) {
      PoolSweepFills(x, v.book.Mid());
      PoolSweepKeeps(x, v.book.Mid());
    }
    if o.ordType == LIMIT {
      SweepFills(y);
    }
  }

  /** Fill-or-kill is all or nothing: covered exactly when the liquidity suffices, and then filled to zero;
      otherwise book and trades are as they were and its whole quantity expires. */
  lemma FillOrKill(v: Venue, o: OrderValue)
    requires BookOk(v.book) && Live(o) && o.qty > 0 && o.tif == FOK
    ensures Liquidity(o, v.book) >= o.qty ==> Add(v, o).a.qty == 0 && Add(v, o).a.status != EXPIRED
    ensures Liquidity(o, v.book) < o.qty ==>
              Add(v, o) == Match(v.(execs := v.execs + [ExpiredExec(o.id, o.qty)]), o)
  {
    if Liquidity(o, v.book) >= o.qty {
      TradedInAll(v, o);
      FilledStatus(Match(v, o));
    }
  }

  /** An order that traded down to zero is marked filled. */
  lemma FilledStatus(x: Match)
    requires BookOk(x.v.book) && Live(x.a) && x.a.qty > 0 && Trading(x).a.qty == 0
    ensures Trading(x).a.status == FILLED
  {
    var y := if TakesPool(x.a, x.v.book) then PoolSweep(x, x.v.book.Mid()) else x;
    if y.a.qty == 0 {
      assert Trading(x) == y;
      PoolFilledStatus(x, x.v.book.Mid());
    } else if x.a.ordType == LIMIT {
      if TakesPool(x.a, x.v.book) {
        PoolSweepKeeps(x, x.v.book.Mid());
      }
      SweepFilledStatus(y);
    }
  }

  lemma {:induction false} PoolFilledStatus(x: Match, mid: int)
    requires x.a.qty > 0 && PoolSweep(x, mid).a.qty == 0
    ensures PoolSweep(x, mid).a.status == FILLED
    decreases |x.v.book.Peg(x.a.side.Opposite())|, x.a.qty
  {
    var s := PoolStep(x, mid);
    if s.a.qty != 0 {
      PoolFilledStatus(s, mid);
    }
  }

  lemma {:induction false} SweepFilledStatus(x: Match)
    requires x.a.qty > 0 && Sweep(x).a.qty == 0
    ensures Sweep(x).a.status == FILLED
    decreases x.a.qty
  {
    var s := LitStep(x);
    if s.a.qty != 0 {
      SweepFilledStatus(s);
    }
  }
}
