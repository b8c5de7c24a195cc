/** Price quality: the midpoint, limits, and the order in which an aggressor meets prices. */
module PriceTheorems {
  import opened Orders
  import opened Bytes
  import opened Matching
  import opened Invariant
  import opened LiquidityTheorems

  /** Halving the sum of the tops loses nothing, the midpoint is a multiple of half a tick and strictly inside the
      spread, if and only if the sum of the tops fits a long; beyond that it wraps and the midpoint is negative. */
  lemma MidIsExact(b: Book)
    requires Shape(b) && Uncrossed(b) && b.bids != [] && b.asks != []
    ensures var bid, ask := b.bids[0].price, b.asks[0].price;
            && (2 * b.Mid() == bid + ask <==> bid + ask <= MAX_LONG)
            && (bid < b.Mid() < ask <==> bid + ask <= MAX_LONG)
            && (b.Mid() < 0 <==> bid + ask > MAX_LONG)
            && (bid + ask <= MAX_LONG ==> b.Mid() % 50 == 0)
  {
    MidExists(b);
    Halved(b.bids[0].price, b.asks[0].price);
  }

  lemma Halved(bid: int, ask: int)
    requires IsOnTick(bid) && IsOnTick(ask) && bid < ask
    ensures var mid := TruncDiv(WrapLong(bid + ask), 2);
            if bid + ask <= MAX_LONG then 2 * mid == bid + ask && mid % 50 == 0 && bid < mid < ask else mid < 0
  {
  }

  /** An order that can trade with the lit book also reaches the midpoint: every buy does, a sell if and only if the sum
      of the tops fits a long. */
  lemma MarketableCrossesMid(b: Book, a: OrderValue)
    requires Shape(b) && Uncrossed(b) && b.bids != [] && b.asks != [] && IsOnTick(a.price)
    requires Marketable(a.side, a.price, b.Lit(a.side.Opposite())[0].price)
    ensures CrossesMid(a.side, a.price, b.Mid()) <==> a.side == BUY || b.bids[0].price + b.asks[0].price <= MAX_LONG
  {
    MidIsExact(b);
    MidExists(b);
  }

  /** The two best prices of a book with one order on each side. */
  ghost predicate Quotes(b: Book, bid: int, ask: int) {
    |b.bids| == 1 && |b.asks| == 1 && b.bids[0].price == bid && b.asks[0].price == ask
  }

  /** Prices the gateway accepts, at which the midpoint is negative: any buy reaches it and no sell does. */
  lemma MidWraps(b: Book, bid: int, ask: int, limit: int)
    requires bid == 4611686018427388000 && ask == 4611686018427388100 && Quotes(b, bid, ask) && IsOnTick(limit)
    ensures ParsePrice(FormatPrice(bid)) == bid && ParsePrice(FormatPrice(ask)) == ask
    ensures b.Mid() == -4611686018427387758
    ensures CrossesMid(BUY, limit, b.Mid()) && !CrossesMid(SELL, limit, b.Mid())
  {
    PriceRoundTrip(bid);
    PriceRoundTrip(ask);
    WrappedHalf(bid + ask);
  }

  lemma WrappedHalf(sum: int)
    requires sum == 9223372036854776100
    ensures TruncDiv(WrapLong(sum), 2) == -4611686018427387758
  {
  }

  /** Fills of one aggressor, each within its limit, none better for it than the one before. */
  ghost predicate Worsening(a: OrderValue, fills: seq<Exec>) {
    && (forall i :: 0 <= i < |fills| ==>
          IsFill(fills[i]) && fills[i].aggressor == fills[i].orderId == a.id && fills[i].filled > 0)
    && (forall i, j :: 0 <= i <= j < |fills| ==> AtLeast(a.side.Opposite(), fills[i].price, fills[j].price))
  }

  ghost predicate Within(a: OrderValue, fills: seq<Exec>) {
    forall i :: 0 <= i < |fills| ==> Marketable(a.side, a.price, fills[i].price)
  }

  /** Every fill so far is at least as good for the aggressor as p. */
  ghost predicate NoWorse(a: OrderValue, fills: seq<Exec>, p: int) {
    forall i :: 0 <= i < |fills| ==> AtLeast(a.side.Opposite(), fills[i].price, p)
  }

  lemma {:induction false} SweepPrices(x: Match, n: nat)
    requires BookOk(x.v.book) && Live(x.a) && n <= |x.v.execs|
    requires Worsening(x.a, x.v.execs[n..]) && Within(x.a, x.v.execs[n..])
    requires var c := x.v.book.Lit(x.a.side.Opposite()); c != [] ==> NoWorse(x.a, x.v.execs[n..], c[0].price)
    ensures n <= |Sweep(x).v.execs| && x.v.execs[..n] == Sweep(x).v.execs[..n]
    ensures Worsening(x.a, Sweep(x).v.execs[n..]) && Within(x.a, Sweep(x).v.execs[n..])
    ensures x.v.execs <= Sweep(x).v.execs
    decreases x.a.qty
  {
    if LitReady(x) {
      var y := LitStep(x);
      var c := x.v.book.Lit(x.a.side.Opposite());
      assert Member(c[0], x.a.side.Opposite(), LIMIT);
      LitStepKeeps(x);
      AfterFillKeeps(c, Min(x.a.qty, c[0].visible), x.a.side.Opposite());
      var e := y.v.execs[|x.v.execs|];
      assert y.v.execs[n..] == x.v.execs[n..] + [e];
      SweepPrices(y, n);
    }
  }

  lemma {:induction false} PoolPrices(x: Match, mid: int, n: nat)
    requires BookOk(x.v.book) && Live(x.a) && n <= |x.v.execs|
    requires Worsening(x.a, x.v.execs[n..]) && forall i :: n <= i < |x.v.execs| ==> x.v.execs[i].price == mid
    ensures n <= |PoolSweep(x, mid).v.execs| && x.v.execs <= PoolSweep(x, mid).v.execs
    ensures var z := PoolSweep(x, mid).v.execs;
            Worsening(x.a, z[n..]) && forall i :: n <= i < |z| ==> z[i].price == mid
    decreases |x.v.book.Peg(x.a.side.Opposite())|, x.a.qty
  {
    if PoolReady(x) {
      var y := PoolStep(x, mid);
      var c := x.v.book.Peg(x.a.side.Opposite());
      assert Member(c[0], x.a.side.Opposite(), PEG_MID);
      PoolStepKeeps(x, mid);
      assert y.v.execs[n..] == x.v.execs[n..] + [y.v.execs[|x.v.execs|]];
      PoolPrices(y, mid, n);
    }
  }

  /** Every fill from the n-th report on is of one of these orders. */
  ghost predicate Against(execs: seq<Exec>, n: nat, ids: set<int>) {
    forall i :: n <= i < |execs| ==> execs[i].passive in ids
  }

  lemma {:induction false} PoolPassives(x: Match, mid: int, n: nat, ids: set<int>)
    requires BookOk(x.v.book) && Live(x.a) && Against(x.v.execs, n, ids)
    requires Ids(x.v.book.Peg(x.a.side.Opposite())) <= ids
    ensures Against(PoolSweep(x, mid).v.execs, n, ids)
    decreases |x.v.book.Peg(x.a.side.Opposite())|, x.a.qty
  {
    if PoolReady(x) {
      var c := x.v.book.Peg(x.a.side.Opposite());
      assert Member(c[0], x.a.side.Opposite(), PEG_MID) && c[0] in c;
      PoolStepKeeps(x, mid);
      AfterPoolFillKeeps(c, Min(x.a.qty, c[0].qty), x.a.side.Opposite());
      PoolPassives(PoolStep(x, mid), mid, n, ids);
    }
  }

  lemma {:induction false} SweepPassives(x: Match, n: nat, ids: set<int>)
    requires BookOk(x.v.book) && Live(x.a) && Against(x.v.execs, n, ids)
    requires Ids(x.v.book.Lit(x.a.side.Opposite())) <= ids
    ensures Against(Sweep(x).v.execs, n, ids)
    decreases x.a.qty
  {
    if LitReady(x) {
      var c := x.v.book.Lit(x.a.side.Opposite());
      assert Member(c[0], x.a.side.Opposite(), LIMIT) && c[0] in c;
      LitStepKeeps(x);
      AfterFillKeeps(c, Min(x.a.qty, c[0].visible), x.a.side.Opposite());
      SweepPassives(LitStep(x), n, ids);
    }
  }

  /** The first part of the fills prints at the midpoint against waiting pegs, the rest trades with the lit side. */
  ghost predicate PegsFirst(v: Venue, side: Side, fills: seq<Exec>, k: nat) {
    && k <= |fills|
    && (forall i :: 0 <= i < k ==> fills[i].price == v.book.Mid() && fills[i].passive in Ids(v.book.Peg(side)))
    && (forall i :: k <= i < |fills| ==> fills[i].passive in Ids(v.book.Lit(side)))
  }

  lemma FillsFromParts(v: Venue, side: Side, mid: seq<Exec>, all: seq<Exec>)
    requires v.execs <= mid <= all
    requires Against(mid, |v.execs|, Ids(v.book.Peg(side))) && Against(all, |mid|, Ids(v.book.Lit(side)))
    requires forall i :: |v.execs| <= i < |mid| ==> mid[i].price == v.book.Mid()
    ensures PegsFirst(v, side, all[|v.execs|..], |mid| - |v.execs|)
  {
    var n, fills := |v.execs|, all[|v.execs|..];
    assert forall i :: 0 <= i < |fills| ==> fills[i] == all[n + i];
  }

  /** The fills an incoming order makes: peg fills at the midpoint come first, then lit fills, each no better for it
      than the one before; and a limit order never trades beyond its limit. */
  lemma FillPrices(v: Venue, o: OrderValue) returns (pegFills: nat)
    requires BookOk(v.book) && Live(o)
    ensures v.execs <= Trading(Match(v, o)).v.execs
    ensures var fills := Trading(Match(v, o)).v.execs[|v.execs|..];
            && PegsFirst(v, o.side.Opposite(), fills, pegFills)
            && Worsening(o, fills)
            && (o.ordType == LIMIT ==> Within(o, fills))
            && (o.ordType == PEG_MID ==> pegFills == |fills|)
  {
    pegFills := FirstPegs(v, o);
    FillsWorsen(v, o);
  }

  lemma FirstPegs(v: Venue, o: OrderValue) returns (k: nat)
    requires BookOk(v.book) && Live(o)
    ensures v.execs <= Trading(Match(v, o)).v.execs
    ensures var fills := Trading(Match(v, o)).v.execs[|v.execs|..];
            PegsFirst(v, o.side.Opposite(), fills, k) && (o.ordType == PEG_MID ==> k == |fills|)
  {
    var x, n, side := Match(v, o), |v.execs|, o.side.Opposite();
    var y := if TakesPool(o, v.book) then PoolSweep(x, v.book.Mid()) else x;
    assert v.execs[n..] == [];
    if TakesPool(o, v.book) {
      PoolPrices(x, v.book.Mid(), n);
      PoolPassives(x, v.book.Mid(), n, Ids(v.book.Peg(side)));
      PoolSweepKeeps(x, v.book.Mid());
    }
    k := |y.v.execs| - n;
    if o.ordType == LIMIT {
      SweepPassives(y, |y.v.execs|, Ids(v.book.Lit(side)));
      SweepGrows(y);
    }
    FillsFromParts(v, side, y.v.execs, Trading(x).v.execs);
  }

  lemma {:induction false} SweepGrows(x: Match)
    ensures x.v.execs <= Sweep(x).v.execs
    decreases x.a.qty
  {
    if LitReady(x) {
      SweepGrows(LitStep(x));
    }
  }

  lemma FillsWorsen(v: Venue, o: OrderValue)
    requires BookOk(v.book) && Live(o)
    ensures v.execs <= Trading(Match(v, o)).v.execs
    ensures var fills := Trading(Match(v, o)).v.execs[|v.execs|..];
            Worsening(o, fills) && (o.ordType == LIMIT ==> Within(o, fills))
  {
    var x, n := Match(v, o), |v.execs|;
    assert v.execs[n..] == [];
    var y := if TakesPool(o, v.book) then PoolSweep(x, v.book.Mid()) else x;
    if TakesPool(o, v.book) {
      PoolPrices(x, v.book.Mid(), n);
      PoolSweepKeeps(x, v.book.Mid());
      MidIsExact(v.book);
      assert forall i :: 0 <= i < |y.v.execs[n..]| ==> y.v.execs[n..][i] == y.v.execs[n + i];
    }
    if o.ordType == LIMIT {
      SweepPrices(y, n);
    }
  }

  // ---------- The opposite pool, on prices alone ----------

  lemma {:induction false} PoolSweepLeaves(x: Match, mid: int)
    requires BookOk(x.v.book) && Live(x.a)
    ensures var pool := x.v.book.Peg(x.a.side.Opposite());
            SumQty(PoolSweep(x, mid).v.book.Peg(x.a.side.Opposite())) == SumQty(pool) - Min(x.a.qty, SumQty(pool))
    decreases |x.v.book.Peg(x.a.side.Opposite())|, x.a.qty
  {
    var pool := x.v.book.Peg(x.a.side.Opposite());
    assert forall i :: 0 <= i < |pool| ==> Member(pool[i], x.a.side.Opposite(), PEG_MID);
    SumPositive(pool);
    if PoolReady(x) {
      var m := Min(x.a.qty, pool[0].qty);
      assert ([pool[0].Fill(m)] + pool[1..])[1..] == pool[1..];
      PoolStepKeeps(x, mid);
      PoolSweepLeaves(PoolStep(x, mid), mid);
    }
  }

  lemma {:induction false} PoolSweepGrows(x: Match, mid: int)
    ensures x.v.execs <= PoolSweep(x, mid).v.execs
    decreases |x.v.book.Peg(x.a.side.Opposite())|, x.a.qty
  {
    if PoolReady(x) {
      PoolSweepGrows(PoolStep(x, mid), mid);
    }
  }

  lemma {:induction false} SweepLeavesPool(x: Match)
    requires BookOk(x.v.book) && Live(x.a)
    ensures Sweep(x).v.book.Peg(x.a.side.Opposite()) == x.v.book.Peg(x.a.side.Opposite())
  {
    SweepKeeps(x);
  }

  /** With both sides quoting, a limit order that rests brings no pool cross about. */
  lemma NoCrossWhileQuoted(v: Venue, o: OrderValue)
    requires BookOk(v.book) && Live(o) && o.ordType == LIMIT && !Killed(v, o)
    requires v.book.bids != [] && v.book.asks != [] && v.book.Peg(o.side.Opposite()) != []
    ensures var z := Trading(Match(v, o));
            && z.v.execs <= Add(v, o).v.execs && |Add(v, o).v.execs| <= |z.v.execs| + 1
            && Add(v, o).v.book.Peg(o.side.Opposite()) == z.v.book.Peg(o.side.Opposite())
            && (z.a.qty == 0 ==> Add(v, o).v.execs == z.v.execs)
  {
    var z := Trading(Match(v, o));
    TradingKeeps(Match(v, o));
    MidExists(v.book);
    assert v.book.Peg(o.side) == [];
    assert Dispose(z).v.book.Peg(o.side) == [];
  }

  /** What the first fill and the opposite pool look like if the order reaches the middle. */
  ghost predicate TakesPegsFirst(v: Venue, o: OrderValue, w: Venue)
    requires v.book.bids != [] && v.book.asks != []
  {
    var pool, n := v.book.Peg(o.side.Opposite()), |v.execs|;
    && pool != [] && v.execs <= w.execs && n < |w.execs|
    && var e := w.execs[n];
       && IsFill(e) && e.aggressor == o.id && e.passive == pool[0].id && e.filled == Min(o.qty, pool[0].qty)
       && 2 * e.price == v.book.bids[0].price + v.book.asks[0].price
       && SumQty(w.book.Peg(o.side.Opposite())) == SumQty(pool) - Min(o.qty, SumQty(pool))
  }

  /** What they look like if it does not. */
  ghost predicate LeavesPegs(v: Venue, o: OrderValue, w: Venue)
    requires v.book.bids != [] && v.book.asks != []
  {
    && w.book.Peg(o.side.Opposite()) == v.book.Peg(o.side.Opposite())
    && v.execs <= w.execs
    && forall i :: |v.execs| <= i < |w.execs| && IsFill(w.execs[i]) ==>
         w.execs[i].passive in Ids(v.book.Lit(o.side.Opposite()))
  }

  /** A limit order takes the waiting pegs of the other side, first and at the exact middle of the quotes, if and only
      if its price is at the middle or beyond; otherwise it passes them by. */
  lemma PegsAtTheMiddle(v: Venue, o: OrderValue)
    requires BookOk(v.book) && Live(o) && o.qty > 0 && o.ordType == LIMIT && !Killed(v, o)
    requires v.book.bids != [] && v.book.asks != [] && v.book.Peg(o.side.Opposite()) != []
    requires v.book.bids[0].price + v.book.asks[0].price <= MAX_LONG
    ensures AtMiddle(o.side, o.price, v.book.bids[0].price, v.book.asks[0].price) ==> TakesPegsFirst(v, o, Add(v, o).v)
    ensures !AtMiddle(o.side, o.price, v.book.bids[0].price, v.book.asks[0].price) ==> LeavesPegs(v, o, Add(v, o).v)
  {
    MidIsExact(v.book);
    MidExists(v.book);
    NoCrossWhileQuoted(v, o);
    if AtMiddle(o.side, o.price, v.book.bids[0].price, v.book.asks[0].price) {
      PegsTaken(v, o);
    } else {
      PegsLeft(v, o);
    }
  }

  lemma PegsTaken(v: Venue, o: OrderValue)
    requires BookOk(v.book) && Live(o) && o.qty > 0 && o.ordType == LIMIT && TakesPool(o, v.book)
    requires v.book.Peg(o.side.Opposite()) != [] && v.book.bids != [] && v.book.asks != []
    requires 2 * v.book.Mid() == v.book.bids[0].price + v.book.asks[0].price
    ensures TakesPegsFirst(v, o, Trading(Match(v, o)).v)
  {
    var x, mid := Match(v, o), v.book.Mid();
    var pool := v.book.Peg(o.side.Opposite());
    assert Member(pool[0], o.side.Opposite(), PEG_MID);
    PoolSweepGrows(PoolStep(x, mid), mid);
    PoolSweepLeaves(x, mid);
    PoolSweepKeeps(x, mid);
    SweepGrows(PoolSweep(x, mid));
    SweepLeavesPool(PoolSweep(x, mid));
  }

  lemma PegsLeft(v: Venue, o: OrderValue)
    requires BookOk(v.book) && Live(o) && o.ordType == LIMIT && !Killed(v, o) && !TakesPool(o, v.book)
    requires v.book.Peg(o.side.Opposite()) != [] && v.book.bids != [] && v.book.asks != []
    ensures LeavesPegs(v, o, Add(v, o).v)
  {
    var x, n := Match(v, o), |v.execs|;
    NoCrossWhileQuoted(v, o);
    SweepPassives(x, n, Ids(v.book.Lit(o.side.Opposite())));
    SweepGrows(x);
    SweepLeavesPool(x);
    RemainderNoFill(v, o);
  }

  lemma RemainderNoFill(v: Venue, o: OrderValue)
    requires BookOk(v.book) && Live(o) && o.ordType == LIMIT && !Killed(v, o)
    requires v.book.bids != [] && v.book.asks != [] && v.book.Peg(o.side.Opposite()) != []
    ensures var z := Trading(Match(v, o)).v.execs;
            z <= Add(v, o).v.execs && forall i :: |z| <= i < |Add(v, o).v.execs| ==> !IsFill(Add(v, o).v.execs[i])
  {
    NoCrossWhileQuoted(v, o);
    TradingKeeps(Match(v, o));
    MidExists(v.book);
    assert v.book.Peg(o.side) == [];
    assert Dispose(Trading(Match(v, o))).v.book.Peg(o.side) == [];
  }
}
