/** How many fills an order can make: iceberg slices are used up one at a time. */
module Slices {
  import opened Orders
  import opened Matching
  import opened Invariant
  import opened LiquidityTheorems

  /** The displayed slice now, plus every slice the reserve will still reload. */
  function SlicesOf(o: OrderValue): int {
    if o.peak <= 0 then 1 else 1 + (o.qty - o.visible + o.peak - 1) / o.peak
  }

  function SumSlices(l: seq<OrderValue>): int {
    if l == [] then 0 else SlicesOf(l[0]) + SumSlices(l[1..])
  }

  /** All slices an aggressor can reach. */
  function SlicesInReach(x: Match): int {
    SumSlices(Reach(x.a.side, x.a.price, x.v.book.Lit(x.a.side.Opposite())))
  }

  lemma DivStep(n: int, p: int)
    requires p > 0
    ensures (n + p) / p == n / p + 1
  {
    var q, r := n / p, n % p;
    assert n + p == (q + 1) * p + r;
    QuotientUnique(n + p, p, q + 1, r);
  }

  lemma QuotientUnique(n: int, p: int, q: int, r: int)
    requires p > 0 && n == q * p + r && 0 <= r < p
    ensures n / p == q
  {
    var d := n / p - q;
    assert d * p == r - n % p;
    assert d >= 1 ==> d * p >= p;
    assert d <= -1 ==> d * p <= -p;
  }

  /** Reloading an exhausted tip uses up exactly one slice. */
  lemma ReloadSlices(o: OrderValue)
    requires OrderOk(o) && o.visible < o.qty
    ensures SlicesOf(o.Fill(o.visible).Refresh()) == SlicesOf(o) - 1
  {
    var r, p := o.qty - o.visible, o.peak;
    DivStep(r - 1, p);
    assert r - 1 + p == r + p - 1;
    if r <= p {
      QuotientUnique(p - 1, p, 0, p - 1);
      QuotientUnique(r - 1, p, 0, r - 1);
    }
  }

  lemma {:induction false} SlicesInsert(side: Side, limit: int, l: seq<OrderValue>, o: OrderValue)
    requires o.side == side.Opposite() && Marketable(side, limit, o.price)
    ensures SumSlices(Reach(side, limit, Insert(l, o))) == SumSlices(Reach(side, limit, l)) + SlicesOf(o)
  {
    InsertUnfolds(l, o);
    if l != [] && AtLeast(o.side, l[0].price, o.price) {
      SlicesInsert(side, limit, l[1..], o);
      assert ([l[0]] + Insert(l[1..], o))[1..] == Insert(l[1..], o);
    } else {
      assert ([o] + l)[1..] == l;
    }
  }

  /** A fill that takes a whole slice lowers the count by one, a smaller one leaves it. */
  lemma {:induction false} SlicesAfterFill(side: Side, limit: int, l: seq<OrderValue>, m: int)
    requires LitOk(l, side.Opposite()) && l != [] && Marketable(side, limit, l[0].price) && 0 < m <= l[0].visible
    ensures SumSlices(Reach(side, limit, AfterFill(l, m)))
            == SumSlices(Reach(side, limit, l)) - if m == l[0].visible then 1 else 0
  {
    var o := l[0];
    assert Member(o, side.Opposite(), LIMIT);
    var h := o.Fill(m);
    if h.qty == 0 {
      if o.peak > 0 {
        QuotientUnique(o.peak - 1, o.peak, 0, o.peak - 1);
      }
    } else if h.visible == 0 {
      ReloadSlices(o);
      SlicesInsert(side, limit, l[1..], h.Refresh());
    } else {
      assert ([h] + l[1..])[1..] == l[1..];
    }
  }

  /** An iteration that does not exhaust the aggressor lowers the reachable slices by exactly one. */
  lemma LitStepSlices(x: Match)
    requires LitReady(x) && BookOk(x.v.book) && Live(x.a)
    ensures LitStep(x).a.qty > 0 ==> SlicesInReach(LitStep(x)) == SlicesInReach(x) - 1
    ensures SlicesInReach(x) - 1 <= SlicesInReach(LitStep(x)) <= SlicesInReach(x)
  {
    var c := x.v.book.Lit(x.a.side.Opposite());
    assert Member(c[0], x.a.side.Opposite(), LIMIT);
    SlicesAfterFill(x.a.side, x.a.price, c, Min(x.a.qty, c[0].visible));
  }

  lemma {:induction false} SlicesPositive(side: Side, limit: int, l: seq<OrderValue>)
    requires forall i :: 0 <= i < |l| ==> OrderOk(l[i])
    ensures SumSlices(Reach(side, limit, l)) >= |Reach(side, limit, l)|
  {
    if l != [] && Marketable(side, limit, l[0].price) {
      var o := l[0];
      if o.peak > 0 {
        assert (o.qty - o.visible + o.peak - 1) / o.peak >= 0 by {
          DivNonNegative(o.qty - o.visible + o.peak - 1, o.peak);
        }
      }
      SlicesPositive(side, limit, l[1..]);
    }
  }

  lemma DivNonNegative(n: int, p: int)
    requires n >= 0 && p > 0
    ensures n / p >= 0
  {
  }

  /** A sweep makes as many fills as it uses up slices, and one more if its last fill left a slice in part:
      never more than the slices in reach, and all of them when it drains its reach. */
  lemma {:induction false} SweepFillCount(x: Match)
    requires BookOk(x.v.book) && Live(x.a)
    ensures var n := |Sweep(x).v.execs| - |x.v.execs|;
            var used := SlicesInReach(x) - SlicesInReach(Sweep(x));
            && used <= n <= used + 1 && n <= SlicesInReach(x)
            && (Sweep(x).a.qty > 0 ==> n == SlicesInReach(x) && SlicesInReach(Sweep(x)) == 0)
            && (SlicesInReach(Sweep(x)) == 0 ==> n == SlicesInReach(x))
    decreases x.a.qty
  {
    var c := x.v.book.Lit(x.a.side.Opposite());
    assert forall i :: 0 <= i < |c| ==> Member(c[i], x.a.side.Opposite(), LIMIT);
    SlicesPositive(x.a.side, x.a.price, c);
    if LitReady(x) {
      LitStepKeeps(x);
      LitStepSlices(x);
      SweepFillCount(LitStep(x));
      var y := LitStep(x);
      if y.a.qty == 0 {
        var d := y.v.book.Lit(x.a.side.Opposite());
        assert forall i :: 0 <= i < |d| ==> Member(d[i], x.a.side.Opposite(), LIMIT);
        SlicesPositive(x.a.side, x.a.price, d);
      }
    }
  }
}
