/** Price-time priority: a lit side behaves like an unordered pool of orders from which each trade takes the best
    price, and among equal prices the order queued longest ago. */
module PriceTime {
  import opened Orders
  import opened Matching
  import opened Invariant

  /** Orders by the moment they last queued. */
  datatype Pool = Pool(at: map<nat, OrderValue>, clock: nat)

  ghost predicate Precedes(side: Side, p: Pool, s: nat, t: nat)
    requires s in p.at && t in p.at
  {
    AtLeast(side, p.at[s].price, p.at[t].price) && (p.at[s].price == p.at[t].price ==> s < t)
  }

  ghost predicate IsFirst(side: Side, p: Pool, s: nat) {
    s in p.at && forall t :: t in p.at && t != s ==> Precedes(side, p, s, t)
  }

  ghost function Arrive(p: Pool, o: OrderValue): Pool {
    Pool(p.at[p.clock := o], p.clock + 1)
  }

  ghost function Withdraw(p: Pool, id: int): Pool {
    p.(at := map s | s in p.at && p.at[s].id != id :: p.at[s])
  }

  /** The order at s trades m: it leaves, reloads with a fresh queue time, or keeps its place. */
  ghost function Trade(p: Pool, s: nat, m: int): Pool
    requires s in p.at
  {
    var h := p.at[s].Fill(m);
    if h.qty == 0 then p.(at := p.at - {s})
    else if h.visible == 0 then Arrive(p.(at := p.at - {s}), h.Refresh())
    else p.(at := p.at[s := h])
  }

  datatype Deal = Deal(passive: int, price: int, qty: int)

  datatype Outcome = Outcome(p: Pool, a: OrderValue, deals: seq<Deal>)

  /** The order at s is the first of the pool, and a can trade with it. */
  ghost predicate CanHit(side: Side, p: Pool, a: OrderValue, s: nat) {
    IsFirst(side, p, s) && Marketable(a.side, a.price, p.at[s].price) && p.at[s].visible > 0
  }

  /** The incoming order a repeatedly trades with the first order of the pool, while that is marketable. */
  ghost function Hit(side: Side, p: Pool, a: OrderValue): Outcome
    decreases a.qty
  {
    if a.qty > 0 && exists s :: CanHit(side, p, a, s) then
      var s :| CanHit(side, p, a, s);
      var m := Min(a.qty, p.at[s].visible);
      var rest := Hit(side, Trade(p, s, m), a.Fill(m));
      rest.(deals := [Deal(p.at[s].id, p.at[s].price, m)] + rest.deals)
    else Outcome(p, a, [])
  }

  ghost predicate Linked(l: seq<OrderValue>, stamps: seq<nat>, p: Pool) {
    && |stamps| == |l|
    && forall i :: 0 <= i < |l| ==> stamps[i] in p.at && p.at[stamps[i]] == l[i] && stamps[i] < p.clock
  }

  ghost predicate Complete(stamps: seq<nat>, p: Pool) {
    forall s :: s in p.at ==> s in stamps
  }

  /** a, queued at s, trades before b, queued at t. */
  ghost predicate Outranks(side: Side, a: OrderValue, s: nat, b: OrderValue, t: nat) {
    s != t && AtLeast(side, a.price, b.price) && (a.price == b.price ==> s < t)
  }

  ghost predicate Ranked(side: Side, l: seq<OrderValue>, stamps: seq<nat>)
    requires |stamps| == |l|
  {
    forall i, j :: 0 <= i < j < |l| ==> Outranks(side, l[i], stamps[i], l[j], stamps[j])
  }

  /** The list l, queued at the given moments, is the pool in priority order. */
  ghost predicate InOrder(side: Side, l: seq<OrderValue>, stamps: seq<nat>, p: Pool) {
    Linked(l, stamps, p) && Complete(stamps, p) && Ranked(side, l, stamps)
  }

  lemma FirstIsHead(side: Side, l: seq<OrderValue>, stamps: seq<nat>, p: Pool)
    requires InOrder(side, l, stamps, p)
    ensures forall s :: IsFirst(side, p, s) <==> l != [] && s == stamps[0]
  {
    forall j | 0 < j < |l|
      ensures !Precedes(side, p, stamps[j], stamps[0])
    {
    }
    forall s
      ensures IsFirst(side, p, s) <==> l != [] && s == stamps[0]
    {
      if l != [] && s == stamps[0] {
        forall t | t in p.at && t != s
          ensures Precedes(side, p, s, t)
        {
          var j :| 0 <= j < |stamps| && stamps[j] == t;
        }
      }
      if IsFirst(side, p, s) {
        var j :| 0 <= j < |stamps| && stamps[j] == s;
      }
    }
  }

  lemma HeadGone(side: Side, l: seq<OrderValue>, stamps: seq<nat>, p: Pool)
    requires InOrder(side, l, stamps, p) && l != []
    ensures InOrder(side, l[1..], stamps[1..], p.(at := p.at - {stamps[0]}))
  {
    var q := p.(at := p.at - {stamps[0]});
    forall s | s in q.at
      ensures s in stamps[1..]
    {
      var j :| 0 <= j < |stamps| && stamps[j] == s;
      assert stamps[1..][j - 1] == s;
    }
  }

  lemma HeadRanks(side: Side, l: seq<OrderValue>, stamps: seq<nat>, h: OrderValue)
    requires l != [] && |stamps| == |l| && Ranked(side, l, stamps) && h.price == l[0].price
    ensures Ranked(side, [h] + l[1..], stamps)
  {
    var r := [h] + l[1..];
    assert forall i :: 0 <= i < |r| ==> r[i].price == l[i].price;
  }

  lemma HeadLinks(l: seq<OrderValue>, stamps: seq<nat>, p: Pool, h: OrderValue)
    requires l != [] && Linked(l, stamps, p) && forall i :: 0 < i < |stamps| ==> stamps[i] != stamps[0]
    ensures Linked([h] + l[1..], stamps, p.(at := p.at[stamps[0] := h]))
  {
    assert forall i :: 0 < i < |l| ==> ([h] + l[1..])[i] == l[i];
  }

  lemma HeadChanged(side: Side, l: seq<OrderValue>, stamps: seq<nat>, p: Pool, h: OrderValue)
    requires InOrder(side, l, stamps, p) && l != [] && h.price == l[0].price
    ensures InOrder(side, [h] + l[1..], stamps, p.(at := p.at[stamps[0] := h]))
  {
    HeadRanks(side, l, stamps, h);
    HeadLinks(l, stamps, p, h);
    assert stamps[0] in stamps;
  }

  lemma InsertLinks(l: seq<OrderValue>, stamps: seq<nat>, p: Pool, o: OrderValue, k: nat)
    requires Linked(l, stamps, p) && Complete(stamps, p) && k <= |l|
    ensures var after := stamps[..k] + [p.clock] + stamps[k..];
            Linked(l[..k] + [o] + l[k..], after, Arrive(p, o)) && Complete(after, Arrive(p, o))
  {
    var after, q := stamps[..k] + [p.clock] + stamps[k..], Arrive(p, o);
    assert after[k] == p.clock;
    forall s | s in q.at
      ensures s in after
    {
      if s != p.clock {
        var j :| 0 <= j < |stamps| && stamps[j] == s;
        assert after[if j < k then j else j + 1] == s;
      }
    }
  }

  lemma InsertRanks(side: Side, l: seq<OrderValue>, stamps: seq<nat>, now: nat, o: OrderValue)
    requires |stamps| == |l| && Ranked(side, l, stamps) && Sorted(l, side) && o.side == side
    requires forall i :: 0 <= i < |l| ==> stamps[i] < now
    ensures var k := Place(l, o);
            var after := stamps[..k] + [now] + stamps[k..];
            |Insert(l, o)| == |after| && Ranked(side, Insert(l, o), after)
  {
    var k, r := Place(l, o), Insert(l, o);
    var after := stamps[..k] + [now] + stamps[k..];
    InsertAt(l, o);
    assert forall i :: k <= i < |l| ==> !AtLeast(side, l[i].price, o.price) by {
      assert forall i :: k <= i < |l| ==> AtLeast(side, l[k].price, l[i].price);
    }
    forall i, j | 0 <= i < j < |r|
      ensures Outranks(side, r[i], after[i], r[j], after[j])
    {
      StampAt(stamps, now, k, i);
      StampAt(stamps, now, k, j);
      if i != k && j != k {
        var i', j' := if i < k then i else i - 1, if j < k then j else j - 1;
        assert Outranks(side, l[i'], stamps[i'], l[j'], stamps[j']);
      }
    }
  }

  lemma StampAt(stamps: seq<nat>, now: nat, k: nat, i: nat)
    requires k <= |stamps| && i <= |stamps|
    ensures (stamps[..k] + [now] + stamps[k..])[i]
            == if i < k then stamps[i] else if i == k then now else stamps[i - 1]
  {
  }

  /** Queueing behind every equal or better price is arriving now. */
  lemma InsertIsArrival(side: Side, l: seq<OrderValue>, stamps: seq<nat>, p: Pool, o: OrderValue)
    returns (after: seq<nat>)
    requires InOrder(side, l, stamps, p) && o.side == side && Sorted(l, side)
    ensures InOrder(side, Insert(l, o), after, Arrive(p, o))
  {
    after := stamps[..Place(l, o)] + [p.clock] + stamps[Place(l, o)..];
    InsertLinks(l, stamps, p, o, Place(l, o));
    InsertRanks(side, l, stamps, p.clock, o);
  }

  lemma RemoveLinks(l: seq<OrderValue>, stamps: seq<nat>, p: Pool, k: nat)
    requires Linked(l, stamps, p) && Complete(stamps, p) && k < |l| && NoDup(l)
    ensures var after := stamps[..k] + stamps[k + 1..];
            Linked(l[..k] + l[k + 1..], after, Withdraw(p, l[k].id)) && Complete(after, Withdraw(p, l[k].id))
  {
    RemoveLinked(l, stamps, p, k);
    RemoveCompletes(l, stamps, p, k);
  }

  lemma RemoveLinked(l: seq<OrderValue>, stamps: seq<nat>, p: Pool, k: nat)
    requires Linked(l, stamps, p) && k < |l| && NoDup(l)
    ensures Linked(l[..k] + l[k + 1..], stamps[..k] + stamps[k + 1..], Withdraw(p, l[k].id))
  {
    var r, after := l[..k] + l[k + 1..], stamps[..k] + stamps[k + 1..];
    assert forall i :: 0 <= i < |r| ==> r[i] == l[if i < k then i else i + 1]
                                           && after[i] == stamps[if i < k then i else i + 1];
  }

  lemma RemoveCompletes(l: seq<OrderValue>, stamps: seq<nat>, p: Pool, k: nat)
    requires Linked(l, stamps, p) && Complete(stamps, p) && k < |l|
    ensures Complete(stamps[..k] + stamps[k + 1..], Withdraw(p, l[k].id))
  {
    var after := stamps[..k] + stamps[k + 1..];
    forall s | s in Withdraw(p, l[k].id).at
      ensures s in after
    {
      var j :| 0 <= j < |stamps| && stamps[j] == s;
      assert after[if j < k then j else j - 1] == s;
    }
  }

  lemma RemoveRanks(side: Side, l: seq<OrderValue>, stamps: seq<nat>, k: nat)
    requires |stamps| == |l| && Ranked(side, l, stamps) && k < |l|
    ensures Ranked(side, l[..k] + l[k + 1..], stamps[..k] + stamps[k + 1..])
  {
    var r, after := l[..k] + l[k + 1..], stamps[..k] + stamps[k + 1..];
    assert forall i :: 0 <= i < |r| ==> r[i] == l[if i < k then i else i + 1]
                                           && after[i] == stamps[if i < k then i else i + 1];
  }

  /** A cancel leaves everyone else's place alone. */
  lemma RemoveIsWithdrawal(side: Side, l: seq<OrderValue>, stamps: seq<nat>, p: Pool, id: int) returns (after: seq<nat>)
    requires InOrder(side, l, stamps, p) && NoDup(l)
    ensures InOrder(side, Remove(l, id), after, Withdraw(p, id))
  {
    if id in Ids(l) {
      var k := RemoveIsSlice(l, id);
      after := stamps[..k] + stamps[k + 1..];
      RemoveLinks(l, stamps, p, k);
      RemoveRanks(side, l, stamps, k);
    } else {
      RemoveAbsent(l, id);
      WithdrawAbsent(l, stamps, p, id);
      after := stamps;
    }
  }

  lemma WithdrawAbsent(l: seq<OrderValue>, stamps: seq<nat>, p: Pool, id: int)
    requires Linked(l, stamps, p) && Complete(stamps, p) && id !in Ids(l)
    ensures Withdraw(p, id) == p
  {
    forall s | s in p.at
      ensures p.at[s].id != id
    {
      var j :| 0 <= j < |stamps| && stamps[j] == s;
      assert l[j] in l;
    }
    assert Withdraw(p, id).at == p.at;
  }

  lemma TradeKeepsOrder(side: Side, l: seq<OrderValue>, stamps: seq<nat>, p: Pool, m: int) returns (after: seq<nat>)
    requires InOrder(side, l, stamps, p) && LitOk(l, side) && l != []
    ensures InOrder(side, AfterFill(l, m), after, Trade(p, stamps[0], m))
  {
    var h := l[0].Fill(m);
    assert Member(l[0], side, LIMIT);
    if h.qty == 0 {
      HeadGone(side, l, stamps, p);
      after := stamps[1..];
    } else if h.visible == 0 {
      HeadGone(side, l, stamps, p);
      after := InsertIsArrival(side, l[1..], stamps[1..], p.(at := p.at - {stamps[0]}), h.Refresh());
    } else {
      HeadChanged(side, l, stamps, p, h);
      after := stamps;
    }
  }

  /** The fills of a stretch of reports, as deals. */
  function Deals(execs: seq<Exec>): seq<Deal> {
    if execs == [] then [] else [Deal(execs[0].passive, execs[0].price, execs[0].filled)] + Deals(execs[1..])
  }

  /** Hit, one deal at a time: the first order of the pool is the head of the list. */
  lemma HitUnfolds(side: Side, l: seq<OrderValue>, stamps: seq<nat>, p: Pool, a: OrderValue)
    requires InOrder(side, l, stamps, p)
    ensures if a.qty > 0 && l != [] && Marketable(a.side, a.price, l[0].price) && l[0].visible > 0
            then var m := Min(a.qty, l[0].visible);
                 var rest := Hit(side, Trade(p, stamps[0], m), a.Fill(m));
                 Hit(side, p, a) == rest.(deals := [Deal(l[0].id, l[0].price, m)] + rest.deals)
            else Hit(side, p, a) == Outcome(p, a, [])
  {
    FirstIsHead(side, l, stamps, p);
    if a.qty > 0 && l != [] && Marketable(a.side, a.price, l[0].price) && l[0].visible > 0 {
      assert CanHit(side, p, a, stamps[0]) && p.at[stamps[0]] == l[0];
    } else {
      assert forall s :: IsFirst(side, p, s) ==> p.at[s] == l[0];
    }
  }

  /** The sweep makes the very deals the pool dictates and leaves the same orders in the same priority. */
  lemma {:induction false} SweepHasPriority(x: Match, stamps: seq<nat>, p: Pool) returns (after: seq<nat>)
    requires BookOk(x.v.book) && Live(x.a)
    requires InOrder(x.a.side.Opposite(), x.v.book.Lit(x.a.side.Opposite()), stamps, p)
    ensures var out := Hit(x.a.side.Opposite(), p, x.a);
            && Sweep(x).a == out.a
            && x.v.execs <= Sweep(x).v.execs && Deals(Sweep(x).v.execs[|x.v.execs|..]) == out.deals
            && InOrder(x.a.side.Opposite(), Sweep(x).v.book.Lit(x.a.side.Opposite()), after, out.p)
    decreases x.a.qty
  {
    var side := x.a.side.Opposite();
    var l := x.v.book.Lit(side);
    HitUnfolds(side, l, stamps, p, x.a);
    if LitReady(x) {
      var y, m := LitStep(x), Min(x.a.qty, l[0].visible);
      LitStepKeeps(x);
      var mid := TradeKeepsOrder(side, l, stamps, p, m);
      after := SweepHasPriority(y, mid, Trade(p, stamps[0], m));
      DealsStep(x.v.execs, y.v.execs, Sweep(y).v.execs);
    } else {
      after := stamps;
      assert x.v.execs[|x.v.execs|..] == [];
    }
  }

  lemma DealsStep(before: seq<Exec>, mid: seq<Exec>, after: seq<Exec>)
    requires |mid| == |before| + 1 && before <= mid <= after
    ensures before <= after
    ensures var e := mid[|before|];
            Deals(after[|before|..]) == [Deal(e.passive, e.price, e.filled)] + Deals(after[|mid|..])
  {
    assert after[|before|..] == [mid[|before|]] + after[|mid|..];
  }

  // ---------- Whole histories of one side ----------

  /** What order entry and cancels do to a lit side: an order joins it, an id leaves it, an order sweeps it. */
  datatype SideOp = Join(o: OrderValue) | Leave(id: int) | Swept(x: Match)

  datatype History = History(l: seq<OrderValue>, deals: seq<Deal>)

  ghost predicate Legal(side: Side, l: seq<OrderValue>, op: SideOp) {
    match op
    case Join(o) => Member(o, side, LIMIT) && o.id !in Ids(l)
    case Leave(_) => true
    case Swept(x) => x.a.side == side.Opposite() && x.v.book.Lit(side) == l && BookOk(x.v.book) && Live(x.a)
  }

  ghost function ListStep(side: Side, h: History, op: SideOp): History {
    match op
    case Join(o) => h.(l := Insert(h.l, o))
    case Leave(id) => h.(l := Remove(h.l, id))
    case Swept(x) =>
      var z := Sweep(x).v;
      History(z.book.Lit(side), h.deals + Deals(if x.v.execs <= z.execs then z.execs[|x.v.execs|..] else []))
  }

  datatype PoolHistory = PoolHistory(p: Pool, deals: seq<Deal>)

  ghost function PoolStep(side: Side, h: PoolHistory, op: SideOp): PoolHistory {
    match op
    case Join(o) => h.(p := Arrive(h.p, o))
    case Leave(id) => h.(p := Withdraw(h.p, id))
    case Swept(x) => PoolHistory(Hit(side, h.p, x.a).p, h.deals + Hit(side, h.p, x.a).deals)
  }

  ghost predicate LegalRun(side: Side, h: History, ops: seq<SideOp>)
    decreases |ops|
  {
    ops == [] || (Legal(side, h.l, ops[0]) && LegalRun(side, ListStep(side, h, ops[0]), ops[1..]))
  }

  ghost function ListRun(side: Side, h: History, ops: seq<SideOp>): History
    decreases |ops|
  {
    if ops == [] then h else ListRun(side, ListStep(side, h, ops[0]), ops[1..])
  }

  ghost function PoolRun(side: Side, h: PoolHistory, ops: seq<SideOp>): PoolHistory
    decreases |ops|
  {
    if ops == [] then h else PoolRun(side, PoolStep(side, h, ops[0]), ops[1..])
  }

  lemma LegalKeeps(side: Side, h: History, op: SideOp)
    requires LitOk(h.l, side) && Legal(side, h.l, op)
    ensures LitOk(ListStep(side, h, op).l, side)
  {
    match op
    case Join(o) => InsertKeeps(h.l, o);
    case Leave(id) => RemoveLit(h.l, id, side);
    case Swept(x) => SweepKeeps(x);
  }

  /** Over any history, the ordered lists and the unordered pool make the same deals in the same sequence, and the
      lists stay the pool in order of price, then of the time each order last queued. */
  lemma {:induction false} PriceTimePriority(side: Side, h: History, stamps: seq<nat>, p: Pool, ops: seq<SideOp>)
    returns (after: seq<nat>)
    requires LitOk(h.l, side) && InOrder(side, h.l, stamps, p) && LegalRun(side, h, ops)
    ensures var r := PoolRun(side, PoolHistory(p, h.deals), ops);
            ListRun(side, h, ops).deals == r.deals && InOrder(side, ListRun(side, h, ops).l, after, r.p)
    decreases |ops|
  {
    if ops == [] {
      after := stamps;
    } else {
      var op := ops[0];
      var next, mid := ListStep(side, h, op), stamps;
      match op {
        case Join(o) => mid := InsertIsArrival(side, h.l, stamps, p, o);
        case Leave(id) => mid := RemoveIsWithdrawal(side, h.l, stamps, p, id);
        case Swept(x) => mid := SweepHasPriority(x, stamps, p);
      }
      LegalKeeps(side, h, op);
      var q := PoolStep(side, PoolHistory(p, h.deals), op);
      after := PriceTimePriority(side, next, mid, q.p, ops[1..]);
    }
  }
}
