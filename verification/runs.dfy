/** Whole runs: the trade log against the reports, and price-time priority of each lit side. */
module Runs {
  import opened Orders
  import opened Events
  import opened Matching
  import opened Invariant
  import opened Ledger
  import opened Session
  import P = PriceTime

  // ---------- The trade log ----------

  function Fills(execs: seq<Exec>): seq<Exec> {
    if execs == [] then []
    else Fills(execs[..|execs| - 1]) + if IsFill(execs[|execs| - 1]) then [execs[|execs| - 1]] else []
  }

  lemma FillsSnoc(execs: seq<Exec>, e: Exec)
    ensures Fills(execs + [e]) == Fills(execs) + if IsFill(e) then [e] else []
  {
    assert (execs + [e])[..|execs|] == execs;
  }

  /** Where an order may rest. */
  datatype Kind = Kind(side: Side, ordType: OrdType)

  function KindOf(o: OrderValue): Kind {
    Kind(o.side, o.ordType)
  }

  /** Trade i and fill report i tell the same story: same id, price and quantity, the buyer a BUY order, the seller a
      different order on the SELL side. */
  ghost predicate Fits(who: map<int, Kind>, i: int, t: Trade, e: Exec) {
    && t.id == e.tradeId == i + 1 && t.price == e.price && t.qty == e.filled && t.qty > 0
    && t.buyId in who && who[t.buyId].side == BUY && t.sellId in who && who[t.sellId].side == SELL
    && {t.buyId, t.sellId} == {e.aggressor, e.passive}
  }

  ghost predicate LogOk(who: map<int, Kind>, v: Venue) {
    && v.lastTradeId == |v.trades| == |Fills(v.execs)|
    && forall i :: 0 <= i < |v.trades| ==> Fits(who, i, v.trades[i], Fills(v.execs)[i])
  }

  ghost predicate ListSided(who: map<int, Kind>, l: seq<OrderValue>) {
    forall o :: o in l ==> o.id in who && who[o.id] == KindOf(o)
  }

  ghost predicate Sided(who: map<int, Kind>, b: Book) {
    forall side, ordType :: ListSided(who, ListOf(b, side, ordType))
  }

  lemma FilledSided(who: map<int, Kind>, l: seq<OrderValue>, r: seq<OrderValue>, h: OrderValue)
    requires ListSided(who, l) && l != [] && h.id == l[0].id && KindOf(h) == KindOf(l[0])
    requires forall o :: o in r ==> o == h || o in l[1..]
    ensures ListSided(who, r)
  {
    assert l[0] in l && forall o :: o in l[1..] ==> o in l;
  }

  lemma PrintLogged(who: map<int, Kind>, v: Venue, a: OrderValue, h: OrderValue, price: int, m: int)
    requires LogOk(who, v) && m > 0 && a.side == h.side.Opposite()
    requires a.id in who && who[a.id] == KindOf(a) && h.id in who && who[h.id] == KindOf(h)
    ensures LogOk(who, Print(v, a, h, price, m))
  {
    FillsSnoc(v.execs, FillExec(a.id, h.id, v.lastTradeId + 1, price, m, a.qty - m));
  }

  lemma SayLogged(who: map<int, Kind>, v: Venue, e: Exec)
    requires LogOk(who, v) && !IsFill(e)
    ensures LogOk(who, v.Say(e))
  {
    FillsSnoc(v.execs, e);
  }

  ghost predicate Logged(who: map<int, Kind>, x: Match) {
    LogOk(who, x.v) && Sided(who, x.v.book) && x.a.id in who && who[x.a.id] == KindOf(x.a)
  }

  lemma HeadSided(who: map<int, Kind>, b: Book, side: Side, ordType: OrdType)
    requires Sided(who, b) && Shape(b) && ListOf(b, side, ordType) != []
    ensures var h := ListOf(b, side, ordType)[0];
            Member(h, side, ordType) && h.id in who && who[h.id] == Kind(side, ordType)
  {
    ListsOfShape(b, side, ordType);
    assert ListSided(who, ListOf(b, side, ordType));
    assert ListOf(b, side, ordType)[0] in ListOf(b, side, ordType);
  }

  /** Replacing one list by orders of the same kinds keeps every order in its place. */
  lemma ReplacedSided(who: map<int, Kind>, b: Book, side: Side, ordType: OrdType, l: seq<OrderValue>)
    requires Sided(who, b) && ListSided(who, l)
    ensures Sided(who, WithList(b, side, ordType, l))
  {
    forall s, t
      ensures ListSided(who, ListOf(WithList(b, side, ordType, l), s, t))
    {
      assert ListSided(who, ListOf(b, s, t));
    }
  }

  lemma LitStepLogged(who: map<int, Kind>, x: Match)
    requires LitReady(x) && BookOk(x.v.book) && Incoming(x.a, x.v.book) && Logged(who, x)
    ensures Logged(who, LitStep(x))
  {
    var side, c := x.a.side.Opposite(), x.v.book.Lit(x.a.side.Opposite());
    HeadSided(who, x.v.book, side, LIMIT);
    var m := Min(x.a.qty, c[0].visible);
    PrintLogged(who, x.v, x.a, c[0], c[0].price, m);
    var h := AfterFillMembers(c, m);
    assert ListSided(who, ListOf(x.v.book, side, LIMIT));
    FilledSided(who, c, AfterFill(c, m), h);
    ReplacedSided(who, x.v.book, side, LIMIT, AfterFill(c, m));
  }

  lemma PoolStepLogged(who: map<int, Kind>, x: Match, mid: int)
    requires PoolReady(x) && BookOk(x.v.book) && Incoming(x.a, x.v.book) && Logged(who, x)
    ensures Logged(who, PoolStep(x, mid))
  {
    var side, c := x.a.side.Opposite(), x.v.book.Peg(x.a.side.Opposite());
    HeadSided(who, x.v.book, side, PEG_MID);
    var m := Min(x.a.qty, c[0].qty);
    PrintLogged(who, x.v, x.a, c[0], mid, m);
    var h := AfterPoolFillMembers(c, m);
    assert ListSided(who, ListOf(x.v.book, side, PEG_MID));
    FilledSided(who, c, AfterPoolFill(c, m), h);
    ReplacedSided(who, x.v.book, side, PEG_MID, AfterPoolFill(c, m));
  }

  lemma {:induction false} SweepLogged(who: map<int, Kind>, x: Match)
    requires BookOk(x.v.book) && Incoming(x.a, x.v.book) && Logged(who, x)
    ensures Logged(who, Sweep(x))
    decreases x.a.qty
  {
    if LitReady(x) {
      LitStepLogged(who, x);
      LitStepKeeps(x);
      SweepLogged(who, LitStep(x));
    }
  }

  lemma {:induction false} PoolSweepLogged(who: map<int, Kind>, x: Match, mid: int)
    requires BookOk(x.v.book) && Incoming(x.a, x.v.book) && Logged(who, x)
    ensures Logged(who, PoolSweep(x, mid))
    decreases |x.v.book.Peg(x.a.side.Opposite())|, x.a.qty
  {
    if PoolReady(x) {
      PoolStepLogged(who, x, mid);
      PoolStepKeeps(x, mid);
      PoolSweepLogged(who, PoolStep(x, mid), mid);
    }
  }

  lemma CrossStepLogged(who: map<int, Kind>, v: Venue, mid: int)
    requires Shape(v.book) && LogOk(who, v) && Sided(who, v.book) && v.book.pegBids != [] && v.book.pegAsks != []
    ensures LogOk(who, CrossStep(v, mid)) && Sided(who, CrossStep(v, mid).book)
  {
    var b := v.book;
    var bid, ask := b.pegBids[0], b.pegAsks[0];
    var m := Min(bid.qty, ask.qty);
    HeadSided(who, b, BUY, PEG_MID);
    HeadSided(who, b, SELL, PEG_MID);
    if IsLater(bid, ask) {
      PrintLogged(who, v, bid, ask, mid, m);
    } else {
      PrintLogged(who, v, ask, bid, mid, m);
    }
    var hb := AfterPoolFillMembers(b.pegBids, m);
    var ha := AfterPoolFillMembers(b.pegAsks, m);
    assert ListSided(who, ListOf(b, BUY, PEG_MID)) && ListSided(who, ListOf(b, SELL, PEG_MID));
    FilledSided(who, b.pegBids, AfterPoolFill(b.pegBids, m), hb);
    FilledSided(who, b.pegAsks, AfterPoolFill(b.pegAsks, m), ha);
    ReplacedSided(who, b, BUY, PEG_MID, AfterPoolFill(b.pegBids, m));
    ReplacedSided(who, b.(pegBids := AfterPoolFill(b.pegBids, m)), SELL, PEG_MID, AfterPoolFill(b.pegAsks, m));
  }

  lemma {:induction false} CrossLoopLogged(who: map<int, Kind>, v: Venue, mid: int)
    requires Shape(v.book) && Uncrossed(v.book) && LogOk(who, v) && Sided(who, v.book)
    ensures LogOk(who, CrossLoop(v, mid)) && Sided(who, CrossLoop(v, mid).book)
    decreases |v.book.pegBids| + |v.book.pegAsks|
  {
    if v.book.pegBids != [] && v.book.pegAsks != [] {
      CrossStepLogged(who, v, mid);
      CrossStepKeeps(v, mid);
      CrossLoopLogged(who, CrossStep(v, mid), mid);
    }
  }

  lemma DisposeLogged(who: map<int, Kind>, x: Match)
    requires BookOk(x.v.book) && Incoming(x.a, x.v.book) && Logged(who, x)
    ensures LogOk(who, Dispose(x).v) && Sided(who, Dispose(x).v.book)
  {
    var a := x.a;
    if a.qty > 0 {
      if a.tif == GTC {
        var r := if a.ordType == PEG_MID then a else a.Refresh();
        var list := ListOf(x.v.book, a.side, a.ordType);
        var after := if a.ordType == PEG_MID then list + [r] else Insert(list, r);
        JoinedIds(list, after, r, a.ordType);
        assert ListSided(who, list);
        ReplacedSided(who, x.v.book, a.side, a.ordType, after);
        SayLogged(who, x.v, AcceptedExec(a.id, a.price, a.qty));
      } else {
        SayLogged(who, x.v, ExpiredExec(a.id, a.qty));
      }
    }
  }

  lemma TradingLogged(who: map<int, Kind>, v: Venue, o: OrderValue)
    requires BookOk(v.book) && Incoming(o, v.book) && Logged(who, Match(v, o))
    ensures Logged(who, Trading(Match(v, o)))
  {
    var x := Match(v, o);
    var y := if TakesPool(o, v.book) then PoolSweep(x, v.book.Mid()) else x;
    if TakesPool(o, v.book) {
      PoolSweepLogged(who, x, v.book.Mid());
      PoolSweepKeeps(x, v.book.Mid());
    }
    SweepLogged(who, y);
  }

  lemma AddLogged(who: map<int, Kind>, v: Venue, o: OrderValue)
    requires BookOk(v.book) && Incoming(o, v.book) && Logged(who, Match(v, o))
    ensures LogOk(who, Add(v, o).v) && Sided(who, Add(v, o).v.book)
  {
    var x := Match(v, o);
    if Killed(v, o) {
      SayLogged(who, v, ExpiredExec(o.id, o.qty));
    } else {
      TradingLogged(who, v, o);
      TradingKeeps(x);
      DisposeLogged(who, Trading(x));
      if o.ordType == LIMIT {
        DisposeShape(Trading(x));
        var z := Dispose(Trading(x)).v;
        CrossLoopLogged(who, z, z.book.Mid());
      }
    }
  }

  lemma CancelLogged(who: map<int, Kind>, b: Book, id: int)
    requires BookOk(b) && Sided(who, b)
    ensures Sided(who, Cancel(b, id))
  {
    forall s, t
      ensures ListSided(who, ListOf(Cancel(b, id), s, t))
    {
      ListsOfShape(b, s, t);
      RemoveKeeps(ListOf(b, s, t), id);
      assert ListSided(who, ListOf(b, s, t));
    }
  }

  /** who names the side and type of every order the run admits. */
  ghost predicate Names(who: map<int, Kind>, es: seq<OrderEvent>) {
    forall e :: e in es && e.eventType.NEW_ORDER? && OrderOf(e).Some? ==>
      e.orderId in who && who[e.orderId] == KindOf(OrderOf(e).value)
  }

  lemma EventLogged(who: map<int, Kind>, l: Accounts, v: Venue, e: OrderEvent)
    requires BookOk(v.book) && Tracks(l, v.book) && FreshId(l, e)
    requires LogOk(who, v) && Sided(who, v.book) && Names(who, [e])
    ensures LogOk(who, Process(v, e)) && Sided(who, Process(v, e).book)
  {
    assert e in [e];
    if e.eventType.CANCEL_ORDER? {
      CancelLogged(who, v.book, e.originalOrderId);
      SayLogged(who, v, PlainExec(ORDER_CANCELLED, e.originalOrderId));
      SayLogged(who, v, PlainExec(ORDER_REJECTED, e.originalOrderId));
    } else if OrderOf(e).None? {
      SayLogged(who, v, PlainExec(ORDER_REJECTED, e.orderId));
    } else {
      UntrackedId(l, v.book, e.orderId);
      AddLogged(who, v, OrderOf(e).value);
    }
  }

  /** Over any run, trades and fill reports correspond one to one, in order, with trade ids 1, 2, 3 and so on, each
      trade between a BUY and a SELL order. */
  lemma {:induction false} RunLogged(who: map<int, Kind>, l: Accounts, v: Venue, es: seq<OrderEvent>, used: set<int>)
    requires BookOk(v.book) && Tracks(l, v.book) && l.entries.Keys + l.refused <= used && UniqueIds(es, used)
    requires LogOk(who, v) && Sided(who, v.book) && Names(who, es)
    ensures LogOk(who, Run(v, es))
    decreases |es|
  {
    if es != [] {
      var e := es[0];
      assert e in es && forall x :: x in es[1..] ==> x in es;
      EventLogged(who, l, v, e);
      ProcessFollowed(l, v, e);
      ReplayIds(l, Tokens(v, e));
      TokensMark(v, e);
      RunLogged(who, Replay(l, Tokens(v, e)).value, Process(v, e), es[1..],
                if e.eventType.NEW_ORDER? then used + {e.orderId} else used);
    }
  }

  /** The side and type of every order a run admits. */
  ghost function KindsOf(es: seq<OrderEvent>): map<int, Kind>
    decreases |es|
  {
    if es == [] then map[]
    else
      var more := KindsOf(es[1..]);
      if es[0].eventType.NEW_ORDER? && OrderOf(es[0]).Some? then more[es[0].orderId := KindOf(OrderOf(es[0]).value)]
      else more
  }

  lemma {:induction false} KindsNamed(es: seq<OrderEvent>, used: set<int>)
    requires UniqueIds(es, used)
    ensures Names(KindsOf(es), es) && forall id :: id in KindsOf(es) ==> id !in used
    decreases |es|
  {
    if es != [] {
      KindsNamed(es[1..], if es[0].eventType.NEW_ORDER? then used + {es[0].orderId} else used);
      forall e | e in es && e.eventType.NEW_ORDER? && OrderOf(e).Some?
        ensures e.orderId in KindsOf(es) && KindsOf(es)[e.orderId] == KindOf(OrderOf(e).value)
      {
        assert e == es[0] || e in es[1..];
      }
    }
  }

  // ---------- Price-time priority ----------

  predicate IsDeal(who: map<int, Kind>, side: Side, e: Exec) {
    IsFill(e) && e.passive in who && who[e.passive] == Kind(side, LIMIT)
  }

  /** The fills of limit orders resting on one side, as a stretch of reports tells them. */
  function SideDeals(who: map<int, Kind>, side: Side, execs: seq<Exec>): seq<P.Deal> {
    if execs == [] then []
    else
      var e := execs[|execs| - 1];
      SideDeals(who, side, execs[..|execs| - 1])
      + if IsDeal(who, side, e) then [P.Deal(e.passive, e.price, e.filled)] else []
  }

  lemma SideDealsSnoc(who: map<int, Kind>, side: Side, execs: seq<Exec>, e: Exec)
    ensures SideDeals(who, side, execs + [e])
            == SideDeals(who, side, execs)
               + if IsDeal(who, side, e) then [P.Deal(e.passive, e.price, e.filled)] else []
  {
    assert (execs + [e])[..|execs|] == execs;
  }

  lemma NoDealsYet(who: map<int, Kind>, side: Side, execs: seq<Exec>, e: Exec)
    requires !IsDeal(who, side, e)
    ensures SideDeals(who, side, execs + [e]) == SideDeals(who, side, execs)
  {
    SideDealsSnoc(who, side, execs, e);
    assert SideDeals(who, side, execs) + [] == SideDeals(who, side, execs);
  }

  /** Peg steps and pool crosses fill resting pegs only. */
  lemma {:induction false} PoolSweepDeals(who: map<int, Kind>, x: Match, mid: int, side: Side)
    requires BookOk(x.v.book) && Incoming(x.a, x.v.book) && Logged(who, x)
    ensures SideDeals(who, side, PoolSweep(x, mid).v.execs) == SideDeals(who, side, x.v.execs)
    decreases |x.v.book.Peg(x.a.side.Opposite())|, x.a.qty
  {
    if PoolReady(x) {
      var y := PoolStep(x, mid);
      PoolStepLogged(who, x, mid);
      PoolStepKeeps(x, mid);
      HeadSided(who, x.v.book, x.a.side.Opposite(), PEG_MID);
      NoDealsYet(who, side, x.v.execs, y.v.execs[|x.v.execs|]);
      PoolSweepDeals(who, y, mid, side);
    }
  }

  lemma {:induction false} CrossLoopDeals(who: map<int, Kind>, v: Venue, mid: int, side: Side)
    requires Shape(v.book) && Uncrossed(v.book) && LogOk(who, v) && Sided(who, v.book)
    ensures SideDeals(who, side, CrossLoop(v, mid).execs) == SideDeals(who, side, v.execs)
    decreases |v.book.pegBids| + |v.book.pegAsks|
  {
    if v.book.pegBids != [] && v.book.pegAsks != [] {
      CrossStepLogged(who, v, mid);
      CrossStepKeeps(v, mid);
      HeadSided(who, v.book, BUY, PEG_MID);
      HeadSided(who, v.book, SELL, PEG_MID);
      NoDealsYet(who, side, v.execs, CrossStep(v, mid).execs[|v.execs|]);
      CrossLoopDeals(who, CrossStep(v, mid), mid, side);
    }
  }

  lemma LitStepDeals(who: map<int, Kind>, x: Match, side: Side)
    requires LitReady(x) && BookOk(x.v.book) && Incoming(x.a, x.v.book) && Logged(who, x)
    ensures |LitStep(x).v.execs| == |x.v.execs| + 1 && x.v.execs <= LitStep(x).v.execs
    ensures var e := LitStep(x).v.execs[|x.v.execs|];
            SideDeals(who, side, LitStep(x).v.execs)
            == SideDeals(who, side, x.v.execs)
               + if side == x.a.side.Opposite() then [P.Deal(e.passive, e.price, e.filled)] else []
  {
    HeadSided(who, x.v.book, x.a.side.Opposite(), LIMIT);
    SideDealsSnoc(who, side, x.v.execs, LitStep(x).v.execs[|x.v.execs|]);
  }

  lemma OneMoreDeal(before: seq<Exec>, mid: seq<Exec>, after: seq<Exec>, d: seq<P.Deal>)
    requires |mid| == |before| + 1 && before <= mid <= after
    ensures var e := mid[|before|];
            d + P.Deals(after[|before|..]) == d + [P.Deal(e.passive, e.price, e.filled)] + P.Deals(after[|mid|..])
  {
    P.DealsStep(before, mid, after);
  }

  /** Every fill of the sweep is one of the contra side's. */
  lemma {:induction false} SweepDeals(who: map<int, Kind>, x: Match)
    requires BookOk(x.v.book) && Incoming(x.a, x.v.book) && Logged(who, x)
    ensures x.v.execs <= Sweep(x).v.execs
    ensures SideDeals(who, x.a.side.Opposite(), Sweep(x).v.execs)
            == SideDeals(who, x.a.side.Opposite(), x.v.execs) + P.Deals(Sweep(x).v.execs[|x.v.execs|..])
    decreases x.a.qty
  {
    if LitReady(x) {
      var side, y := x.a.side.Opposite(), LitStep(x);
      LitStepLogged(who, x);
      LitStepKeeps(x);
      LitStepDeals(who, x, side);
      SweepDeals(who, y);
      OneMoreDeal(x.v.execs, y.v.execs, Sweep(y).v.execs, SideDeals(who, side, x.v.execs));
    } else {
      assert x.v.execs[|x.v.execs|..] == [];
    }
  }

  /** None of them is one of the aggressor's own side's. */
  lemma {:induction false} SweepNoDeals(who: map<int, Kind>, x: Match)
    requires BookOk(x.v.book) && Incoming(x.a, x.v.book) && Logged(who, x)
    ensures SideDeals(who, x.a.side, Sweep(x).v.execs) == SideDeals(who, x.a.side, x.v.execs)
    decreases x.a.qty
  {
    if LitReady(x) {
      LitStepLogged(who, x);
      LitStepKeeps(x);
      LitStepDeals(who, x, x.a.side);
      SweepNoDeals(who, LitStep(x));
    }
  }

  /** What one event does to one lit side. */
  ghost function SideOps(v: Venue, e: OrderEvent, side: Side): seq<P.SideOp> {
    if e.eventType.CANCEL_ORDER? then [P.Leave(e.originalOrderId)]
    else match OrderOf(e)
      case None => []
      case Some(o) => EntryOps(v, o, side)
  }

  ghost function EntryOps(v: Venue, o: OrderValue, side: Side): seq<P.SideOp> {
    if o.ordType == PEG_MID || Killed(v, o) then []
    else
      var x := Match(v, o);
      if side == o.side.Opposite() then [P.Swept(if TakesPool(o, v.book) then PoolSweep(x, v.book.Mid()) else x)]
      else
        var a := Trading(x).a;
        if a.qty > 0 && a.tif == GTC then [P.Join(a.Refresh())] else []
  }

  lemma OneOp(side: Side, h: P.History, op: P.SideOp)
    requires P.Legal(side, h.l, op)
    ensures P.LegalRun(side, h, [op]) && P.ListRun(side, h, [op]) == P.ListStep(side, h, op)
  {
    var ops := [op];
    assert ops[0] == op && ops[1..] == [];
    assert P.ListRun(side, P.ListStep(side, h, op), ops[1..]) == P.ListStep(side, h, op);
  }

  /** Where the lit lists of an admitted order's book come from: the sweep on one side, the rest on the other. */
  lemma LitAfterAdd(v: Venue, o: OrderValue)
    requires BookOk(v.book) && Incoming(o, v.book) && !Killed(v, o)
    ensures var x := Match(v, o);
            var z := Trading(x);
            && Add(v, o).v.book.Lit(o.side.Opposite()) == z.v.book.Lit(o.side.Opposite())
            && Add(v, o).v.book.Lit(o.side)
               == (if o.ordType == LIMIT && z.a.qty > 0 && z.a.tif == GTC then Insert(v.book.Lit(o.side), z.a.Refresh())
                   else v.book.Lit(o.side))
            && (o.ordType == PEG_MID ==> z.v.book.Lit(o.side.Opposite()) == v.book.Lit(o.side.Opposite()))
  {
    TradingKeeps(Match(v, o));
    var z := Trading(Match(v, o));
    if o.ordType == LIMIT {
      DisposeShape(z);
      var w := Dispose(z).v;
      CrossLoopKeeps(w, w.book.Mid());
    }
  }

  /** What an entry's operations add to the deals of a side. */
  ghost function EntryDeals(v: Venue, o: OrderValue, side: Side): seq<P.Deal> {
    if o.ordType == PEG_MID || Killed(v, o) || side == o.side then []
    else
      var y := if TakesPool(o, v.book) then PoolSweep(Match(v, o), v.book.Mid()) else Match(v, o);
      P.Deals(if y.v.execs <= Sweep(y).v.execs then Sweep(y).v.execs[|y.v.execs|..] else [])
  }

  lemma EntryIsHistory(v: Venue, o: OrderValue, side: Side, d: seq<P.Deal>)
    requires BookOk(v.book) && Incoming(o, v.book)
    ensures P.LegalRun(side, P.History(v.book.Lit(side), d), EntryOps(v, o, side))
    ensures P.ListRun(side, P.History(v.book.Lit(side), d), EntryOps(v, o, side))
            == P.History(Add(v, o).v.book.Lit(side), d + EntryDeals(v, o, side))
  {
    var x, h := Match(v, o), P.History(v.book.Lit(side), d);
    if !Killed(v, o) {
      LitAfterAdd(v, o);
      if o.ordType == LIMIT {
        if side == o.side.Opposite() {
          SweptIsLegal(v, o, side, h);
        } else {
          JoinIsLegal(v, o, side, h);
        }
      }
    }
  }

  lemma SweptIsLegal(v: Venue, o: OrderValue, side: Side, h: P.History)
    requires BookOk(v.book) && Incoming(o, v.book) && o.ordType == LIMIT && side == o.side.Opposite() && !Killed(v, o)
    requires h.l == v.book.Lit(side)
    ensures var y := if TakesPool(o, v.book) then PoolSweep(Match(v, o), v.book.Mid()) else Match(v, o);
            && P.LegalRun(side, h, [P.Swept(y)])
            && P.ListRun(side, h, [P.Swept(y)])
               == P.History(Trading(Match(v, o)).v.book.Lit(side), h.deals + EntryDeals(v, o, side))
  {
    var x := Match(v, o);
    var y := if TakesPool(o, v.book) then PoolSweep(x, v.book.Mid()) else x;
    if TakesPool(o, v.book) {
      PoolSweepKeeps(x, v.book.Mid());
    }
    OneOp(side, h, P.Swept(y));
  }

  lemma JoinIsLegal(v: Venue, o: OrderValue, side: Side, h: P.History)
    requires BookOk(v.book) && Incoming(o, v.book) && o.ordType == LIMIT && side == o.side && h.l == v.book.Lit(side)
    ensures var a := Trading(Match(v, o)).a;
            a.qty > 0 && a.tif == GTC ==>
              P.LegalRun(side, h, [P.Join(a.Refresh())])
              && P.ListRun(side, h, [P.Join(a.Refresh())]) == P.History(Insert(h.l, a.Refresh()), h.deals)
  {
    TradingKeeps(Match(v, o));
    var a := Trading(Match(v, o)).a;
    if a.qty > 0 && a.tif == GTC {
      assert Member(a.Refresh(), side, LIMIT);
      OneOp(side, h, P.Join(a.Refresh()));
    }
  }

  lemma DisposeDeals(who: map<int, Kind>, x: Match, side: Side)
    ensures SideDeals(who, side, Dispose(x).v.execs) == SideDeals(who, side, x.v.execs)
  {
    if x.a.qty > 0 {
      NoDealsYet(who, side, x.v.execs, Dispose(x).v.execs[|x.v.execs|]);
    }
  }

  lemma TradingDeals(who: map<int, Kind>, v: Venue, o: OrderValue, side: Side)
    requires BookOk(v.book) && Incoming(o, v.book) && Logged(who, Match(v, o)) && !Killed(v, o)
    ensures SideDeals(who, side, Trading(Match(v, o)).v.execs)
            == SideDeals(who, side, v.execs) + EntryDeals(v, o, side)
  {
    var x := Match(v, o);
    var y := if TakesPool(o, v.book) then PoolSweep(x, v.book.Mid()) else x;
    if TakesPool(o, v.book) {
      PoolSweepLogged(who, x, v.book.Mid());
      PoolSweepKeeps(x, v.book.Mid());
      PoolSweepDeals(who, x, v.book.Mid(), side);
    }
    if o.ordType == LIMIT {
      if side == o.side {
        SweepNoDeals(who, y);
      } else {
        SweepDeals(who, y);
      }
    }
  }

  /** The deals of an entry's operations are its fills of the orders resting on the side. */
  lemma AddDeals(who: map<int, Kind>, v: Venue, o: OrderValue, side: Side)
    requires BookOk(v.book) && Incoming(o, v.book) && Logged(who, Match(v, o))
    ensures SideDeals(who, side, Add(v, o).v.execs) == SideDeals(who, side, v.execs) + EntryDeals(v, o, side)
  {
    if Killed(v, o) {
      NoDealsYet(who, side, v.execs, ExpiredExec(o.id, o.qty));
    } else {
      var x := Match(v, o);
      TradingDeals(who, v, o, side);
      DisposeDeals(who, Trading(x), side);
      if o.ordType == LIMIT {
        CrossDeals(who, v, o, side);
      }
    }
  }

  lemma CrossDeals(who: map<int, Kind>, v: Venue, o: OrderValue, side: Side)
    requires BookOk(v.book) && Incoming(o, v.book) && Logged(who, Match(v, o)) && !Killed(v, o) && o.ordType == LIMIT
    ensures SideDeals(who, side, Add(v, o).v.execs) == SideDeals(who, side, Dispose(Trading(Match(v, o))).v.execs)
  {
    var x := Match(v, o);
    TradingLogged(who, v, o);
    TradingKeeps(x);
    DisposeLogged(who, Trading(x));
    DisposeShape(Trading(x));
    var z := Dispose(Trading(x)).v;
    CrossLoopDeals(who, z, z.book.Mid(), side);
  }

  lemma EventIsHistory(who: map<int, Kind>, l: Accounts, v: Venue, e: OrderEvent, side: Side, d: seq<P.Deal>)
    requires BookOk(v.book) && Tracks(l, v.book) && FreshId(l, e)
    requires LogOk(who, v) && Sided(who, v.book) && Names(who, [e]) && d == SideDeals(who, side, v.execs)
    ensures P.LegalRun(side, P.History(v.book.Lit(side), d), SideOps(v, e, side))
    ensures P.ListRun(side, P.History(v.book.Lit(side), d), SideOps(v, e, side))
            == P.History(Process(v, e).book.Lit(side), SideDeals(who, side, Process(v, e).execs))
  {
    if e.eventType.CANCEL_ORDER? {
      OneOp(side, P.History(v.book.Lit(side), d), P.Leave(e.originalOrderId));
      NoDealsYet(who, side, v.execs, Process(v, e).execs[|v.execs|]);
      if e.originalOrderId !in OpenIds(v.book) {
        RemoveAbsent(v.book.Lit(side), e.originalOrderId);
      }
    } else if OrderOf(e).Some? {
      assert e in [e];
      UntrackedId(l, v.book, e.orderId);
      EntryIsHistory(v, OrderOf(e).value, side, d);
      AddDeals(who, v, OrderOf(e).value, side);
    } else {
      NoDealsYet(who, side, v.execs, Process(v, e).execs[|v.execs|]);
    }
  }

  ghost function RunOps(v: Venue, es: seq<OrderEvent>, side: Side): seq<P.SideOp>
    decreases |es|
  {
    if es == [] then [] else SideOps(v, es[0], side) + RunOps(Process(v, es[0]), es[1..], side)
  }

  lemma {:induction false} ListRunConcat(side: Side, h: P.History, a: seq<P.SideOp>, b: seq<P.SideOp>)
    ensures P.ListRun(side, h, a + b) == P.ListRun(side, P.ListRun(side, h, a), b)
    ensures P.LegalRun(side, h, a) && P.LegalRun(side, P.ListRun(side, h, a), b) ==> P.LegalRun(side, h, a + b)
    decreases |a|
  {
    if a == [] {
      assert a + b == b;
    } else {
      assert (a + b)[1..] == a[1..] + b;
      ListRunConcat(side, P.ListStep(side, h, a[0]), a[1..], b);
    }
  }

  /** A run is a history of each lit side: what joins it, leaves it and sweeps it ends in the run's own queue and makes
      the fills its reports tell. */
  lemma {:induction false} RunIsHistory(who: map<int, Kind>, l: Accounts, v: Venue, es: seq<OrderEvent>, used: set<int>,
                                        side: Side)
    requires BookOk(v.book) && Tracks(l, v.book) && l.entries.Keys + l.refused <= used && UniqueIds(es, used)
    requires LogOk(who, v) && Sided(who, v.book) && Names(who, es)
    ensures var h := P.History(v.book.Lit(side), SideDeals(who, side, v.execs));
            && P.LegalRun(side, h, RunOps(v, es, side))
            && P.ListRun(side, h, RunOps(v, es, side))
               == P.History(Run(v, es).book.Lit(side), SideDeals(who, side, Run(v, es).execs))
    decreases |es|
  {
    if es != [] {
      var e, h := es[0], P.History(v.book.Lit(side), SideDeals(who, side, v.execs));
      assert e in es && forall x :: x in es[1..] ==> x in es;
      EventIsHistory(who, l, v, e, side, h.deals);
      EventLogged(who, l, v, e);
      ProcessFollowed(l, v, e);
      ReplayIds(l, Tokens(v, e));
      TokensMark(v, e);
      RunIsHistory(who, Replay(l, Tokens(v, e)).value, Process(v, e), es[1..],
                   if e.eventType.NEW_ORDER? then used + {e.orderId} else used, side);
      ListRunConcat(side, h, SideOps(v, e, side), RunOps(Process(v, e), es[1..], side));
    }
  }

  /** Every run from the opening has price-time priority on each lit side: the fills of its resting limit orders, as the
      run's reports tell them, and its final queue are those of an unordered pool that always trades its best price,
      oldest queued first, with a reloaded iceberg queued anew. */
  lemma RunHasPriority(es: seq<OrderEvent>, side: Side) returns (stamps: seq<nat>)
    requires UniqueIds(es, {})
    ensures var r := P.PoolRun(side, P.PoolHistory(P.Pool(map[], 0), []), RunOps(OPENING, es, side));
            && SideDeals(KindsOf(es), side, Run(OPENING, es).execs) == r.deals
            && P.InOrder(side, Run(OPENING, es).book.Lit(side), stamps, r.p)
  {
    KindsNamed(es, {});
    RunIsHistory(KindsOf(es), NO_ACCOUNTS, OPENING, es, {}, side);
    stamps := P.PriceTimePriority(side, P.History([], []), [], P.Pool(map[], 0), RunOps(OPENING, es, side));
  }
}
