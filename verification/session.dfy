/** One inbound event through handler and engine, whole runs of them, and that every run obeys the report protocol. */
module Session {
  import opened Orders
  import opened Events
  import opened Matching
  import opened Invariant
  import opened LiquidityTheorems
  import opened Ledger

  const GATEWAY_PARTICIPANT_ID := 1

  /** The order the handler builds from an event; a missing time in force means GTC, a missing type a limit order. */
  function OrderOf(e: OrderEvent): Option<OrderValue> {
    Admit(e.orderId, e.timestamp, e.side, ToInt32(e.quantity), e.price, GATEWAY_PARTICIPANT_ID,
          if e.tif.None? then GTC else e.tif.value, ToInt32(e.maxFloor),
          if e.ordType.None? then LIMIT else e.ordType.value)
  }

  /** What the handler hands over, field by field. */
  lemma HandedOver(e: OrderEvent)
    requires OrderOf(e).Some?
    ensures var o := OrderOf(e).value;
            && o.id == e.orderId && o.time == e.timestamp && o.participant == 1 && Some(o.side) == e.side
            && o.price == e.price && o.tif == (if e.tif == None then GTC else e.tif.value)
            && o.ordType == (if e.ordType == None then LIMIT else e.ordType.value)
            && o.status == OPEN && 0 < o.qty <= 0x7fff_ffff && (o.qty - e.quantity) % 0x1_0000_0000 == 0
    ensures var o := OrderOf(e).value;
            0 <= e.maxFloor <= 0x7fff_ffff ==>
              && e.maxFloor <= o.qty && o.peak == (if e.maxFloor < o.qty then e.maxFloor else 0)
              && o.visible == if e.maxFloor > 0 then e.maxFloor else o.qty
  {
  }

  ghost function Process(v: Venue, e: OrderEvent): Venue {
    if e.eventType.CANCEL_ORDER? then
      if e.originalOrderId in OpenIds(v.book)
      then v.(book := Cancel(v.book, e.originalOrderId)).Say(PlainExec(ORDER_CANCELLED, e.originalOrderId))
      else v.Say(PlainExec(ORDER_REJECTED, e.originalOrderId))
    else match OrderOf(e)
      case None => v.Say(PlainExec(ORDER_REJECTED, e.orderId))
      case Some(o) => Add(v, o).v
  }

  function Reports(execs: seq<Exec>): (ts: seq<Token>)
    ensures |ts| == |execs| && forall i :: 0 <= i < |execs| ==> ts[i] == Report(execs[i])
  {
    seq(|execs|, i requires 0 <= i < |execs| => Report(execs[i]))
  }

  /** The tokens of one event: the mark of a new order, then the reports it caused. */
  ghost function Tokens(v: Venue, e: OrderEvent): seq<Token> {
    var w := Process(v, e);
    var mark := if e.eventType.CANCEL_ORDER? then []
                else match OrderOf(e) case None => [Refused(e.orderId)] case Some(o) => [Admitted(o)];
    mark + Reports(w.execs[Min(|v.execs|, |w.execs|)..])
  }

  // ---------- The accounts against the book ----------

  ghost predicate Matches(l: Accounts, o: OrderValue) {
    && o.id in l.entries
    && var n := l.entries[o.id];
       && n.side == o.side && n.ordType == o.ordType && n.limit == o.price && n.tif == o.tif && n.remaining == o.qty
  }

  ghost predicate RestsIn(n: Entry, side: Side, ordType: OrdType) {
    n.phase == Resting && n.side == side && n.ordType == ordType
  }

  /** A list holds exactly the resting orders of its side and type, each with its remaining quantity. */
  ghost predicate ListTracked(l: Accounts, list: seq<OrderValue>, side: Side, ordType: OrdType) {
    && (forall o :: o in list ==> Matches(l, o) && l.entries[o.id].phase == Resting)
    && (forall id :: id in l.entries && RestsIn(l.entries[id], side, ordType) ==> id in Ids(list))
  }

  function ListOf(b: Book, side: Side, ordType: OrdType): seq<OrderValue> {
    if ordType == LIMIT then b.Lit(side) else b.Peg(side)
  }

  function WithList(b: Book, side: Side, ordType: OrdType, l: seq<OrderValue>): Book {
    if ordType == LIMIT then b.WithLit(side, l) else b.WithPeg(side, l)
  }

  ghost predicate BookTracked(l: Accounts, b: Book) {
    forall side, ordType :: ListTracked(l, ListOf(b, side, ordType), side, ordType)
  }

  /** Between events. */
  ghost predicate Tracks(l: Accounts, b: Book) {
    Sound(l) && BookTracked(l, b) && Idle(l)
  }

  /** While an order is being worked on. */
  ghost predicate TracksWith(l: Accounts, b: Book, a: OrderValue) {
    && Sound(l) && BookTracked(l, b) && Matches(l, a)
    && l.entries[a.id].phase == (if a.qty == 0 then Filled else Working)
    && forall id :: id in l.entries && l.entries[id].phase == Working ==> id == a.id
  }

  /** Orders elsewhere do not notice. */
  lemma ElsewhereTracked(l: Accounts, m: Accounts, list: seq<OrderValue>, side: Side, ordType: OrdType,
                         touched: set<int>)
    requires ListTracked(l, list, side, ordType)
    requires l.entries.Keys <= m.entries.Keys && m.entries.Keys <= l.entries.Keys + touched
    requires forall id :: id in l.entries && id !in touched ==> m.entries[id] == l.entries[id]
    requires Ids(list) !! touched
    requires forall id :: id in touched && id in m.entries ==> !RestsIn(m.entries[id], side, ordType)
    ensures ListTracked(m, list, side, ordType)
  {
    assert forall o :: o in list ==> o.id in Ids(list);
  }

  /** The list whose first order traded. */
  lemma TradedTracked(l: Accounts, m: Accounts, list: seq<OrderValue>, after: seq<OrderValue>, h: OrderValue,
                      side: Side, ordType: OrdType, a: int)
    requires ListTracked(l, list, side, ordType) && list != [] && NoDup(list)
    requires m.entries.Keys == l.entries.Keys
    requires forall id :: id in l.entries && id !in {list[0].id, a} ==> m.entries[id] == l.entries[id]
    requires a !in Ids(list)
    requires a in m.entries ==> !RestsIn(m.entries[a], side, ordType)
    requires h.id == list[0].id
    requires if h.qty == 0 then m.entries[h.id].phase != Resting else Matches(m, h) && m.entries[h.id].phase == Resting
    requires forall o :: o in after <==> o in list[1..] || (h.qty != 0 && o == h)
    requires h.id in l.entries
    ensures ListTracked(m, after, side, ordType)
  {
    HeadIds(list);
    assert forall o :: o in list[1..] ==> o in list && o.id in Ids(list[1..]);
    forall id | id in m.entries && RestsIn(m.entries[id], side, ordType)
      ensures id in Ids(after)
    {
      if id == h.id {
        assert h in after;
      } else {
        assert id in Ids(list[1..]);
        var o :| o in list[1..] && o.id == id;
        assert o in after;
      }
    }
  }

  lemma AfterFillMembers(l: seq<OrderValue>, m: int) returns (h: OrderValue)
    requires l != []
    ensures h.id == l[0].id && h.qty == l[0].qty - m && h.side == l[0].side && h.price == l[0].price
    ensures h.ordType == l[0].ordType && h.tif == l[0].tif
    ensures forall o :: o in AfterFill(l, m) <==> o in l[1..] || (h.qty != 0 && o == h)
  {
    h := l[0].Fill(m);
    if h.qty != 0 && h.visible == 0 {
      h := h.Refresh();
      InsertIds(l[1..], h);
    }
  }

  lemma AfterPoolFillMembers(l: seq<OrderValue>, m: int) returns (h: OrderValue)
    requires l != []
    ensures h.id == l[0].id && h.qty == l[0].qty - m && h.side == l[0].side && h.price == l[0].price
    ensures h.ordType == l[0].ordType && h.tif == l[0].tif
    ensures forall o :: o in AfterPoolFill(l, m) <==> o in l[1..] || (h.qty != 0 && o == h)
  {
    h := l[0].Fill(m);
  }

  /** The report of one trade, and the accounts after it. */
  lemma FillAccepted(l: Accounts, a: OrderValue, h: OrderValue, tradeId: int, price: int, m: int) returns (k: Accounts)
    requires Sound(l) && Matches(l, a) && Matches(l, h) && a.id != h.id && a.side == h.side.Opposite()
    requires l.entries[h.id].phase == Resting
    requires l.entries[a.id].phase == Working
             || (l.entries[a.id].phase == Resting && Idle(l) && a.ordType == PEG_MID && h.ordType == PEG_MID)
    requires 0 < m <= a.qty && m <= h.qty
    requires WithinLimit(l.entries[a.id], price) && WithinLimit(l.entries[h.id], price)
    ensures Apply(l, Report(FillExec(a.id, h.id, tradeId, price, m, a.qty - m))) == Some(k)
    ensures k == l.(entries := l.entries[a.id := l.entries[a.id].Traded(m)][h.id := l.entries[h.id].Traded(m)])
    ensures Sound(k)
  {
    var e := FillExec(a.id, h.id, tradeId, price, m, a.qty - m);
    k := l.(entries := l.entries[a.id := l.entries[a.id].Traded(m)][h.id := l.entries[h.id].Traded(m)]);
  }

  /** Reports from position n on, replayed from l0, lead to accounts that track the work in progress. */
  ghost predicate Following(l0: Accounts, n: nat, x: Match) {
    && n <= |x.v.execs|
    && Replay(l0, Reports(x.v.execs[n..])).Some?
    && TracksWith(Replay(l0, Reports(x.v.execs[n..])).value, x.v.book, x.a)
  }

  lemma OneMoreReport(l0: Accounts, n: nat, before: seq<Exec>, after: seq<Exec>, e: Exec)
    requires n <= |before| && after == before + [e]
    requires Replay(l0, Reports(before[n..])).Some?
    ensures Replay(l0, Reports(after[n..])) == Apply(Replay(l0, Reports(before[n..])).value, Report(e))
  {
    assert after[n..] == before[n..] + [e];
    assert Reports(after[n..]) == Reports(before[n..]) + [Report(e)];
    ReplaySnoc(l0, Reports(before[n..]), Report(e));
  }

  lemma ListsOfShape(b: Book, side: Side, ordType: OrdType)
    requires Shape(b)
    ensures NoDup(ListOf(b, side, ordType)) && forall o :: o in ListOf(b, side, ordType) ==> Member(o, side, ordType)
    ensures forall s, t :: (s, t) != (side, ordType) ==> Ids(ListOf(b, s, t)) !! Ids(ListOf(b, side, ordType))
    ensures Ids(ListOf(b, side, ordType)) <= OpenIds(b)
  {
    var l := ListOf(b, side, ordType);
    assert forall i :: 0 <= i < |l| ==> Member(l[i], side, ordType);
  }

  /** A trade of the first order of one list against the order being worked on keeps the whole book tracked. */
  lemma TradeTracked(l: Accounts, k: Accounts, b: Book, a: OrderValue, side: Side, ordType: OrdType,
                     after: seq<OrderValue>, h: OrderValue, m: int)
    requires Shape(b) && TracksWith(l, b, a) && ListOf(b, side, ordType) != [] && a.id !in OpenIds(b) && a.qty > 0
    requires var c := ListOf(b, side, ordType)[0];
             && 0 < m <= c.qty && m <= a.qty
             && h.id == c.id && h.qty == c.qty - m && h.side == c.side && h.price == c.price
             && h.ordType == c.ordType && h.tif == c.tif
             && k == l.(entries := l.entries[a.id := l.entries[a.id].Traded(m)][c.id := l.entries[c.id].Traded(m)])
    requires Sound(k)
    requires forall o :: o in after <==> o in ListOf(b, side, ordType)[1..] || (h.qty != 0 && o == h)
    ensures TracksWith(k, WithList(b, side, ordType, after), a.Fill(m))
  {
    var list := ListOf(b, side, ordType);
    assert list[0] in list && list[0].id in Ids(list);
    ListsOfShape(b, side, ordType);
    var d := WithList(b, side, ordType, after);
    forall s, t
      ensures ListTracked(k, ListOf(d, s, t), s, t)
    {
      if (s, t) == (side, ordType) {
        TradedTracked(l, k, list, after, h, side, ordType, a.id);
      } else {
        ListsOfShape(b, s, t);
        ElsewhereTracked(l, k, ListOf(b, s, t), s, t, {a.id, list[0].id});
      }
    }
  }

  lemma HeadTracked(l: Accounts, b: Book, a: OrderValue, side: Side, ordType: OrdType)
    requires Shape(b) && TracksWith(l, b, a) && a.id !in OpenIds(b) && ListOf(b, side, ordType) != []
    ensures var h := ListOf(b, side, ordType)[0];
            Member(h, side, ordType) && Matches(l, h) && l.entries[h.id].phase == Resting && h.id != a.id
  {
    var c := ListOf(b, side, ordType);
    ListsOfShape(b, side, ordType);
    assert c[0] in c && c[0].id in Ids(c);
    assert ListTracked(l, c, side, ordType);
  }

  lemma LitStepTracked(l: Accounts, x: Match) returns (k: Accounts, e: Exec)
    requires LitReady(x) && BookOk(x.v.book) && Incoming(x.a, x.v.book) && TracksWith(l, x.v.book, x.a)
             && x.a.ordType == LIMIT
    ensures LitStep(x).v.execs == x.v.execs + [e] && Apply(l, Report(e)) == Some(k)
    ensures TracksWith(k, LitStep(x).v.book, LitStep(x).a)
  {
    var side, a, c := x.a.side.Opposite(), x.a, x.v.book.Lit(x.a.side.Opposite());
    var m := Min(a.qty, c[0].visible);
    HeadTracked(l, x.v.book, a, side, LIMIT);
    e := FillExec(a.id, c[0].id, x.v.lastTradeId + 1, c[0].price, m, a.qty - m);
    k := FillAccepted(l, a, c[0], x.v.lastTradeId + 1, c[0].price, m);
    var h := AfterFillMembers(c, m);
    TradeTracked(l, k, x.v.book, a, side, LIMIT, AfterFill(c, m), h, m);
  }

  lemma PoolStepTracked(l: Accounts, x: Match, mid: int) returns (k: Accounts, e: Exec)
    requires PoolReady(x) && BookOk(x.v.book) && Incoming(x.a, x.v.book) && TracksWith(l, x.v.book, x.a)
    requires x.a.ordType == LIMIT ==> CrossesMid(x.a.side, x.a.price, mid)
    ensures PoolStep(x, mid).v.execs == x.v.execs + [e] && Apply(l, Report(e)) == Some(k)
    ensures TracksWith(k, PoolStep(x, mid).v.book, PoolStep(x, mid).a)
  {
    var side, a, c := x.a.side.Opposite(), x.a, x.v.book.Peg(x.a.side.Opposite());
    var m := Min(a.qty, c[0].qty);
    HeadTracked(l, x.v.book, a, side, PEG_MID);
    e := FillExec(a.id, c[0].id, x.v.lastTradeId + 1, mid, m, a.qty - m);
    k := FillAccepted(l, a, c[0], x.v.lastTradeId + 1, mid, m);
    var h := AfterPoolFillMembers(c, m);
    TradeTracked(l, k, x.v.book, a, side, PEG_MID, AfterPoolFill(c, m), h, m);
  }

  lemma {:induction false} SweepFollowed(l0: Accounts, n: nat, x: Match)
    requires Following(l0, n, x) && BookOk(x.v.book) && Incoming(x.a, x.v.book) && x.a.ordType == LIMIT
    ensures Following(l0, n, Sweep(x)) && x.v.execs <= Sweep(x).v.execs
    decreases x.a.qty
  {
    if LitReady(x) {
      var l := Replay(l0, Reports(x.v.execs[n..])).value;
      var k, e := LitStepTracked(l, x);
      OneMoreReport(l0, n, x.v.execs, LitStep(x).v.execs, e);
      LitStepKeeps(x);
      SweepFollowed(l0, n, LitStep(x));
    }
  }

  lemma {:induction false} PoolSweepFollowed(l0: Accounts, n: nat, x: Match, mid: int)
    requires Following(l0, n, x) && BookOk(x.v.book) && Incoming(x.a, x.v.book)
    requires x.a.ordType == LIMIT ==> CrossesMid(x.a.side, x.a.price, mid)
    ensures Following(l0, n, PoolSweep(x, mid)) && x.v.execs <= PoolSweep(x, mid).v.execs
    decreases |x.v.book.Peg(x.a.side.Opposite())|, x.a.qty
  {
    if PoolReady(x) {
      var l := Replay(l0, Reports(x.v.execs[n..])).value;
      var k, e := PoolStepTracked(l, x, mid);
      OneMoreReport(l0, n, x.v.execs, PoolStep(x, mid).v.execs, e);
      PoolStepKeeps(x, mid);
      PoolSweepFollowed(l0, n, PoolStep(x, mid), mid);
    }
  }

  // ---------- Disposition and pool cross ----------

  /** The accounts once the order has been accepted onto the book. */
  function Accept(l: Accounts, id: int): Accounts
    requires id in l.entries
  {
    l.(entries := l.entries[id := l.entries[id].(phase := Resting)])
  }

  /** The list the order joins. */
  lemma RestTrackedHere(l: Accounts, x: Match)
    requires BookOk(x.v.book) && Incoming(x.a, x.v.book) && TracksWith(l, x.v.book, x.a)
    requires x.a.qty > 0 && x.a.tif == GTC
    ensures ListTracked(Accept(l, x.a.id), ListOf(Rest(x).v.book, x.a.side, x.a.ordType), x.a.side, x.a.ordType)
  {
    var a := x.a;
    var r := if a.ordType == PEG_MID then a else a.Refresh();
    var list, after := ListOf(x.v.book, a.side, a.ordType), ListOf(Rest(x).v.book, a.side, a.ordType);
    ListsOfShape(x.v.book, a.side, a.ordType);
    JoinedIds(list, after, r, a.ordType);
    JoinTracked(l, Accept(l, a.id), list, after, r, a.side, a.ordType);
  }

  /** The other lists. */
  lemma RestTrackedElsewhere(l: Accounts, x: Match, s: Side, t: OrdType)
    requires BookOk(x.v.book) && Incoming(x.a, x.v.book) && TracksWith(l, x.v.book, x.a)
    requires x.a.qty > 0 && x.a.tif == GTC
    requires (s, t) != (x.a.side, x.a.ordType)
    ensures ListTracked(Accept(l, x.a.id), ListOf(Rest(x).v.book, s, t), s, t)
  {
    ListsOfShape(x.v.book, s, t);
    assert ListOf(Rest(x).v.book, s, t) == ListOf(x.v.book, s, t);
    ElsewhereTracked(l, Accept(l, x.a.id), ListOf(x.v.book, s, t), s, t, {x.a.id});
  }

  lemma RestTracked(l: Accounts, x: Match) returns (k: Accounts, e: Exec)
    requires BookOk(x.v.book) && Incoming(x.a, x.v.book) && TracksWith(l, x.v.book, x.a)
    requires x.a.qty > 0 && x.a.tif == GTC
    ensures Rest(x).v.execs == x.v.execs + [e] && Apply(l, Report(e)) == Some(k)
    ensures Tracks(k, Rest(x).v.book)
  {
    e := AcceptedExec(x.a.id, x.a.price, x.a.qty);
    k := Accept(l, x.a.id);
    forall s, t
      ensures ListTracked(k, ListOf(Rest(x).v.book, s, t), s, t)
    {
      if (s, t) == (x.a.side, x.a.ordType) {
        RestTrackedHere(l, x);
      } else {
        RestTrackedElsewhere(l, x, s, t);
      }
    }
  }

  lemma JoinedIds(list: seq<OrderValue>, after: seq<OrderValue>, r: OrderValue, ordType: OrdType)
    requires after == if ordType == PEG_MID then list + [r] else Insert(list, r)
    ensures Ids(after) == Ids(list) + {r.id} && forall o :: o in after <==> o in list || o == r
  {
    if ordType == PEG_MID {
      assert forall o :: o in after <==> o in list || o == r;
    } else {
      InsertIds(list, r);
    }
  }

  lemma JoinTracked(l: Accounts, k: Accounts, list: seq<OrderValue>, after: seq<OrderValue>, r: OrderValue,
                    side: Side, ordType: OrdType)
    requires ListTracked(l, list, side, ordType) && r.id !in Ids(list)
    requires r.id in l.entries && k.entries == l.entries[r.id := l.entries[r.id].(phase := Resting)]
    requires Matches(l, r) && r.side == side && r.ordType == ordType
    requires Ids(after) == Ids(list) + {r.id} && forall o :: o in after <==> o in list || o == r
    ensures ListTracked(k, after, side, ordType)
  {
    assert forall o :: o in list ==> o.id in Ids(list);
  }

  lemma ExpireTracked(l: Accounts, b: Book, a: OrderValue) returns (k: Accounts)
    requires Shape(b) && a.id !in OpenIds(b) && TracksWith(l, b, a) && a.qty > 0 && a.tif != GTC
    requires a.tif == FOK ==> l.entries[a.id].original == a.qty
    ensures Apply(l, Report(ExpiredExec(a.id, a.qty))) == Some(k) && Tracks(k, b)
  {
    k := l.(entries := l.entries[a.id := l.entries[a.id].(phase := Expired)]);
    forall s, t
      ensures ListTracked(k, ListOf(b, s, t), s, t)
    {
      ListsOfShape(b, s, t);
      ElsewhereTracked(l, k, ListOf(b, s, t), s, t, {a.id});
    }
  }

  ghost predicate FollowingIdle(l0: Accounts, n: nat, v: Venue) {
    && n <= |v.execs|
    && Replay(l0, Reports(v.execs[n..])).Some?
    && Tracks(Replay(l0, Reports(v.execs[n..])).value, v.book)
  }

  /** The report of a pool cross, the later arrival as aggressor, and the accounts after it. */
  lemma CrossReport(l: Accounts, v: Venue, mid: int) returns (k: Accounts, e: Exec)
    requires Shape(v.book) && Tracks(l, v.book) && v.book.pegBids != [] && v.book.pegAsks != []
    ensures CrossStep(v, mid).execs == v.execs + [e] && Apply(l, Report(e)) == Some(k) && Sound(k)
    ensures var bid, ask := v.book.pegBids[0], v.book.pegAsks[0];
            var m := Min(bid.qty, ask.qty);
            && Matches(l, bid) && Matches(l, ask) && bid.id != ask.id && 0 < m
             && k == l.(entries := l.entries[bid.id := l.entries[bid.id].Traded(m)]
                                            [ask.id := l.entries[ask.id].Traded(m)])
  {
    var bid, ask := v.book.pegBids[0], v.book.pegAsks[0];
    var m := Min(bid.qty, ask.qty);
    ListsOfShape(v.book, BUY, PEG_MID);
    ListsOfShape(v.book, SELL, PEG_MID);
    assert bid in ListOf(v.book, BUY, PEG_MID) && ask in ListOf(v.book, SELL, PEG_MID);
    assert bid.id in Ids(v.book.pegBids) && ask.id in Ids(v.book.pegAsks);
    assert ListTracked(l, ListOf(v.book, BUY, PEG_MID), BUY, PEG_MID)
           && ListTracked(l, ListOf(v.book, SELL, PEG_MID), SELL, PEG_MID);
    if IsLater(bid, ask) {
      k := FillAccepted(l, bid, ask, v.lastTradeId + 1, mid, m);
      e := FillExec(bid.id, ask.id, v.lastTradeId + 1, mid, m, bid.qty - m);
    } else {
      k := FillAccepted(l, ask, bid, v.lastTradeId + 1, mid, m);
      e := FillExec(ask.id, bid.id, v.lastTradeId + 1, mid, m, ask.qty - m);
    }
  }

  lemma CrossListTracked(l: Accounts, k: Accounts, v: Venue, mid: int, s: Side, t: OrdType)
    requires Shape(v.book) && Tracks(l, v.book) && v.book.pegBids != [] && v.book.pegAsks != []
    requires var bid, ask := v.book.pegBids[0], v.book.pegAsks[0];
             var m := Min(bid.qty, ask.qty);
             && Matches(l, bid) && Matches(l, ask) && bid.id != ask.id && 0 < m && Sound(k)
             && k == l.(entries := l.entries[bid.id := l.entries[bid.id].Traded(m)]
                                            [ask.id := l.entries[ask.id].Traded(m)])
    ensures ListTracked(k, ListOf(CrossStep(v, mid).book, s, t), s, t)
  {
    var b, d := v.book, CrossStep(v, mid).book;
    var bid, ask := b.pegBids[0], b.pegAsks[0];
    var m := Min(bid.qty, ask.qty);
    ListsOfShape(b, BUY, PEG_MID);
    ListsOfShape(b, SELL, PEG_MID);
    assert bid.id in Ids(b.pegBids) && ask.id in Ids(b.pegAsks);
    if t == PEG_MID && s == BUY {
      var hb := AfterPoolFillMembers(b.pegBids, m);
      TradedTracked(l, k, b.pegBids, d.pegBids, hb, BUY, PEG_MID, ask.id);
    } else if t == PEG_MID {
      var ha := AfterPoolFillMembers(b.pegAsks, m);
      TradedTracked(l, k, b.pegAsks, d.pegAsks, ha, SELL, PEG_MID, bid.id);
    } else {
      ListsOfShape(b, s, t);
      ElsewhereTracked(l, k, ListOf(b, s, t), s, t, {bid.id, ask.id});
    }
  }

  lemma CrossStepTracked(l: Accounts, v: Venue, mid: int) returns (k: Accounts, e: Exec)
    requires Shape(v.book) && Tracks(l, v.book) && v.book.pegBids != [] && v.book.pegAsks != []
    ensures CrossStep(v, mid).execs == v.execs + [e] && Apply(l, Report(e)) == Some(k)
    ensures Tracks(k, CrossStep(v, mid).book)
  {
    k, e := CrossReport(l, v, mid);
    forall s, t
      ensures ListTracked(k, ListOf(CrossStep(v, mid).book, s, t), s, t)
    {
      CrossListTracked(l, k, v, mid, s, t);
    }
  }

  lemma {:induction false} CrossFollowed(l0: Accounts, n: nat, v: Venue, mid: int)
    requires FollowingIdle(l0, n, v) && Shape(v.book) && Uncrossed(v.book)
    ensures FollowingIdle(l0, n, CrossLoop(v, mid)) && v.execs <= CrossLoop(v, mid).execs
    decreases |v.book.pegBids| + |v.book.pegAsks|
  {
    if v.book.pegBids != [] && v.book.pegAsks != [] {
      var l := Replay(l0, Reports(v.execs[n..])).value;
      var k, e := CrossStepTracked(l, v, mid);
      OneMoreReport(l0, n, v.execs, CrossStep(v, mid).execs, e);
      CrossStepKeeps(v, mid);
      CrossFollowed(l0, n, CrossStep(v, mid), mid);
    }
  }

  // ---------- Events ----------

  lemma TradingFollowed(l0: Accounts, n: nat, x: Match)
    requires Following(l0, n, x) && BookOk(x.v.book) && Incoming(x.a, x.v.book)
    ensures Following(l0, n, Trading(x)) && x.v.execs <= Trading(x).v.execs
  {
    var y := if TakesPool(x.a, x.v.book) then PoolSweep(x, x.v.book.Mid()) else x;
    if TakesPool(x.a, x.v.book) {
      PoolSweepFollowed(l0, n, x, x.v.book.Mid());
      PoolSweepKeeps(x, x.v.book.Mid());
    }
    if x.a.ordType == LIMIT {
      SweepFollowed(l0, n, y);
    }
  }

  lemma DisposeFollowed(l0: Accounts, n: nat, x: Match)
    requires Following(l0, n, x) && BookOk(x.v.book) && Incoming(x.a, x.v.book)
    requires x.a.tif == FOK ==> x.a.qty == 0
    ensures FollowingIdle(l0, n, Dispose(x).v) && x.v.execs <= Dispose(x).v.execs
  {
    var l := Replay(l0, Reports(x.v.execs[n..])).value;
    if x.a.qty > 0 {
      if x.a.tif == GTC {
        var k, e := RestTracked(l, x);
        OneMoreReport(l0, n, x.v.execs, Dispose(x).v.execs, e);
      } else {
        var k := ExpireTracked(l, x.v.book, x.a);
        OneMoreReport(l0, n, x.v.execs, Dispose(x).v.execs, ExpiredExec(x.a.id, x.a.qty));
      }
    }
  }

  lemma KilledFollowed(l1: Accounts, v: Venue, o: OrderValue)
    requires BookOk(v.book) && Incoming(o, v.book) && o.qty > 0 && TracksWith(l1, v.book, o) && Killed(v, o)
    requires l1.entries[o.id].original == o.qty
    ensures v.execs <= Add(v, o).v.execs && FollowingIdle(l1, |v.execs|, Add(v, o).v)
  {
    var k := ExpireTracked(l1, v.book, o);
    assert v.execs[|v.execs|..] == [];
    OneMoreReport(l1, |v.execs|, v.execs, Add(v, o).v.execs, ExpiredExec(o.id, o.qty));
  }

  lemma TakenFollowed(l1: Accounts, v: Venue, o: OrderValue)
    requires BookOk(v.book) && Incoming(o, v.book) && o.qty > 0 && TracksWith(l1, v.book, o) && !Killed(v, o)
    requires l1.entries[o.id].original == o.qty
    ensures v.execs <= Add(v, o).v.execs && FollowingIdle(l1, |v.execs|, Add(v, o).v)
  {
    var n, x := |v.execs|, Match(v, o);
    assert v.execs[n..] == [];
    TradingFollowed(l1, n, x);
    TradingKeeps(x);
    TradedInAll(v, o);
    DisposeFollowed(l1, n, Trading(x));
    var y := Dispose(Trading(x));
    if o.ordType == LIMIT {
      DisposeShape(Trading(x));
      if y.v.book.Mid() != NA {
        CrossFollowed(l1, n, y.v, y.v.book.Mid());
      }
    }
  }

  /** An admitted order's reports, from its mark to the next event, obey the protocol. */
  lemma AddFollowed(l: Accounts, v: Venue, o: OrderValue)
    requires BookOk(v.book) && Tracks(l, v.book) && OrderOk(o) && o.id !in l.entries && o.id !in l.refused
    ensures BookOk(Add(v, o).v.book) && v.execs <= Add(v, o).v.execs
    ensures var ts := [Admitted(o)] + Reports(Add(v, o).v.execs[|v.execs|..]);
            Replay(l, ts).Some? && Tracks(Replay(l, ts).value, Add(v, o).v.book)
  {
    UntrackedId(l, v.book, o.id);
    FreshIdKeeps(v, o);
    EntryTracked(l, v.book, o);
    var l1 := Apply(l, Admitted(o)).value;
    if Killed(v, o) {
      KilledFollowed(l1, v, o);
    } else {
      TakenFollowed(l1, v, o);
    }
    ReplayConcat(l, [Admitted(o)], Reports(Add(v, o).v.execs[|v.execs|..]));
    assert [Admitted(o)][1..] == [];
  }

  lemma DisposeShape(x: Match)
    requires BookOk(x.v.book) && Incoming(x.a, x.v.book) && x.a.ordType == LIMIT && !LitReady(x)
    ensures Shape(Dispose(x).v.book) && Uncrossed(Dispose(x).v.book)
  {
    if x.a.qty > 0 && x.a.tif == GTC {
      RestKeeps(x);
    }
  }

  lemma UntrackedId(l: Accounts, b: Book, id: int)
    requires BookTracked(l, b) && id !in l.entries
    ensures id !in OpenIds(b)
  {
    assert ListTracked(l, ListOf(b, BUY, LIMIT), BUY, LIMIT) && ListTracked(l, ListOf(b, SELL, LIMIT), SELL, LIMIT);
    assert ListTracked(l, ListOf(b, BUY, PEG_MID), BUY, PEG_MID);
    assert ListTracked(l, ListOf(b, SELL, PEG_MID), SELL, PEG_MID);
  }

  lemma EntryTracked(l: Accounts, b: Book, o: OrderValue)
    requires Tracks(l, b) && OrderOk(o) && o.id !in l.entries && o.id !in l.refused
    ensures Apply(l, Admitted(o)).Some? && TracksWith(Apply(l, Admitted(o)).value, b, o)
  {
    UntrackedId(l, b, o.id);
    var m := Apply(l, Admitted(o)).value;
    forall s, t
      ensures ListTracked(m, ListOf(b, s, t), s, t)
    {
      ElsewhereTracked(l, m, ListOf(b, s, t), s, t, {o.id});
    }
  }

  lemma GoneTracked(l: Accounts, k: Accounts, list: seq<OrderValue>, after: seq<OrderValue>, id: int, side: Side,
                    ordType: OrdType)
    requires ListTracked(l, list, side, ordType) && id in l.entries
    requires k.entries == l.entries[id := l.entries[id].(phase := Cancelled)]
    requires Ids(after) == Ids(list) - {id} && forall o :: o in after <==> o in list && o.id != id
    ensures ListTracked(k, after, side, ordType)
  {
    assert forall o :: o in list ==> o.id in Ids(list);
  }

  lemma CancelListTracked(l: Accounts, k: Accounts, b: Book, id: int, s: Side, t: OrdType)
    requires BookOk(b) && Tracks(l, b) && id in l.entries
    requires k == l.(entries := l.entries[id := l.entries[id].(phase := Cancelled)])
    ensures ListTracked(k, ListOf(Cancel(b, id), s, t), s, t)
  {
    ListsOfShape(b, s, t);
    RemoveKeeps(ListOf(b, s, t), id);
    GoneTracked(l, k, ListOf(b, s, t), ListOf(Cancel(b, id), s, t), id, s, t);
  }

  lemma CancelTracked(l: Accounts, b: Book, id: int) returns (k: Accounts)
    requires BookOk(b) && Tracks(l, b) && id in OpenIds(b)
    ensures Apply(l, Report(PlainExec(ORDER_CANCELLED, id))) == Some(k) && Tracks(k, Cancel(b, id))
  {
    OpenIsResting(l, b, id);
    k := l.(entries := l.entries[id := l.entries[id].(phase := Cancelled)]);
    forall s, t
      ensures ListTracked(k, ListOf(Cancel(b, id), s, t), s, t)
    {
      CancelListTracked(l, k, b, id, s, t);
    }
  }

  /** Open in the book and resting in the accounts are the same thing. */
  lemma OpenIsResting(l: Accounts, b: Book, id: int)
    requires BookTracked(l, b)
    ensures id in OpenIds(b) <==> id in l.entries && l.entries[id].phase == Resting
  {
    assert ListTracked(l, ListOf(b, BUY, LIMIT), BUY, LIMIT) && ListTracked(l, ListOf(b, SELL, LIMIT), SELL, LIMIT);
    assert ListTracked(l, ListOf(b, BUY, PEG_MID), BUY, PEG_MID);
    assert ListTracked(l, ListOf(b, SELL, PEG_MID), SELL, PEG_MID);
    if id in l.entries && l.entries[id].phase == Resting {
      assert RestsIn(l.entries[id], l.entries[id].side, l.entries[id].ordType);
    }
  }

  /** A new order must not reuse an id that was admitted or refused before. */
  predicate FreshId(l: Accounts, e: OrderEvent) {
    e.eventType.NEW_ORDER? ==> e.orderId !in l.entries && e.orderId !in l.refused
  }

  lemma OneReport(l: Accounts, t: Token)
    ensures Replay(l, [t]) == Apply(l, t)
  {
    assert [t][1..] == [];
  }

  lemma CancelFollowed(l: Accounts, v: Venue, e: OrderEvent)
    requires BookOk(v.book) && Tracks(l, v.book) && e.eventType.CANCEL_ORDER?
    ensures BookOk(Process(v, e).book) && v.execs <= Process(v, e).execs
    ensures Replay(l, Tokens(v, e)).Some? && Tracks(Replay(l, Tokens(v, e)).value, Process(v, e).book)
  {
    var w, id := Process(v, e), e.originalOrderId;
    OpenIsResting(l, v.book, id);
    var x := w.execs[|v.execs|];
    assert w.execs[|v.execs|..] == [x];
    assert Tokens(v, e) == [Report(x)];
    OneReport(l, Report(x));
    if id in OpenIds(v.book) {
      CancelKeeps(v.book, id);
      var k := CancelTracked(l, v.book, id);
    }
  }

  lemma RefusalFollowed(l: Accounts, v: Venue, e: OrderEvent)
    requires BookOk(v.book) && Tracks(l, v.book) && FreshId(l, e) && e.eventType.NEW_ORDER? && OrderOf(e).None?
    ensures Process(v, e) == v.Say(PlainExec(ORDER_REJECTED, e.orderId))
    ensures Replay(l, Tokens(v, e)).Some? && Tracks(Replay(l, Tokens(v, e)).value, v.book)
  {
    var x, m := PlainExec(ORDER_REJECTED, e.orderId), Apply(l, Refused(e.orderId)).value;
    assert Process(v, e).execs[|v.execs|..] == [x];
    assert Tokens(v, e) == [Refused(e.orderId)] + [Report(x)];
    ReplayConcat(l, [Refused(e.orderId)], [Report(x)]);
    OneReport(l, Refused(e.orderId));
    OneReport(m, Report(x));
    forall s, t
      ensures ListTracked(m, ListOf(v.book, s, t), s, t)
    {
      ElsewhereTracked(l, m, ListOf(v.book, s, t), s, t, {});
    }
  }

  lemma ProcessFollowed(l: Accounts, v: Venue, e: OrderEvent)
    requires BookOk(v.book) && Tracks(l, v.book) && FreshId(l, e)
    ensures BookOk(Process(v, e).book) && v.execs <= Process(v, e).execs
    ensures Replay(l, Tokens(v, e)).Some? && Tracks(Replay(l, Tokens(v, e)).value, Process(v, e).book)
  {
    if e.eventType.CANCEL_ORDER? {
      CancelFollowed(l, v, e);
    } else if OrderOf(e).None? {
      RefusalFollowed(l, v, e);
    } else {
      AddFollowed(l, v, OrderOf(e).value);
    }
  }

  // ---------- Runs ----------

  ghost function Run(v: Venue, es: seq<OrderEvent>): Venue
    decreases |es|
  {
    if es == [] then v else Run(Process(v, es[0]), es[1..])
  }

  ghost function Stream(v: Venue, es: seq<OrderEvent>): seq<Token>
    decreases |es|
  {
    if es == [] then [] else Tokens(v, es[0]) + Stream(Process(v, es[0]), es[1..])
  }

  /** No two new orders of a run share an id, and none uses a given id. */
  predicate UniqueIds(es: seq<OrderEvent>, used: set<int>)
    decreases |es|
  {
    es == [] ||
    if es[0].eventType.NEW_ORDER? then es[0].orderId !in used && UniqueIds(es[1..], used + {es[0].orderId})
    else UniqueIds(es[1..], used)
  }

  lemma {:induction false} ReplayIds(l: Accounts, ts: seq<Token>)
    requires Replay(l, ts).Some?
    ensures var r := Replay(l, ts).value;
            r.entries.Keys + r.refused <= l.entries.Keys + l.refused + MarkedIds(ts)
    decreases |ts|
  {
    if ts != [] {
      ReplayIds(Apply(l, ts[0]).value, ts[1..]);
      assert ts == [ts[0]] + ts[1..];
    }
  }

  function MarkedIds(ts: seq<Token>): set<int>
    decreases |ts|
  {
    if ts == [] then {}
    else (match ts[0] case Admitted(o) => {o.id} case Refused(id) => {id} case Report(_) => {}) + MarkedIds(ts[1..])
  }

  lemma {:induction false} ReportsMarkNothing(ts: seq<Token>)
    requires forall i :: 0 <= i < |ts| ==> ts[i].Report?
    ensures MarkedIds(ts) == {}
    decreases |ts|
  {
    if ts != [] {
      ReportsMarkNothing(ts[1..]);
    }
  }

  lemma TokensMark(v: Venue, e: OrderEvent)
    ensures MarkedIds(Tokens(v, e)) == if e.eventType.NEW_ORDER? then {e.orderId} else {}
  {
    var ts := Tokens(v, e);
    var rest := Reports(Process(v, e).execs[Min(|v.execs|, |Process(v, e).execs|)..]);
    ReportsMarkNothing(rest);
    if e.eventType.NEW_ORDER? {
      assert ts[1..] == rest;
    } else {
      assert ts == rest;
    }
  }

  /** Every run with unique ids, from any state whose accounts are in order: the book stays well formed, the reports
      obey the protocol, and the accounts they describe are exactly the book. */
  lemma {:induction false} RunObeysProtocol(l: Accounts, v: Venue, es: seq<OrderEvent>, used: set<int>)
    requires BookOk(v.book) && Tracks(l, v.book) && l.entries.Keys + l.refused <= used && UniqueIds(es, used)
    ensures BookOk(Run(v, es).book) && v.execs <= Run(v, es).execs
    ensures Replay(l, Stream(v, es)).Some? && Tracks(Replay(l, Stream(v, es)).value, Run(v, es).book)
    decreases |es|
  {
    if es != [] {
      var e := es[0];
      ProcessFollowed(l, v, e);
      var m := Replay(l, Tokens(v, e)).value;
      ReplayIds(l, Tokens(v, e));
      TokensMark(v, e);
      RunObeysProtocol(m, Process(v, e), es[1..], if e.eventType.NEW_ORDER? then used + {e.orderId} else used);
      ReplayConcat(l, Tokens(v, e), Stream(Process(v, e), es[1..]));
    }
  }

  /** From the opening. */
  lemma OpeningRun(es: seq<OrderEvent>)
    requires UniqueIds(es, {})
    ensures BookOk(Run(OPENING, es).book)
    ensures Replay(NO_ACCOUNTS, Stream(OPENING, es)).Some?
    ensures var l := Replay(NO_ACCOUNTS, Stream(OPENING, es)).value;
            Tracks(l, Run(OPENING, es).book)
            && forall id :: id in OpenIds(Run(OPENING, es).book) <==> id in l.entries && l.entries[id].phase == Resting
  {
    RunObeysProtocol(NO_ACCOUNTS, OPENING, es, {});
    var l := Replay(NO_ACCOUNTS, Stream(OPENING, es)).value;
    forall id
      ensures id in OpenIds(Run(OPENING, es).book) <==> id in l.entries && l.entries[id].phase == Resting
    {
      OpenIsResting(l, Run(OPENING, es).book, id);
    }
  }
}
