/** The client follows the engine: its rows, built from in-order reports and its own send records, agree with the
    engine's orders although fills of resting orders are never reported to them. */
module Following {
  import opened Orders
  import opened Events
  import opened Matching
  import opened Invariant
  import opened Ledger
  import opened Session
  import opened Reuse
  import opened Client

  /** The client, the engine, the accounts after all reports and after the delivered ones, the reports under way, and
      all there ever were, delivered or not. */
  datatype System = System(client: AppState, v: Venue, accounts: Accounts, seen: Accounts, inflight: seq<Token>,
                           log: seq<Token>)

  const START := System(INITIAL, OPENING, NO_ACCOUNTS, NO_ACCOUNTS, [], [])

  /** Send records a new order at the client; Serve lets the engine take an event; Deliver brings the client the next
      report; Other is any client action that is neither a new order nor a report. */
  datatype Step =
    | Send(frame: ClientFrame, sentAt: Option<int>)
    | Serve(e: OrderEvent)
    | Deliver(at: int)
    | Other(a: Action)

  /** The row status an account stands for. */
  function StatusOf(n: Entry): RowStatus {
    match n.phase
    case Working => if n.remaining == n.original then PENDING else RowStatus.PARTIALLY_FILLED
    case Resting => if n.remaining == n.original then RowStatus.OPEN else RowStatus.PARTIALLY_FILLED
    case Filled => RowStatus.FILLED
    case Cancelled => RowStatus.CANCELLED
    case Expired => RowStatus.EXPIRED
  }

  /** The side and quantity of a row are those of the order admitted under its id. */
  ghost predicate Terms(o: MyOrder, l: Accounts) {
    o.clOrdId in l.entries ==>
      o.originalQty == l.entries[o.clOrdId].original && o.side == l.entries[o.clOrdId].side
  }

  ghost predicate TermsOk(rows: seq<MyOrder>, l: Accounts) {
    forall i :: 0 <= i < |rows| ==> Terms(rows[i], l)
  }

  /** A row agrees with the accounts: with its order once admitted; otherwise it waits, or was refused. */
  ghost predicate RowOk(o: MyOrder, l: Accounts) {
    && o.clOrdId > 0 && o.originalQty > 0 && Terms(o, l)
    && if o.clOrdId in l.entries then
         && o.remainingQty == l.entries[o.clOrdId].remaining
         && o.status == StatusOf(l.entries[o.clOrdId])
       else
         && o.remainingQty == o.originalQty
         && (o.status == PENDING || (o.status == REJECTED && o.clOrdId in l.refused))
  }

  /** A row closed as rejected although its order has not been refused. */
  ghost predicate Struck(o: MyOrder, l: Accounts) {
    && o.clOrdId > 0 && o.originalQty > 0 && Terms(o, l)
    && o.remainingQty == o.originalQty && o.status == REJECTED && o.clOrdId !in l.refused
  }

  ghost predicate Agree(rows: seq<MyOrder>, l: Accounts) {
    forall i :: 0 <= i < |rows| ==> RowOk(rows[i], l)
  }

  /** Rows have ids of their own, and each agrees or was struck. */
  ghost predicate RowsOk(rows: seq<MyOrder>, l: Accounts) {
    && (forall i :: 0 <= i < |rows| ==> RowOk(rows[i], l) || Struck(rows[i], l))
    && (forall i, j :: 0 <= i < j < |rows| ==> rows[i].clOrdId != rows[j].clOrdId)
  }

  /** Every row of a refused order has its rejection behind it or on its way. */
  ghost predicate RefusalsReach(rows: seq<MyOrder>, l: Accounts, ts: seq<Token>) {
    forall i :: 0 <= i < |rows| && rows[i].clOrdId in l.refused ==>
      rows[i].status == REJECTED || Report(PlainExec(ORDER_REJECTED, rows[i].clOrdId)) in ts
  }

  /** How many reports have been delivered. */
  function Delivered(s: System): int {
    |s.log| - |s.inflight|
  }

  /** What is under way is the end of the log; what came before it is what the client has seen. */
  ghost predicate LogOk(s: System) {
    && 0 <= Delivered(s) && s.inflight == s.log[Delivered(s)..]
    && Replay(NO_ACCOUNTS, s.log[..Delivered(s)]) == Some(s.seen)
    && Replay(s.seen, s.inflight) == Some(s.accounts)
  }

  ghost predicate Synced(s: System) {
    && BookOk(s.v.book) && Tracks(s.accounts, s.v.book) && Disjoint(s.accounts)
    && Sound(s.seen) && LogOk(s)
    && RowsOk(s.client.myOrders, s.seen)
    && TermsOk(s.client.myOrders, s.accounts)
    && RefusalsReach(s.client.myOrders, s.accounts, s.inflight)
  }

  predicate TouchesRows(a: Action) {
    (a.FRAME? && a.frame.ExecFrame?) || (a.SENT? && a.sent.NewFrame?)
  }

  predicate AsSent(e: OrderEvent, row: MyOrder) {
    e.side == Some(row.side) && e.quantity == row.originalQty && e.quantity < 0x8000_0000
  }

  predicate Unknown(l: Accounts, id: int) {
    id !in l.entries && id !in l.refused
  }

  /** What a step may rely on. A new order's id is new to the engine when it is first sent and when it is served, and an
      order of the client's is served with the side and quantity sent (which must survive the handler's narrowing to
      32 bits). Cancels may name any id at any time. */
  ghost predicate Legal(s: System, step: Step) {
    match step
    case Send(f, _) => f.NewFrame? && f.clOrdId > 0 && f.qty > 0
                       && (FindRow(s.client.myOrders, f.clOrdId) == -1 ==> Unknown(s.accounts, f.clOrdId))
    case Serve(e) =>
      e.eventType.NEW_ORDER? ==>
        var row := FindRow(s.client.myOrders, e.orderId);
        FreshId(s.accounts, e) && (row != -1 ==> AsSent(e, s.client.myOrders[row]))
    case Deliver(_) => s.inflight != []
    case Other(a) => !TouchesRows(a)
  }

  function Kept(l: Accounts, next: Option<Accounts>): Accounts {
    if next.Some? then next.value else l
  }

  ghost function Next(s: System, step: Step): System
    requires Legal(s, step)
  {
    match step
    case Send(f, at) => s.(client := Reducer(s.client, SENT(f, at)))
    case Serve(e) =>
      var ts := Tokens(s.v, e);
      s.(v := Process(s.v, e), accounts := Kept(s.accounts, Replay(s.accounts, ts)),
         inflight := s.inflight + ts, log := s.log + ts)
    case Deliver(at) =>
      var t := s.inflight[0];
      s.(seen := Kept(s.seen, Apply(s.seen, t)), inflight := s.inflight[1..],
         client := if t.Report? then Reducer(s.client, FRAME(ExecFrame(t.e, at))) else s.client)
    case Other(a) => s.(client := Reducer(s.client, a))
  }

  /** A rejection of an id the reports before it never mentioned: that of a cancel which came before its order. */
  predicate Strikes(l: Accounts, t: Token, id: int) {
    t.Report? && t.e.execType == ORDER_REJECTED && t.e.orderId == id && Unknown(l, id)
  }

  /** The step delivers such a rejection while a row has the id. */
  predicate Harms(s: System, step: Step, id: int) {
    && step.Deliver? && s.inflight != [] && Strikes(s.seen, s.inflight[0], id)
    && FindRow(s.client.myOrders, id) != -1
  }

  // ---------- Delivering one token ----------

  predicate SameTerms(a: MyOrder, b: MyOrder) {
    a.clOrdId == b.clOrdId && a.side == b.side && a.originalQty == b.originalQty
  }

  function RowAfter(o: MyOrder, e: Exec): MyOrder {
    if o.clOrdId == e.orderId then NextOrder(o, e)
    else if IsFill(e) && o.clOrdId == e.passive then PassiveFill(o, e.filled) else o
  }

  /** A row after one report agrees again, unless the report strikes it. */
  lemma RowStep(o: MyOrder, l: Accounts, e: Exec, k: Accounts)
    requires RowOk(o, l) && Sound(l) && Apply(l, Report(e)) == Some(k)
    ensures RowOk(RowAfter(o, e), k) <==> !Strikes(l, Report(e), o.clOrdId)
    ensures Strikes(l, Report(e), o.clOrdId) ==> Struck(RowAfter(o, e), k)
    ensures IsFill(e) && o.clOrdId == e.passive ==> e.filled <= o.remainingQty && !IsTerminal(o.status)
  {
  }

  lemma StruckStep(o: MyOrder, l: Accounts, e: Exec, k: Accounts)
    requires Struck(o, l) && Apply(l, Report(e)) == Some(k)
    ensures RowAfter(o, e) == o && Struck(o, k)
  {
  }

  lemma RowsAfter(rows: seq<MyOrder>, l: Accounts, e: Exec)
    requires RowsOk(rows, l)
    ensures forall i :: 0 <= i < |rows| ==>
              UpdateRows(rows, e)[i] == RowAfter(rows[i], e) && SameTerms(RowAfter(rows[i], e), rows[i])
  {
  }

  lemma RowsStep(rows: seq<MyOrder>, l: Accounts, e: Exec, k: Accounts)
    requires RowsOk(rows, l) && Sound(l) && Apply(l, Report(e)) == Some(k)
    ensures RowsOk(UpdateRows(rows, e), k)
    ensures Agree(rows, l) ==>
              (Agree(UpdateRows(rows, e), k)
               <==> forall i :: 0 <= i < |rows| ==> !Strikes(l, Report(e), rows[i].clOrdId))
  {
    var r := UpdateRows(rows, e);
    RowsAfter(rows, l, e);
    forall i | 0 <= i < |rows|
      ensures RowOk(r[i], k) || Struck(r[i], k)
      ensures RowOk(rows[i], l) ==> (RowOk(r[i], k) <==> !Strikes(l, Report(e), rows[i].clOrdId))
    {
      if RowOk(rows[i], l) {
        RowStep(rows[i], l, e, k);
      } else {
        StruckStep(rows[i], l, e, k);
      }
    }
  }

  /** A mark makes no row disagree: an admitted order's row is still waiting with its full quantity. */
  lemma RowsMarked(rows: seq<MyOrder>, l: Accounts, t: Token, k: Accounts)
    requires RowsOk(rows, l) && !t.Report? && Apply(l, t) == Some(k) && TermsOk(rows, k)
    ensures RowsOk(rows, k) && (Agree(rows, l) ==> Agree(rows, k))
  {
    forall i | 0 <= i < |rows|
      ensures RowOk(rows[i], k) || Struck(rows[i], k)
      ensures RowOk(rows[i], l) ==> RowOk(rows[i], k)
    {
      assert Terms(rows[i], k);
    }
  }

  /** Terms that agree with later accounts agree with earlier ones: no report changes an order's terms. */
  lemma TermsBefore(rows: seq<MyOrder>, l: Accounts, ts: seq<Token>)
    requires Sound(l) && Replay(l, ts).Some? && TermsOk(rows, Replay(l, ts).value)
    ensures TermsOk(rows, l)
  {
    forall i | 0 <= i < |rows| && rows[i].clOrdId in l.entries
      ensures Terms(rows[i], l)
    {
      StreamAccounts(l, ts, rows[i].clOrdId);
      assert Terms(rows[i], Replay(l, ts).value);
    }
  }

  // ---------- Each step ----------

  lemma FoundRow(rows: seq<MyOrder>, id: int)
    ensures FindRow(rows, id) != -1 <==> exists i :: 0 <= i < |rows| && rows[i].clOrdId == id
  {
  }

  lemma SendSynced(s: System, f: ClientFrame, at: Option<int>)
    requires Synced(s) && Legal(s, Send(f, at))
    ensures Synced(Next(s, Send(f, at)))
    ensures Agree(s.client.myOrders, s.seen) ==> Agree(Next(s, Send(f, at)).client.myOrders, s.seen)
  {
    var rows := s.client.myOrders;
    if FindRow(rows, f.clOrdId) == -1 {
      var o := MyOrder(f.clOrdId, f.side, f.price, f.qty, f.qty, PENDING, f.ordType, f.tif, f.maxFloor, at);
      var r := [o] + rows;
      assert forall i :: 0 < i < |r| ==> r[i] == rows[i - 1];
      KeysGrow(s.seen, s.inflight);
      assert RowOk(o, s.seen);
    }
  }

  lemma {:induction false} KeysGrow(l: Accounts, ts: seq<Token>)
    requires Sound(l) && Replay(l, ts).Some?
    ensures l.entries.Keys <= Replay(l, ts).value.entries.Keys && l.refused <= Replay(l, ts).value.refused
    decreases |ts|
  {
    if ts != [] {
      ApplyKeepsSound(l, ts[0]);
      KeysGrow(Apply(l, ts[0]).value, ts[1..]);
    }
  }

  lemma DeliverLog(s: System, at: int)
    requires Synced(s) && Legal(s, Deliver(at))
    ensures LogOk(Next(s, Deliver(at))) && Sound(Next(s, Deliver(at)).seen)
    ensures Delivered(Next(s, Deliver(at))) == Delivered(s) + 1
  {
    var d, t := Delivered(s), s.inflight[0];
    assert s.log[..d + 1] == s.log[..d] + [t];
    ReplaySnoc(NO_ACCOUNTS, s.log[..d], t);
    ApplyKeepsSound(s.seen, t);
  }

  lemma DeliverRows(s: System, at: int)
    requires Synced(s) && Legal(s, Deliver(at))
    ensures var r := Next(s, Deliver(at));
            && RowsOk(r.client.myOrders, r.seen) && TermsOk(r.client.myOrders, r.accounts)
            && RefusalsReach(r.client.myOrders, r.accounts, r.inflight)
  {
    var t, rest, rows := s.inflight[0], s.inflight[1..], s.client.myOrders;
    var k := Apply(s.seen, t).value;
    DeliverLog(s, at);
    TermsBefore(rows, k, rest);
    if t.Report? {
      RowsStep(rows, s.seen, t.e, k);
      RowsAfter(rows, s.seen, t.e);
      assert TermsOk(UpdateRows(rows, t.e), s.accounts);
      RefusedRows(s, t.e, k);
    } else {
      RowsMarked(rows, s.seen, t, k);
      assert s.inflight == [t] + rest;
    }
  }

  lemma ReportAgrees(s: System, at: int)
    requires Synced(s) && Legal(s, Deliver(at)) && Agree(s.client.myOrders, s.seen) && s.inflight[0].Report?
    ensures Agree(Next(s, Deliver(at)).client.myOrders, Next(s, Deliver(at)).seen)
            <==> forall i :: 0 <= i < |s.client.myOrders| ==>
                   !Strikes(s.seen, s.inflight[0], s.client.myOrders[i].clOrdId)
  {
    RowsStep(s.client.myOrders, s.seen, s.inflight[0].e, Apply(s.seen, s.inflight[0]).value);
  }

  lemma MarkAgrees(s: System, at: int)
    requires Synced(s) && Legal(s, Deliver(at)) && Agree(s.client.myOrders, s.seen) && !s.inflight[0].Report?
    ensures Agree(Next(s, Deliver(at)).client.myOrders, Next(s, Deliver(at)).seen)
  {
    var t, rows := s.inflight[0], s.client.myOrders;
    var k := Apply(s.seen, t).value;
    DeliverLog(s, at);
    TermsBefore(rows, k, s.inflight[1..]);
    RowsMarked(rows, s.seen, t, k);
  }

  lemma HarmsRow(s: System, at: int)
    ensures (forall id :: !Harms(s, Deliver(at), id))
            <==> s.inflight == [] ||
                 forall i :: 0 <= i < |s.client.myOrders| ==>
                   !Strikes(s.seen, s.inflight[0], s.client.myOrders[i].clOrdId)
  {
    var rows := s.client.myOrders;
    forall id
      ensures FindRow(rows, id) != -1 <==> exists i :: 0 <= i < |rows| && rows[i].clOrdId == id
    {
      FoundRow(rows, id);
    }
    if i :| 0 <= i < |rows| && s.inflight != [] && Strikes(s.seen, s.inflight[0], rows[i].clOrdId) {
      assert Harms(s, Deliver(at), rows[i].clOrdId);
    }
  }

  lemma DeliverAgrees(s: System, at: int)
    requires Synced(s) && Legal(s, Deliver(at)) && Agree(s.client.myOrders, s.seen)
    ensures Agree(Next(s, Deliver(at)).client.myOrders, Next(s, Deliver(at)).seen)
            <==> forall id :: !Harms(s, Deliver(at), id)
  {
    HarmsRow(s, at);
    if s.inflight[0].Report? {
      ReportAgrees(s, at);
    } else {
      MarkAgrees(s, at);
    }
  }

  lemma DeliverSynced(s: System, at: int)
    requires Synced(s) && Legal(s, Deliver(at))
    ensures Synced(Next(s, Deliver(at)))
    ensures Agree(s.client.myOrders, s.seen) ==>
              (Agree(Next(s, Deliver(at)).client.myOrders, Next(s, Deliver(at)).seen)
               <==> forall id :: !Harms(s, Deliver(at), id))
  {
    DeliverLog(s, at);
    DeliverRows(s, at);
    if Agree(s.client.myOrders, s.seen) {
      DeliverAgrees(s, at);
    }
  }

  /** The rejection of a refused order marks its row. */
  lemma RefusedRows(s: System, e: Exec, k: Accounts)
    requires Synced(s) && s.inflight != [] && s.inflight[0] == Report(e) && Apply(s.seen, Report(e)) == Some(k)
    requires RowsOk(UpdateRows(s.client.myOrders, e), k)
    ensures RefusalsReach(UpdateRows(s.client.myOrders, e), s.accounts, s.inflight[1..])
  {
    var rows, r := s.client.myOrders, UpdateRows(s.client.myOrders, e);
    RowsAfter(rows, s.seen, e);
    KeysGrow(s.seen, s.inflight);
    assert s.inflight == [Report(e)] + s.inflight[1..];
    forall i | 0 <= i < |r| && r[i].clOrdId in s.accounts.refused
      ensures r[i].status == REJECTED || Report(PlainExec(ORDER_REJECTED, r[i].clOrdId)) in s.inflight[1..]
    {
      assert rows[i].status == REJECTED || Report(PlainExec(ORDER_REJECTED, rows[i].clOrdId)) in s.inflight;
      assert r[i] == RowAfter(rows[i], e);
    }
  }

  /** An id is admitted or refused, never both. */
  ghost predicate Disjoint(l: Accounts) {
    l.entries.Keys !! l.refused
  }

  lemma {:induction false} StaysDisjoint(l: Accounts, ts: seq<Token>)
    requires Disjoint(l) && Replay(l, ts).Some?
    ensures Disjoint(Replay(l, ts).value)
    decreases |ts|
  {
    if ts != [] {
      StaysDisjoint(Apply(l, ts[0]).value, ts[1..]);
    }
  }

  // ---------- The reports of one event ----------

  /** A report of matching: a fill, an acknowledgement or an expiry. */
  predicate IsMatching(e: Exec) {
    e.execType != ORDER_REJECTED && e.execType != ORDER_CANCELLED
  }

  ghost predicate MatchingFrom(n: nat, execs: seq<Exec>) {
    n <= |execs| && forall i :: n <= i < |execs| ==> IsMatching(execs[i])
  }

  lemma {:induction false} SweepReports(x: Match, n: nat)
    requires MatchingFrom(n, x.v.execs)
    ensures MatchingFrom(n, Sweep(x).v.execs)
    decreases x.a.qty
  {
    if LitReady(x) {
      SweepReports(LitStep(x), n);
    }
  }

  lemma {:induction false} PoolSweepReports(x: Match, mid: int, n: nat)
    requires MatchingFrom(n, x.v.execs)
    ensures MatchingFrom(n, PoolSweep(x, mid).v.execs)
    decreases |x.v.book.Peg(x.a.side.Opposite())|, x.a.qty
  {
    if PoolReady(x) {
      PoolSweepReports(PoolStep(x, mid), mid, n);
    }
  }

  lemma {:induction false} CrossReports(v: Venue, mid: int, n: nat)
    requires MatchingFrom(n, v.execs)
    ensures MatchingFrom(n, CrossLoop(v, mid).execs)
    decreases |v.book.pegBids| + |v.book.pegAsks|
  {
    if v.book.pegBids != [] && v.book.pegAsks != [] {
      CrossReports(CrossStep(v, mid), mid, n);
    }
  }

  lemma TradingReports(x: Match, n: nat)
    requires MatchingFrom(n, x.v.execs)
    ensures MatchingFrom(n, Trading(x).v.execs)
  {
    PoolSweepReports(x, x.v.book.Mid(), n);
    SweepReports(if TakesPool(x.a, x.v.book) then PoolSweep(x, x.v.book.Mid()) else x, n);
  }

  lemma DisposeReports(x: Match, n: nat)
    requires MatchingFrom(n, x.v.execs)
    ensures MatchingFrom(n, Dispose(x).v.execs)
  {
  }

  lemma AddReports(v: Venue, o: OrderValue)
    ensures MatchingFrom(|v.execs|, Add(v, o).v.execs)
  {
    var x, n := Match(v, o), |v.execs|;
    if !Killed(v, o) {
      TradingReports(x, n);
      DisposeReports(Trading(x), n);
      var z := Dispose(Trading(x)).v;
      CrossReports(z, z.book.Mid(), n);
    }
  }

  lemma {:induction false} ReportsEnterNothing(l: Accounts, ts: seq<Token>)
    requires Replay(l, ts).Some? && forall t :: t in ts ==> t.Report?
    ensures Replay(l, ts).value.refused == l.refused && Replay(l, ts).value.entries.Keys == l.entries.Keys
    decreases |ts|
  {
    if ts != [] {
      assert ts[0] in ts && forall t :: t in ts[1..] ==> t in ts;
      ReportsEnterNothing(Apply(l, ts[0]).value, ts[1..]);
    }
  }

  /** The tokens of one event: of a cancel, its one report; of an invalid order, its refusal and rejection; of an
      admitted one, its mark and reports of matching. */
  lemma EventTokens(v: Venue, e: OrderEvent)
    ensures var ts := Tokens(v, e);
            if e.eventType.CANCEL_ORDER? then
              ts == [Report(PlainExec(if e.originalOrderId in OpenIds(v.book) then ORDER_CANCELLED else ORDER_REJECTED,
                                      e.originalOrderId))]
            else if OrderOf(e).None? then ts == [Refused(e.orderId), Report(PlainExec(ORDER_REJECTED, e.orderId))]
            else
              && ts != [] && ts[0] == Admitted(OrderOf(e).value)
              && forall i :: 0 < i < |ts| ==> ts[i].Report? && IsMatching(ts[i].e)
  {
    var w, n := Process(v, e), |v.execs|;
    if e.eventType.CANCEL_ORDER? || OrderOf(e).None? {
      assert w.execs[n..] == [w.execs[n]];
    } else {
      AddReports(v, OrderOf(e).value);
    }
  }

  /** Only the first token of an event enters an id, and a refusal is announced together with its rejection. */
  lemma ServedIds(l: Accounts, v: Venue, e: OrderEvent)
    requires Replay(l, Tokens(v, e)).Some?
    ensures var ts := Tokens(v, e);
            && ts != [] && Apply(l, ts[0]).Some?
            && Replay(l, ts) == Replay(Apply(l, ts[0]).value, ts[1..])
            && Replay(l, ts).value.entries.Keys == Apply(l, ts[0]).value.entries.Keys
            && forall id :: id in Replay(l, ts).value.refused ==>
                 id in l.refused || Report(PlainExec(ORDER_REJECTED, id)) in ts
  {
    var ts := Tokens(v, e);
    EventTokens(v, e);
    ReportsEnterNothing(Apply(l, ts[0]).value, ts[1..]);
    if e.eventType.NEW_ORDER? && OrderOf(e).None? {
      assert ts[1] in ts;
    }
  }

  /** An order of the client's is admitted with the side and quantity of its row. */
  lemma SentTerms(s: System, e: OrderEvent, m: Accounts)
    requires Synced(s) && Legal(s, Serve(e)) && Apply(s.accounts, Tokens(s.v, e)[0]) == Some(m)
    ensures TermsOk(s.client.myOrders, m)
  {
    var rows := s.client.myOrders;
    EventTokens(s.v, e);
    forall i | 0 <= i < |rows| && rows[i].clOrdId in m.entries
      ensures Terms(rows[i], m)
    {
      FoundRow(rows, rows[i].clOrdId);
      assert Terms(rows[i], s.accounts);
    }
  }

  lemma TermsAfter(rows: seq<MyOrder>, l: Accounts, ts: seq<Token>)
    requires Sound(l) && Replay(l, ts).Some? && TermsOk(rows, l) && Replay(l, ts).value.entries.Keys == l.entries.Keys
    ensures TermsOk(rows, Replay(l, ts).value)
  {
    forall i | 0 <= i < |rows| && rows[i].clOrdId in l.entries
      ensures Terms(rows[i], Replay(l, ts).value)
    {
      StreamAccounts(l, ts, rows[i].clOrdId);
      assert Terms(rows[i], l);
    }
  }

  lemma LogExtended(log: seq<Token>, d: nat, ts: seq<Token>)
    requires d <= |log|
    ensures (log + ts)[..d] == log[..d] && (log + ts)[d..] == log[d..] + ts
  {
  }

  lemma ServeLog(s: System, e: OrderEvent)
    requires Synced(s) && Legal(s, Serve(e))
    ensures LogOk(Next(s, Serve(e))) && Delivered(Next(s, Serve(e))) == Delivered(s)
  {
    var ts := Tokens(s.v, e);
    ProcessFollowed(s.accounts, s.v, e);
    ReplayConcat(s.seen, s.inflight, ts);
    LogExtended(s.log, Delivered(s), ts);
  }

  lemma ServeSynced(s: System, e: OrderEvent)
    requires Synced(s) && Legal(s, Serve(e))
    ensures Synced(Next(s, Serve(e)))
  {
    var ts, rows := Tokens(s.v, e), s.client.myOrders;
    ProcessFollowed(s.accounts, s.v, e);
    ServeLog(s, e);
    ServedIds(s.accounts, s.v, e);
    StaysDisjoint(s.accounts, ts);
    var m := Apply(s.accounts, ts[0]).value;
    ApplyKeepsSound(s.accounts, ts[0]);
    SentTerms(s, e, m);
    TermsAfter(rows, m, ts[1..]);
  }

  /** Every legal step keeps rows, reports under way and engine together, and rows that agree with the reports
      delivered go on agreeing unless the step delivers a rejection of an id the engine had not heard of, to a row
      with that id. */
  lemma StepSynced(s: System, step: Step)
    requires Synced(s) && Legal(s, step)
    ensures Synced(Next(s, step))
    ensures Agree(s.client.myOrders, s.seen) ==>
              (Agree(Next(s, step).client.myOrders, Next(s, step).seen) <==> forall id :: !Harms(s, step, id))
  {
    match step
    case Send(f, at) => SendSynced(s, f, at);
    case Serve(e) => ServeSynced(s, e);
    case Deliver(at) => DeliverSynced(s, at);
    case Other(a) =>
      assert Reducer(s.client, a).myOrders == s.client.myOrders;
  }

  // ---------- Whole runs ----------

  lemma StartSynced()
    ensures Synced(START)
  {
    forall side, ordType
      ensures ListTracked(NO_ACCOUNTS, ListOf(EMPTY_BOOK, side, ordType), side, ordType)
    {
    }
  }

  ghost predicate Taken(ss: seq<System>, steps: seq<Step>, k: nat)
    requires |ss| == |steps| + 1 && k < |steps|
  {
    Legal(ss[k], steps[k]) && ss[k + 1] == Next(ss[k], steps[k])
  }

  /** A run from the opening: each step is legal where it is taken and leads to the next state. */
  ghost predicate LegalRun(ss: seq<System>, steps: seq<Step>) {
    && |ss| == |steps| + 1 && ss[0] == START
    && forall k: nat :: k < |steps| ==> Taken(ss, steps, k)
  }

  lemma {:induction false} RunSynced(ss: seq<System>, steps: seq<Step>, k: nat)
    requires LegalRun(ss, steps) && k < |ss|
    ensures Synced(ss[k])
    decreases k
  {
    if k == 0 {
      StartSynced();
    } else {
      assert Taken(ss, steps, k - 1);
      RunSynced(ss, steps, k - 1);
      StepSynced(ss[k - 1], steps[k - 1]);
    }
  }

  lemma LogStep(s: System, step: Step)
    requires Legal(s, step)
    ensures s.log <= Next(s, step).log && (step.Serve? || Next(s, step).log == s.log)
  {
  }

  /** The log only grows. */
  lemma {:induction false} LogGrows(ss: seq<System>, steps: seq<Step>, k: nat, m: nat)
    requires LegalRun(ss, steps) && k <= m < |ss|
    ensures ss[k].log <= ss[m].log
    decreases m
  {
    if k < m {
      LogGrows(ss, steps, k, m - 1);
      assert Taken(ss, steps, m - 1);
      LogStep(ss[m - 1], steps[m - 1]);
    }
  }

  /** Every report was put in the log by one service. */
  lemma {:induction false} Origin(ss: seq<System>, steps: seq<Step>, m: nat, p: nat) returns (k: nat)
    requires LegalRun(ss, steps) && m < |ss| && p < |ss[m].log|
    ensures k < m && steps[k].Serve? && |ss[k].log| <= p < |ss[k + 1].log|
    decreases m
  {
    if m > 0 {
      assert Taken(ss, steps, m - 1);
      LogStep(ss[m - 1], steps[m - 1]);
      if p < |ss[m - 1].log| {
        k := Origin(ss, steps, m - 1, p);
      } else {
        k := m - 1;
      }
    }
  }

  /** The engine takes a cancel of an id it has not heard of. */
  ghost predicate Stray(s: System, step: Step, id: int) {
    step.Serve? && step.e.eventType.CANCEL_ORDER? && step.e.originalOrderId == id && Unknown(s.accounts, id)
  }

  lemma FirstToken(l: Accounts, ts: seq<Token>)
    requires ts != []
    ensures Replay(l, ts[..0]) == Some(l) && Replay(l, ts[..1]) == Apply(l, ts[0])
  {
    assert ts[..1][1..] == [];
  }

  /** Of the reports of one event, only that of a stray cancel strikes. */
  lemma OnlyStraysStrike(s: System, e: OrderEvent, q: nat, l: Accounts, id: int)
    requires Synced(s) && Legal(s, Serve(e)) && q < |Tokens(s.v, e)|
    requires Replay(s.accounts, Tokens(s.v, e)[..q]) == Some(l) && Strikes(l, Tokens(s.v, e)[q], id)
    ensures q == 0 && Stray(s, Serve(e), id)
  {
    EventTokens(s.v, e);
    OpenIsResting(s.accounts, s.v.book, e.originalOrderId);
    FirstToken(s.accounts, Tokens(s.v, e));
  }

  lemma StrayStrikes(s: System, e: OrderEvent, id: int)
    requires Synced(s) && Stray(s, Serve(e), id)
    ensures Tokens(s.v, e) == [Report(PlainExec(ORDER_REJECTED, id))]
  {
    EventTokens(s.v, e);
    OpenIsResting(s.accounts, s.v.book, id);
  }

  /** The delivery in state s answers the event taken in state r: its report is the first of that event's. */
  predicate Answers(r: System, s: System, step: Step) {
    step.Deliver? && Delivered(s) == |r.log|
  }

  lemma SeenAt(s: System, w: seq<Token>, p: nat)
    requires Synced(s) && s.inflight != [] && p == Delivered(s) && w <= s.log && p < |w|
    ensures s.inflight[0] == w[p] && Replay(NO_ACCOUNTS, w[..p]) == Some(s.seen)
  {
    assert s.log[..p] == w[..p];
  }

  /** The log as a whole leads to the engine's accounts. */
  lemma LogAccounts(s: System)
    requires Synced(s)
    ensures Replay(NO_ACCOUNTS, s.log) == Some(s.accounts)
  {
    ReplayConcat(NO_ACCOUNTS, s.log[..Delivered(s)], s.inflight);
    assert s.log == s.log[..Delivered(s)] + s.inflight;
  }

  /** A delivered token that strikes is the answer to a stray cancel. */
  lemma StrikeIsStray(r: System, e: OrderEvent, s: System, id: int)
    requires Synced(r) && Legal(r, Serve(e)) && Synced(s) && r.log + Tokens(r.v, e) <= s.log
    requires s.inflight != [] && Strikes(s.seen, s.inflight[0], id)
    requires |r.log| <= Delivered(s) < |r.log + Tokens(r.v, e)|
    ensures Delivered(s) == |r.log| && Stray(r, Serve(e), id)
  {
    var p, ts := Delivered(s), Tokens(r.v, e);
    var q := p - |r.log|;
    SeenAt(s, r.log + ts, p);
    assert (r.log + ts)[..p] == r.log + ts[..q];
    ReplayConcat(NO_ACCOUNTS, r.log, ts[..q]);
    LogAccounts(r);
    OnlyStraysStrike(r, e, q, s.seen, id);
  }

  /** What one service put in the log stays where it put it. */
  lemma ServedStays(ss: seq<System>, steps: seq<Step>, k: nat, j: nat)
    requires LegalRun(ss, steps) && k < j < |ss| && steps[k].Serve?
    ensures Legal(ss[k], steps[k]) && ss[k + 1].log == ss[k].log + Tokens(ss[k].v, steps[k].e) <= ss[j].log
  {
    assert Taken(ss, steps, k);
    LogGrows(ss, steps, k + 1, j);
  }

  lemma HarmIsStray(ss: seq<System>, steps: seq<Step>, j: nat, id: int) returns (k: nat)
    requires LegalRun(ss, steps) && j < |steps| && Harms(ss[j], steps[j], id)
    ensures k < j && Stray(ss[k], steps[k], id) && Answers(ss[k], ss[j], steps[j])
  {
    RunSynced(ss, steps, j);
    UnderWay(ss[j]);
    k := Origin(ss, steps, j, Delivered(ss[j]));
    ServedStays(ss, steps, k, j);
    RunSynced(ss, steps, k);
    StrikeIsStray(ss[k], steps[k].e, ss[j], id);
  }

  lemma UnderWay(s: System)
    requires Synced(s) && s.inflight != []
    ensures 0 <= Delivered(s) < |s.log|
  {
  }

  lemma StrayIsHarm(ss: seq<System>, steps: seq<Step>, k: nat, j: nat, id: int)
    requires LegalRun(ss, steps) && k < j < |steps| && Stray(ss[k], steps[k], id) && Answers(ss[k], ss[j], steps[j])
    requires FindRow(ss[j].client.myOrders, id) != -1
    ensures Harms(ss[j], steps[j], id)
  {
    var r, s := ss[k], ss[j];
    RunSynced(ss, steps, k);
    RunSynced(ss, steps, j);
    assert Taken(ss, steps, k) && Taken(ss, steps, j);
    LogGrows(ss, steps, k + 1, j);
    StrayStrikes(r, steps[k].e, id);
    var w := r.log + [Report(PlainExec(ORDER_REJECTED, id))];
    SeenAt(s, w, |r.log|);
    assert w[..|r.log|] == r.log;
    LogAccounts(r);
  }

  predicate Sends(step: Step, id: int) {
    step.Send? && step.frame.clOrdId == id
  }

  lemma SameIds(rows: seq<MyOrder>, r: seq<MyOrder>, id: int)
    requires |r| == |rows| && forall i :: 0 <= i < |rows| ==> r[i].clOrdId == rows[i].clOrdId
    ensures FindRow(r, id) != -1 <==> FindRow(rows, id) != -1
  {
  }

  lemma OneMoreRow(o: MyOrder, rows: seq<MyOrder>, id: int)
    ensures FindRow([o] + rows, id) != -1 <==> o.clOrdId == id || FindRow(rows, id) != -1
  {
    assert ([o] + rows)[1..] == rows;
  }

  lemma RowAppears(s: System, step: Step, id: int)
    requires Legal(s, step)
    ensures FindRow(Next(s, step).client.myOrders, id) != -1
            <==> FindRow(s.client.myOrders, id) != -1 || Sends(step, id)
  {
    var rows, r := s.client.myOrders, Next(s, step).client.myOrders;
    match step
    case Send(f, at) =>
      var o := MyOrder(f.clOrdId, f.side, f.price, f.qty, f.qty, PENDING, f.ordType, f.tif, f.maxFloor, at);
      OneMoreRow(o, rows, id);
    case Deliver(at) => SameIds(rows, r, id);
    case Serve(_) =>
    case Other(_) =>
  }

  /** A row is there exactly once its order was sent. */
  lemma {:induction false} RowsAreSent(ss: seq<System>, steps: seq<Step>, m: nat, id: int)
    requires LegalRun(ss, steps) && m < |ss|
    ensures FindRow(ss[m].client.myOrders, id) != -1 <==> exists i: nat :: i < m && Sends(steps[i], id)
    decreases m
  {
    if m > 0 {
      assert Taken(ss, steps, m - 1);
      RowsAreSent(ss, steps, m - 1, id);
      RowAppears(ss[m - 1], steps[m - 1], id);
    }
  }

  /** The engine takes a cancel of an id it has not heard of, the client sends that order, before or after, and then
      receives the cancel's rejection. */
  ghost predicate Misled(ss: seq<System>, steps: seq<Step>, id: int)
    requires LegalRun(ss, steps)
  {
    exists k: nat, m: nat, j: nat :: k < j < |steps| && m < j && MisledAt(ss, steps, id, k, m, j)
  }

  ghost predicate MisledAt(ss: seq<System>, steps: seq<Step>, id: int, k: nat, m: nat, j: nat)
    requires LegalRun(ss, steps) && k < j < |steps| && m < j
  {
    Stray(ss[k], steps[k], id) && Sends(steps[m], id) && Answers(ss[k], ss[j], steps[j])
  }

  ghost predicate HarmedBefore(ss: seq<System>, steps: seq<Step>, n: nat, id: int)
    requires LegalRun(ss, steps) && n <= |steps|
  {
    exists j: nat :: j < n && Harms(ss[j], steps[j], id)
  }

  lemma MisledIsHarm(ss: seq<System>, steps: seq<Step>, id: int)
    requires LegalRun(ss, steps)
    ensures Misled(ss, steps, id) <==> HarmedBefore(ss, steps, |steps|, id)
  {
    if Misled(ss, steps, id) {
      var k: nat, m: nat, j: nat :| k < j < |steps| && m < j && MisledAt(ss, steps, id, k, m, j);
      RowsAreSent(ss, steps, j, id);
      StrayIsHarm(ss, steps, k, j, id);
    }
    if HarmedBefore(ss, steps, |steps|, id) {
      var j: nat :| j < |steps| && Harms(ss[j], steps[j], id);
      var k := HarmIsStray(ss, steps, j, id);
      RowsAreSent(ss, steps, j, id);
      var m: nat :| m < j && Sends(steps[m], id);
      assert MisledAt(ss, steps, id, k, m, j);
    }
  }

  /** The rows agree with the delivered reports. */
  ghost predicate InStep(s: System) {
    Agree(s.client.myOrders, s.seen)
  }

  ghost predicate InStepUntil(ss: seq<System>, n: nat)
    requires n < |ss|
  {
    forall k :: 0 <= k <= n ==> InStep(ss[k])
  }

  lemma HarmedNow(ss: seq<System>, steps: seq<Step>, n: nat, id: int)
    requires LegalRun(ss, steps) && n < |steps|
    ensures HarmedBefore(ss, steps, n + 1, id) <==> HarmedBefore(ss, steps, n, id) || Harms(ss[n], steps[n], id)
  {
  }

  lemma {:induction false} AgreeUntil(ss: seq<System>, steps: seq<Step>, n: nat)
    requires LegalRun(ss, steps) && n <= |steps|
    ensures InStepUntil(ss, n) <==> forall id :: !HarmedBefore(ss, steps, n, id)
    decreases n
  {
    if n == 0 {
      assert InStep(ss[0]);
    } else {
      AgreeUntil(ss, steps, n - 1);
      AgreeNow(ss, steps, n - 1, n);
    }
  }

  lemma AgreeNow(ss: seq<System>, steps: seq<Step>, n: nat, m: nat)
    requires LegalRun(ss, steps) && n < |steps| && m == n + 1
    requires InStepUntil(ss, n) <==> forall id :: !HarmedBefore(ss, steps, n, id)
    ensures InStepUntil(ss, m) <==> forall id :: !HarmedBefore(ss, steps, m, id)
  {
    if InStepUntil(ss, n) {
      AgreeStep(ss, steps, n);
      forall id
        ensures HarmedBefore(ss, steps, m, id) <==> Harms(ss[n], steps[n], id)
      {
        HarmedNow(ss, steps, n, id);
      }
    } else {
      var id :| HarmedBefore(ss, steps, n, id);
      HarmedNow(ss, steps, n, id);
    }
  }

  lemma AgreeStep(ss: seq<System>, steps: seq<Step>, n: nat)
    requires LegalRun(ss, steps) && n < |steps| && InStep(ss[n])
    ensures InStep(ss[n + 1]) <==> forall id :: !Harms(ss[n], steps[n], id)
  {
    assert Taken(ss, steps, n);
    RunSynced(ss, steps, n);
    StepSynced(ss[n], steps[n]);
  }

  /** The rows agree with the delivered reports throughout a run if and only if no cancel misleads the client: a cancel
      taken before the order it names breaks the agreement exactly when the row is there as its rejection arrives. */
  lemma StrayCancel(ss: seq<System>, steps: seq<Step>)
    requires LegalRun(ss, steps)
    ensures (forall k :: 0 <= k < |ss| ==> InStep(ss[k])) <==> forall id :: !Misled(ss, steps, id)
  {
    AgreeUntil(ss, steps, |steps|);
    forall id
      ensures Misled(ss, steps, id) <==> HarmedBefore(ss, steps, |steps|, id)
    {
      MisledIsHarm(ss, steps, id);
    }
  }

  /** The order with this id, if it rests somewhere in the book. */
  ghost predicate RestsWith(b: Book, id: int, qty: int) {
    exists side, ordType, o :: o in ListOf(b, side, ordType) && o.id == id && o.qty == qty
  }

  lemma RestingQuantity(l: Accounts, b: Book, id: int)
    requires BookTracked(l, b) && id in l.entries && l.entries[id].phase == Resting
    ensures RestsWith(b, id, l.entries[id].remaining)
  {
    var n := l.entries[id];
    assert ListTracked(l, ListOf(b, n.side, n.ordType), n.side, n.ordType);
    assert RestsIn(n, n.side, n.ordType);
    var o :| o in ListOf(b, n.side, n.ordType) && o.id == id;
    assert Matches(l, o);
  }

  // ---------- What the rows show ----------

  ghost predicate RejectedRow(s: System, id: int) {
    FindRow(s.client.myOrders, id) != -1 && s.client.myOrders[FindRow(s.client.myOrders, id)].status == REJECTED
  }

  ghost predicate StruckRow(s: System, id: int) {
    RejectedRow(s, id) && id !in s.seen.refused
  }

  lemma RowFound(rows: seq<MyOrder>, i: nat)
    requires i < |rows| && forall a, b :: 0 <= a < b < |rows| ==> rows[a].clOrdId != rows[b].clOrdId
    ensures FindRow(rows, rows[i].clOrdId) == i
  {
  }

  lemma RefusedOnce(s: System, at: int)
    requires Synced(s) && Legal(s, Deliver(at))
    ensures s.seen.refused <= Next(s, Deliver(at)).seen.refused
    ensures s.inflight[0].Report? ==> Next(s, Deliver(at)).seen.refused == s.seen.refused
  {
    FirstToken(s.seen, s.inflight);
  }

  lemma RowRejects(o: MyOrder, l: Accounts, e: Exec, k: Accounts)
    requires RowOk(o, l) || Struck(o, l)
    requires Sound(l) && Apply(l, Report(e)) == Some(k)
    ensures RowAfter(o, e).status == REJECTED && o.clOrdId !in l.refused
            <==> (o.status == REJECTED || Strikes(l, Report(e), o.clOrdId)) && o.clOrdId !in l.refused
    ensures o.status == REJECTED ==> RowAfter(o, e).status == REJECTED
  {
  }

  lemma DeliverRejects(s: System, at: int, id: int)
    requires Synced(s) && Legal(s, Deliver(at))
    ensures RejectedRow(s, id) || Harms(s, Deliver(at), id) ==> RejectedRow(Next(s, Deliver(at)), id)
    ensures StruckRow(Next(s, Deliver(at)), id) ==> StruckRow(s, id) || Harms(s, Deliver(at), id)
  {
    var rows, t, i := s.client.myOrders, s.inflight[0], FindRow(s.client.myOrders, id);
    RefusedOnce(s, at);
    if t.Report? {
      SameIds(rows, UpdateRows(rows, t.e), id);
      RowsAfter(rows, s.seen, t.e);
      if i != -1 {
        RowFound(UpdateRows(rows, t.e), i);
        RowRejects(rows[i], s.seen, t.e, Apply(s.seen, t).value);
      }
    }
  }

  lemma StepRejects(s: System, step: Step, id: int)
    requires Synced(s) && Legal(s, step)
    ensures RejectedRow(s, id) || Harms(s, step, id) ==> RejectedRow(Next(s, step), id)
    ensures StruckRow(Next(s, step), id) ==> StruckRow(s, id) || Harms(s, step, id)
  {
    var rows := s.client.myOrders;
    match step
    case Send(f, at) =>
      if FindRow(rows, f.clOrdId) == -1 {
        var o := MyOrder(f.clOrdId, f.side, f.price, f.qty, f.qty, PENDING, f.ordType, f.tif, f.maxFloor, at);
        assert ([o] + rows)[1..] == rows;
      }
    case Deliver(at) => DeliverRejects(s, at, id);
    case Serve(_) =>
    case Other(_) =>
  }

  /** A row is struck exactly if a delivery struck it and its order was never refused. */
  lemma {:induction false} StruckSince(ss: seq<System>, steps: seq<Step>, n: nat, id: int)
    requires LegalRun(ss, steps) && n <= |steps|
    ensures StruckRow(ss[n], id) <==> HarmedBefore(ss, steps, n, id) && id !in ss[n].seen.refused
    ensures HarmedBefore(ss, steps, n, id) ==> RejectedRow(ss[n], id)
    decreases n
  {
    if n > 0 {
      assert Taken(ss, steps, n - 1);
      RunSynced(ss, steps, n - 1);
      StruckSince(ss, steps, n - 1, id);
      StepRejects(ss[n - 1], steps[n - 1], id);
      HarmedNow(ss, steps, n - 1, id);
    }
  }

  /** The row shows the engine's truth: it is cancellable exactly when its order rests in the book, and then shows
      exactly its remaining quantity, hidden reserve included; a waiting row belongs to an order the engine has not
      taken, a rejected one to an order it refused, and a filled, cancelled or expired one to an order that ended so. */
  ghost predicate Follows(s: System, o: MyOrder) {
    && (IsCancellable(o.status) <==> o.clOrdId in OpenIds(s.v.book))
    && (IsCancellable(o.status) ==> RestsWith(s.v.book, o.clOrdId, o.remainingQty))
    && (o.status == PENDING <==> Unknown(s.accounts, o.clOrdId))
    && (o.status == REJECTED <==> o.clOrdId in s.accounts.refused)
    && (o.status == RowStatus.OPEN <==> IsCancellable(o.status) && o.remainingQty == o.originalQty)
    && (o.status == RowStatus.FILLED <==> Ended(s.accounts, o.clOrdId, Filled))
    && (o.status == RowStatus.CANCELLED <==> Ended(s.accounts, o.clOrdId, Cancelled))
    && (o.status == RowStatus.EXPIRED <==> Ended(s.accounts, o.clOrdId, Expired))
  }

  predicate Ended(l: Accounts, id: int, phase: Phase) {
    id in l.entries && l.entries[id].phase == phase
  }

  lemma RowFollows(s: System, o: MyOrder)
    requires Synced(s) && s.inflight == [] && o in s.client.myOrders
    ensures Follows(s, o) <==> !Struck(o, s.seen)
  {
    assert s.seen == s.accounts;
    var i :| 0 <= i < |s.client.myOrders| && s.client.myOrders[i] == o;
    assert RowOk(o, s.seen) || Struck(o, s.seen);
    OpenIsResting(s.accounts, s.v.book, o.clOrdId);
    if !Struck(o, s.seen) && o.clOrdId in s.accounts.entries {
      NotWorking(s, o.clOrdId);
      if s.accounts.entries[o.clOrdId].phase == Resting {
        RestingQuantity(s.accounts, s.v.book, o.clOrdId);
      }
    }
  }

  lemma NotWorking(s: System, id: int)
    requires Synced(s) && id in s.accounts.entries
    ensures s.accounts.entries[id].phase != Working && id !in s.accounts.refused
  {
  }

  /** Once everything is delivered, in any legal run, a row shows the engine's truth if and only if no cancel misled the
      client about it, or its order was refused after all. */
  lemma ClientFollowsEngine(ss: seq<System>, steps: seq<Step>, i: nat)
    requires LegalRun(ss, steps)
    requires var s := ss[|steps|]; s.inflight == [] && i < |s.client.myOrders|
    ensures var s := ss[|steps|];
            var o := s.client.myOrders[i];
            Follows(s, o) <==> !Misled(ss, steps, o.clOrdId) || o.clOrdId in s.accounts.refused
  {
    var s := ss[|steps|];
    var o := s.client.myOrders[i];
    RunSynced(ss, steps, |steps|);
    RowFollows(s, o);
    MisledIsHarm(ss, steps, o.clOrdId);
    StruckSince(ss, steps, |steps|, o.clOrdId);
    RowFound(s.client.myOrders, i);
    assert s.seen == s.accounts;
  }

  /** The clamp in the passive decrement never acts: a delivered fill never exceeds what the passive row shows, and it
      meets a row that is already closed if and only if a cancel misled the client about it. */
  lemma ClampNeverBites(ss: seq<System>, steps: seq<Step>, i: nat)
    requires LegalRun(ss, steps)
    requires var s := ss[|steps|];
             && s.inflight != [] && s.inflight[0].Report? && IsFill(s.inflight[0].e)
             && i < |s.client.myOrders| && s.client.myOrders[i].clOrdId == s.inflight[0].e.passive
    ensures var s := ss[|steps|];
            var o := s.client.myOrders[i];
            && 0 < s.inflight[0].e.filled <= o.remainingQty
            && (IsTerminal(o.status) <==> Misled(ss, steps, o.clOrdId))
  {
    var s := ss[|steps|];
    var o, e := s.client.myOrders[i], s.inflight[0].e;
    RunSynced(ss, steps, |steps|);
    MisledIsHarm(ss, steps, o.clOrdId);
    StruckSince(ss, steps, |steps|, o.clOrdId);
    RowFound(s.client.myOrders, i);
    PassiveIsKnown(s, e);
    assert RowOk(o, s.seen) || Struck(o, s.seen);
    if RowOk(o, s.seen) {
      RowStep(o, s.seen, e, Apply(s.seen, s.inflight[0]).value);
    }
  }

  lemma PassiveIsKnown(s: System, e: Exec)
    requires Synced(s) && s.inflight != [] && s.inflight[0] == Report(e) && IsFill(e)
    ensures FillAllowed(s.seen, e) && e.passive !in s.seen.refused
  {
    KeysGrow(s.seen, s.inflight);
  }

  /** The side the client shows for a fill, read off whichever of its own rows takes part, is the aggressor's true side,
      and it shows one exactly on its own trades. */
  lemma ShownSideIsTrue(ss: seq<System>, steps: seq<Step>)
    requires LegalRun(ss, steps)
    requires var s := ss[|steps|];
             s.inflight != [] && s.inflight[0].Report? && IsFill(s.inflight[0].e)
    ensures var s := ss[|steps|];
            var e, rows := s.inflight[0].e, s.client.myOrders;
            var shown := AggressorSideFor(rows, e.aggressor, e.passive);
            && e.aggressor in s.seen.entries
            && (shown.Some? ==> shown.value == s.seen.entries[e.aggressor].side)
            && (shown.Some?
                <==> exists i :: 0 <= i < |rows| && (rows[i].clOrdId == e.aggressor || rows[i].clOrdId == e.passive))
  {
    var s := ss[|steps|];
    var e, rows := s.inflight[0].e, s.client.myOrders;
    RunSynced(ss, steps, |steps|);
    PassiveIsKnown(s, e);
    if FindRow(rows, e.aggressor) != -1 {
      assert RowOk(rows[FindRow(rows, e.aggressor)], s.seen) || Struck(rows[FindRow(rows, e.aggressor)], s.seen);
    }
    if FindRow(rows, e.passive) != -1 {
      assert RowOk(rows[FindRow(rows, e.passive)], s.seen) || Struck(rows[FindRow(rows, e.passive)], s.seen);
    }
  }

  // ---------- A client that cancels only what it shows as open ----------

  ghost predicate CancellableRow(s: System, id: int) {
    var i := FindRow(s.client.myOrders, id);
    i != -1 && IsCancellable(s.client.myOrders[i].status)
  }

  /** The engine knows the order of every row the client offers to cancel. */
  lemma CancellableIsKnown(s: System, id: int)
    requires Synced(s) && CancellableRow(s, id)
    ensures id in s.seen.entries && id in s.accounts.entries
  {
    var o := s.client.myOrders[FindRow(s.client.myOrders, id)];
    assert RowOk(o, s.seen) || Struck(o, s.seen);
    KeysGrow(s.seen, s.inflight);
  }

  lemma KnownOnce(s: System, step: Step, id: int)
    requires Synced(s) && Legal(s, step) && id in s.accounts.entries
    ensures id in Next(s, step).accounts.entries
  {
    if step.Serve? {
      ProcessFollowed(s.accounts, s.v, step.e);
      KeysGrow(s.accounts, Tokens(s.v, step.e));
    }
  }

  lemma {:induction false} KnownStays(ss: seq<System>, steps: seq<Step>, j: nat, k: nat, id: int)
    requires LegalRun(ss, steps) && j <= k < |ss| && id in ss[j].accounts.entries
    ensures id in ss[k].accounts.entries
    decreases k
  {
    if j < k {
      assert Taken(ss, steps, k - 1);
      KnownStays(ss, steps, j, k - 1, id);
      RunSynced(ss, steps, k - 1);
      KnownOnce(ss[k - 1], steps[k - 1], id);
    }
  }

  predicate CancelsId(step: Step, id: int) {
    step.Serve? && step.e.eventType.CANCEL_ORDER? && step.e.originalOrderId == id
  }

  /** Every cancel of the id that the engine takes goes back to a moment at which the client showed the order as
      open. */
  ghost predicate Guarded(ss: seq<System>, steps: seq<Step>, id: int)
    requires |ss| == |steps| + 1
  {
    forall k: nat :: k < |steps| && CancelsId(steps[k], id) ==> exists j: nat :: j <= k && CancellableRow(ss[j], id)
  }

  /** Such cancels mislead nobody. */
  lemma GuardedNeverMisled(ss: seq<System>, steps: seq<Step>, id: int)
    requires LegalRun(ss, steps) && Guarded(ss, steps, id)
    ensures !Misled(ss, steps, id)
  {
    forall k: nat | k < |steps|
      ensures !Stray(ss[k], steps[k], id)
    {
      if CancelsId(steps[k], id) {
        var j: nat :| j <= k && CancellableRow(ss[j], id);
        RunSynced(ss, steps, j);
        CancellableIsKnown(ss[j], id);
        KnownStays(ss, steps, j, k, id);
      }
    }
  }

  /** With them, every row shows the engine's truth once everything is delivered. */
  lemma GuardedClientFollows(ss: seq<System>, steps: seq<Step>, i: nat)
    requires LegalRun(ss, steps)
    requires var s := ss[|steps|];
             s.inflight == [] && i < |s.client.myOrders| && Guarded(ss, steps, s.client.myOrders[i].clOrdId)
    ensures Follows(ss[|steps|], ss[|steps|].client.myOrders[i])
  {
    ClientFollowsEngine(ss, steps, i);
    GuardedNeverMisled(ss, steps, ss[|steps|].client.myOrders[i].clOrdId);
  }

  // ---------- Two runs in which a cancel misleads the client ----------

  /** The client's order 7, as its row shows it. */
  function RowSeven(status: RowStatus): MyOrder {
    MyOrder(7, BUY, TICK, 5, 5, status, LIMIT, GTC, 0, None)
  }

  const SEND_SEVEN := Send(NewFrame(7, BUY, LIMIT, GTC, TICK, 5, 0), None)
  const CANCEL_SEVEN := Serve(OrderEvent(CANCEL_ORDER, -1, None, None, None, -1, -1, 0, 1, 7))

  /** In a quiet opening, the stray cancel is rejected. */
  lemma CancelSeven(s: System)
    requires Synced(s) && s.v == OPENING && s.accounts == NO_ACCOUNTS
    ensures Legal(s, CANCEL_SEVEN)
    ensures Next(s, CANCEL_SEVEN)
            == s.(v := OPENING.Say(PlainExec(ORDER_REJECTED, 7)),
                  inflight := s.inflight + [Report(PlainExec(ORDER_REJECTED, 7))],
                  log := s.log + [Report(PlainExec(ORDER_REJECTED, 7))])
  {
    StrayStrikes(s, CANCEL_SEVEN.e, 7);
    FirstToken(NO_ACCOUNTS, [Report(PlainExec(ORDER_REJECTED, 7))]);
    var ts := [Report(PlainExec(ORDER_REJECTED, 7))];
    assert ts[..1] == ts;
  }

  /** Order 7 comes to rest: two more tokens, neither a rejection. */
  lemma ServeSeven(s: System, row: MyOrder)
    requires s.client.myOrders == [row] && SameTerms(row, RowSeven(PENDING))
    requires s.accounts == NO_ACCOUNTS && s.v.book.asks == []
    ensures Legal(s, Serve(BuySeven())) && 7 in OpenIds(Next(s, Serve(BuySeven())).v.book)
    ensures var ts := [Admitted(OrderOf(BuySeven()).value), Report(AcceptedExec(7, TICK, 5))];
            && Next(s, Serve(BuySeven())).inflight == s.inflight + ts
            && Next(s, Serve(BuySeven())).client == s.client
  {
    var e := BuySeven();
    var o := OrderOf(e).value;
    QuietBuy(s.v, o);
    InsertIds(s.v.book.bids, o.Refresh());
    var w := Process(s.v, e);
    assert w.execs[|s.v.execs|..] == [AcceptedExec(7, TICK, 5)];
  }

  /** Sending order 7 shows one waiting row; its cancel's rejection closes it. */
  lemma RowSevenCloses(s: System, e: Exec)
    requires s.client.myOrders == [RowSeven(PENDING)] && s.inflight != [] && s.inflight[0] == Report(e)
    requires e == PlainExec(ORDER_REJECTED, 7)
    ensures Next(s, Deliver(1)).client.myOrders == [RowSeven(REJECTED)]
  {
    assert UpdateRows(s.client.myOrders, e) == [RowSeven(REJECTED)];
  }

  /** Nothing reopens it. */
  lemma RowSevenStays(s: System, at: int)
    requires s.client.myOrders == [RowSeven(REJECTED)] && s.inflight != []
    requires s.inflight[0].Report? ==> !IsFill(s.inflight[0].e)
    ensures Next(s, Deliver(at)).client.myOrders == s.client.myOrders
  {
    if s.inflight[0].Report? {
      assert UpdateRows(s.client.myOrders, s.inflight[0].e) == s.client.myOrders;
    }
  }

  ghost predicate RejectedYetResting(s: System) {
    s.inflight == [] && s.client.myOrders == [RowSeven(REJECTED)] && 7 in OpenIds(s.v.book)
  }

  /** A run goes on with any step that is legal in its last state. */
  lemma OneMoreStep(ss: seq<System>, steps: seq<Step>, step: Step)
    returns (rr: seq<System>, more: seq<Step>, last: System)
    requires LegalRun(ss, steps) && Legal(ss[|steps|], step)
    ensures more == steps + [step] && LegalRun(rr, more) && rr[|more|] == last == Next(ss[|steps|], step)
  {
    last := Next(ss[|steps|], step);
    rr, more := ss + [last], steps + [step];
    forall k: nat | k < |more|
      ensures Taken(rr, more, k)
    {
      if k < |steps| {
        assert Taken(ss, steps, k);
      }
    }
  }

  lemma NoSteps() returns (ss: seq<System>, steps: seq<Step>)
    ensures LegalRun(ss, steps) && steps == [] && ss[0] == START
  {
    ss, steps := [START], [];
  }

  lemma SentThenCancelled() returns (ss: seq<System>, steps: seq<Step>)
    ensures LegalRun(ss, steps) && steps == [SEND_SEVEN, CANCEL_SEVEN]
    ensures var s := ss[2];
            && s.client.myOrders == [RowSeven(PENDING)] && s.accounts == NO_ACCOUNTS && s.v.book.asks == []
            && s.inflight == [Report(PlainExec(ORDER_REJECTED, 7))]
  {
    var s;
    ss, steps := NoSteps();
    ss, steps, s := OneMoreStep(ss, steps, SEND_SEVEN);
    assert s.client.myOrders == [RowSeven(PENDING)];
    RunSynced(ss, steps, 1);
    CancelSeven(s);
    ss, steps, s := OneMoreStep(ss, steps, CANCEL_SEVEN);
  }

  lemma CancelledThenSent() returns (ss: seq<System>, steps: seq<Step>)
    ensures LegalRun(ss, steps) && steps == [CANCEL_SEVEN, SEND_SEVEN]
    ensures var s := ss[2];
            && s.client.myOrders == [RowSeven(PENDING)] && s.accounts == NO_ACCOUNTS && s.v.book.asks == []
            && s.inflight == [Report(PlainExec(ORDER_REJECTED, 7))]
  {
    var s;
    ss, steps := NoSteps();
    StartSynced();
    CancelSeven(START);
    ss, steps, s := OneMoreStep(ss, steps, CANCEL_SEVEN);
    ss, steps, s := OneMoreStep(ss, steps, SEND_SEVEN);
    assert s.client.myOrders == [RowSeven(PENDING)];
  }

  /** The cancel is served while the order is still on its way: the order rests, and its row says rejected. */
  lemma CancelOvertakes() returns (ss: seq<System>, steps: seq<Step>)
    ensures LegalRun(ss, steps) && RejectedYetResting(ss[|steps|])
    ensures steps == [SEND_SEVEN, CANCEL_SEVEN, Serve(BuySeven()), Deliver(1), Deliver(1), Deliver(1)]
  {
    ss, steps := SentThenCancelled();
    ServeSeven(ss[2], RowSeven(PENDING));
    var s;
    ss, steps, s := OneMoreStep(ss, steps, Serve(BuySeven()));
    ss, steps := ThreeMoreReports(ss, steps);
  }

  /** One report closes the row; the two after it, the marks and acknowledgement of the order, leave it closed. */
  lemma ThreeMoreReports(ss: seq<System>, steps: seq<Step>) returns (rr: seq<System>, more: seq<Step>)
    requires LegalRun(ss, steps)
    requires var s := ss[|steps|];
             && s.client.myOrders == [RowSeven(PENDING)]
             && s.inflight == [Report(PlainExec(ORDER_REJECTED, 7)), Admitted(OrderOf(BuySeven()).value),
                               Report(AcceptedExec(7, TICK, 5))]
    ensures more == steps + [Deliver(1), Deliver(1), Deliver(1)] && LegalRun(rr, more)
    ensures var s, r := ss[|steps|], rr[|more|];
            r.inflight == [] && r.client.myOrders == [RowSeven(REJECTED)] && r.v == s.v
  {
    var s := ss[|steps|];
    RowSevenCloses(s, PlainExec(ORDER_REJECTED, 7));
    rr, more, s := OneMoreStep(ss, steps, Deliver(1));
    rr, more := TwoMoreReports(rr, more);
  }

  /** The cancel is served before the client even sends the order: the rejection still finds the new row. */
  lemma CancelForeruns() returns (ss: seq<System>, steps: seq<Step>)
    ensures LegalRun(ss, steps) && RejectedYetResting(ss[|steps|])
    ensures steps == [CANCEL_SEVEN, SEND_SEVEN, Deliver(1), Serve(BuySeven()), Deliver(1), Deliver(1)]
  {
    var s;
    ss, steps := CancelledThenSent();
    RowSevenCloses(ss[2], PlainExec(ORDER_REJECTED, 7));
    ss, steps, s := OneMoreStep(ss, steps, Deliver(1));
    ServeSeven(s, RowSeven(REJECTED));
    ss, steps, s := OneMoreStep(ss, steps, Serve(BuySeven()));
    ss, steps := TwoMoreReports(ss, steps);
  }

  lemma TwoMoreReports(ss: seq<System>, steps: seq<Step>) returns (rr: seq<System>, more: seq<Step>)
    requires LegalRun(ss, steps)
    requires var s := ss[|steps|];
             && s.client.myOrders == [RowSeven(REJECTED)]
             && s.inflight == [Admitted(OrderOf(BuySeven()).value), Report(AcceptedExec(7, TICK, 5))]
    ensures more == steps + [Deliver(1), Deliver(1)] && LegalRun(rr, more)
    ensures var s, r := ss[|steps|], rr[|more|];
            r.inflight == [] && r.client.myOrders == [RowSeven(REJECTED)] && r.v == s.v
  {
    var s := ss[|steps|];
    RowSevenStays(s, 1);
    rr, more, s := OneMoreStep(ss, steps, Deliver(1));
    RowSevenStays(s, 1);
    rr, more, s := OneMoreStep(rr, more, Deliver(1));
  }
}
