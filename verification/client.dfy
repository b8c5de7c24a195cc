/** The browser's state: a pure reducer over connection changes, server frames and sent orders. */
module Client {
  import opened Orders
  import opened Matching

  const TAPE_CAP := 200
  const INSPECTOR_CAP := 500
  const SESSION_OPEN_UNSET := -1

  datatype Connection = Connecting | Open | Reconnecting

  /** The status of a row; its names are the client's own, apart from the engine's order status. */
  datatype RowStatus = PENDING | OPEN | PARTIALLY_FILLED | FILLED | CANCELLED | REJECTED | EXPIRED

  predicate IsTerminal(s: RowStatus) {
    s == RowStatus.FILLED || s == RowStatus.CANCELLED || s == RowStatus.REJECTED || s == RowStatus.EXPIRED
  }

  predicate IsCancellable(s: RowStatus) {
    s == RowStatus.OPEN || s == RowStatus.PARTIALLY_FILLED
  }

  datatype Level = Level(price: int, qty: int)

  datatype BookState = BookState(bestBid: int, bestAsk: int, bids: seq<Level>, asks: seq<Level>, timestamp: int)

  datatype TapeEntry = TapeEntry(tradeId: int, pricePx: int, quantity: int, aggressorOrderId: int, passiveOrderId: int,
                                 timestamp: int, mine: bool, aggressorSide: Option<Side>)

  /** A locally sent order; all but status and remaining quantity is fixed when it is sent. */
  datatype MyOrder = MyOrder(clOrdId: int, side: Side, pricePx: int, originalQty: int, remainingQty: int,
                             status: RowStatus, ordType: OrdType, tif: TimeInForce, displayQty: int,
                             sentAtNanos: Option<int>)

  datatype Frame =
    | BookFrame(book: BookState)
    | ExecFrame(exec: Exec, at: int)
    | FixFrame(raw: string, seqNum: int, at: int)

  datatype ClientFrame =
    | NewFrame(clOrdId: int, side: Side, ordType: OrdType, tif: TimeInForce, price: int, qty: int, maxFloor: int)
    | CancelFrame(clOrdId: int, origClOrdId: int)

  datatype Action = CONNECTION(status: Connection) | FRAME(frame: Frame) | SENT(sent: ClientFrame, sentAt: Option<int>)

  datatype AppState = AppState(connection: Connection, book: BookState, tape: seq<TapeEntry>, myOrders: seq<MyOrder>,
                               sessionVolume: int, sessionOpenPx: int, sessionHighPx: int, sessionLowPx: int,
                               sessionTradeCount: int, msgSeqNum: int, lastFrameNanos: int, inspectorLog: seq<Frame>)

  const INITIAL := AppState(Connecting, BookState(-1, -1, [], [], 0), [], [], 0, SESSION_OPEN_UNSET, SESSION_OPEN_UNSET,
                            SESSION_OPEN_UNSET, 0, 0, 0, [])

  /** Position of the first row with this id, or -1. */
  function FindRow(rows: seq<MyOrder>, id: int): (r: int)
    ensures -1 <= r < |rows|
    ensures r >= 0 ==> rows[r].clOrdId == id && forall i :: 0 <= i < r ==> rows[i].clOrdId != id
    ensures r == -1 ==> forall i :: 0 <= i < |rows| ==> rows[i].clOrdId != id
  {
    if rows == [] then -1
    else if rows[0].clOrdId == id then 0
    else
      var r := FindRow(rows[1..], id);
      assert forall i :: 1 <= i < |rows| ==> rows[i] == rows[1..][i - 1];
      if r == -1 then -1 else r + 1
  }

  function SideOf(rows: seq<MyOrder>, id: int): Option<Side> {
    if id > 0 && FindRow(rows, id) != -1 then Some(rows[FindRow(rows, id)].side) else None
  }

  function AggressorSideFor(rows: seq<MyOrder>, aggressor: int, passive: int): Option<Side> {
    if SideOf(rows, aggressor).Some? then SideOf(rows, aggressor)
    else if SideOf(rows, passive).Some? then Some(SideOf(rows, passive).value.Opposite())
    else None
  }

  /** What a report about this row does to it. */
  function NextOrder(o: MyOrder, e: Exec): MyOrder {
    if IsTerminal(o.status) then o
    else match e.execType {
      case ORDER_ACCEPTED =>
        o.(status := if o.status == RowStatus.PARTIALLY_FILLED then RowStatus.PARTIALLY_FILLED else RowStatus.OPEN,
           remainingQty := e.remaining)
      case ORDER_PARTIALLY_FILLED => o.(status := RowStatus.PARTIALLY_FILLED, remainingQty := e.remaining)
      case ORDER_FILLED => o.(status := RowStatus.FILLED, remainingQty := 0)
      case ORDER_CANCELLED => o.(status := RowStatus.CANCELLED)
      case ORDER_REJECTED => o.(status := RowStatus.REJECTED)
      case ORDER_EXPIRED => o.(status := RowStatus.EXPIRED, remainingQty := e.remaining)
    }
  }

  /** What a fill that names this row as passive does to it: the engine never reports it, so the client derives it. */
  function PassiveFill(o: MyOrder, filled: int): MyOrder {
    if IsTerminal(o.status) then o
    else
      var remaining := if o.remainingQty - filled > 0 then o.remainingQty - filled else 0;
      o.(remainingQty := remaining, status := if remaining == 0 then RowStatus.FILLED else RowStatus.PARTIALLY_FILLED)
  }

  function UpdateRows(rows: seq<MyOrder>, e: Exec): (r: seq<MyOrder>)
    ensures |r| == |rows| && forall i :: 0 <= i < |r| ==> r[i].clOrdId == rows[i].clOrdId
  {
    var agg := FindRow(rows, e.orderId);
    var passive := if IsFill(e) && e.passive > 0 && e.passive != e.orderId then FindRow(rows, e.passive) else -1;
    seq(|rows|, i requires 0 <= i < |rows| =>
      if i == agg then NextOrder(rows[i], e) else if i == passive then PassiveFill(rows[i], e.filled) else rows[i])
  }

  function Newest<T>(l: seq<T>, cap: nat): seq<T> {
    if |l| <= cap then l else l[..cap]
  }

  predicate Knows(rows: seq<MyOrder>, id: int) {
    id > 0 && FindRow(rows, id) != -1
  }

  function ApplyExec(s: AppState, e: Exec, at: int): AppState {
    var moved := s.(myOrders := UpdateRows(s.myOrders, e), lastFrameNanos := at,
                    inspectorLog := Newest([ExecFrame(e, at)] + s.inspectorLog, INSPECTOR_CAP));
    if !IsFill(e) then moved
    else
      var entry := TapeEntry(e.tradeId, e.price, e.filled, e.aggressor, e.passive, at,
                             Knows(s.myOrders, e.aggressor) || Knows(s.myOrders, e.passive),
                             AggressorSideFor(s.myOrders, e.aggressor, e.passive));
      var unset := s.sessionHighPx <= 0 || s.sessionLowPx <= 0;
      moved.(tape := Newest([entry] + s.tape, TAPE_CAP),
             sessionVolume := s.sessionVolume + e.filled,
             sessionOpenPx := if s.sessionOpenPx <= 0 then e.price else s.sessionOpenPx,
             sessionHighPx := if unset then e.price else Max(s.sessionHighPx, e.price),
             sessionLowPx := if unset then e.price else Min(s.sessionLowPx, e.price),
             sessionTradeCount := s.sessionTradeCount + 1)
  }

  function Max(a: int, b: int): int {
    if a >= b then a else b
  }

  function ApplySent(s: AppState, f: ClientFrame, sentAt: Option<int>): AppState {
    var counted := s.(msgSeqNum := s.msgSeqNum + 1);
    if f.NewFrame? && FindRow(s.myOrders, f.clOrdId) == -1 then
      counted.(myOrders := [MyOrder(f.clOrdId, f.side, f.price, f.qty, f.qty, RowStatus.PENDING, f.ordType, f.tif,
                                           f.maxFloor, sentAt)]
                           + s.myOrders)
    else counted
  }

  function Reducer(s: AppState, a: Action): AppState {
    match a
    case CONNECTION(status) => s.(connection := status)
    case FRAME(BookFrame(book)) => s.(book := book, lastFrameNanos := book.timestamp)
    case FRAME(FixFrame(raw, seqNum, at)) =>
      s.(lastFrameNanos := at, inspectorLog := Newest([FixFrame(raw, seqNum, at)] + s.inspectorLog, INSPECTOR_CAP))
    case FRAME(ExecFrame(e, at)) => ApplyExec(s, e, at)
    case SENT(f, sentAt) => ApplySent(s, f, sentAt)
  }

  // ---------- Session accumulators against the full history ----------

  function StateAfter(acts: seq<Action>): AppState {
    if acts == [] then INITIAL else Reducer(StateAfter(acts[..|acts| - 1]), acts[|acts| - 1])
  }

  predicate IsFillAction(a: Action) {
    a.FRAME? && a.frame.ExecFrame? && IsFill(a.frame.exec)
  }

  predicate IsLogged(a: Action) {
    a.FRAME? && !a.frame.BookFrame?
  }

  /** Every fill ever received, oldest first. */
  function FillHistory(acts: seq<Action>): seq<Frame> {
    if acts == [] then []
    else FillHistory(acts[..|acts| - 1]) + if IsFillAction(acts[|acts| - 1]) then [acts[|acts| - 1].frame] else []
  }

  /** Every FIX and EXEC frame ever received, oldest first. */
  function FrameHistory(acts: seq<Action>): seq<Frame> {
    if acts == [] then []
    else FrameHistory(acts[..|acts| - 1]) + if IsLogged(acts[|acts| - 1]) then [acts[|acts| - 1].frame] else []
  }

  ghost predicate AllExec(fills: seq<Frame>) {
    forall i :: 0 <= i < |fills| ==> fills[i].ExecFrame?
  }

  function Volume(fills: seq<Frame>): int {
    if fills == [] then 0
    else Volume(fills[..|fills| - 1]) + match fills[|fills| - 1] { case ExecFrame(e, _) => e.filled case _ => 0 }
  }

  ghost predicate PricesPositive(fills: seq<Frame>)
    requires AllExec(fills)
  {
    forall i :: 0 <= i < |fills| ==> fills[i].exec.price > 0
  }

  ghost predicate IsHigh(fills: seq<Frame>, p: int)
    requires AllExec(fills)
  {
    && (exists i :: 0 <= i < |fills| && fills[i].exec.price == p)
    && forall i :: 0 <= i < |fills| ==> fills[i].exec.price <= p
  }

  ghost predicate IsLow(fills: seq<Frame>, p: int)
    requires AllExec(fills)
  {
    && (exists i :: 0 <= i < |fills| && fills[i].exec.price == p)
    && forall i :: 0 <= i < |fills| ==> p <= fills[i].exec.price
  }

  lemma {:induction false} HistoryIsExec(acts: seq<Action>)
    ensures AllExec(FillHistory(acts))
  {
    if acts != [] {
      HistoryIsExec(acts[..|acts| - 1]);
    }
  }

  /** The price accumulators against a fill history. */
  ghost predicate PricesFold(s: AppState, fills: seq<Frame>)
    requires AllExec(fills)
  {
    if fills == [] then
      s.sessionOpenPx == s.sessionHighPx == s.sessionLowPx == SESSION_OPEN_UNSET
    else
      s.sessionOpenPx == fills[0].exec.price && IsHigh(fills, s.sessionHighPx) && IsLow(fills, s.sessionLowPx)
  }

  lemma HighSnoc(fills: seq<Frame>, f: Frame, p: int)
    requires AllExec(fills) && f.ExecFrame? && (fills != [] ==> IsHigh(fills, p))
    ensures IsHigh(fills + [f], if fills == [] then f.exec.price else Max(p, f.exec.price))
  {
    var all := fills + [f];
    assert all[|fills|] == f;
    if fills != [] {
      var i :| 0 <= i < |fills| && fills[i].exec.price == p;
      assert all[i].exec.price == p;
    }
  }

  lemma LowSnoc(fills: seq<Frame>, f: Frame, p: int)
    requires AllExec(fills) && f.ExecFrame? && (fills != [] ==> IsLow(fills, p))
    ensures IsLow(fills + [f], if fills == [] then f.exec.price else Min(p, f.exec.price))
  {
    var all := fills + [f];
    assert all[|fills|] == f;
    if fills != [] {
      var i :| 0 <= i < |fills| && fills[i].exec.price == p;
      assert all[i].exec.price == p;
    }
  }

  lemma HistoryGrows(acts: seq<Action>)
    requires acts != []
    ensures var before, a := acts[..|acts| - 1], acts[|acts| - 1];
            FillHistory(acts) == if IsFillAction(a) then FillHistory(before) + [a.frame] else FillHistory(before)
  {
  }

  /** One action moves the price accumulators as its fill, if it is one, extends the history. */
  lemma PricesStep(s: AppState, fills: seq<Frame>, a: Action)
    requires AllExec(fills) && PricesPositive(fills) && PricesFold(s, fills)
    requires IsFillAction(a) ==> a.frame.exec.price > 0
    ensures var after := if IsFillAction(a) then fills + [a.frame] else fills;
            AllExec(after) && PricesFold(Reducer(s, a), after)
  {
    if IsFillAction(a) {
      if fills != [] {
        var i :| 0 <= i < |fills| && fills[i].exec.price == s.sessionHighPx;
        var j :| 0 <= j < |fills| && fills[j].exec.price == s.sessionLowPx;
      }
      HighSnoc(fills, a.frame, s.sessionHighPx);
      LowSnoc(fills, a.frame, s.sessionLowPx);
      assert (fills + [a.frame])[0] == if fills == [] then a.frame else fills[0];
    }
  }

  /** Over any history with positive fill prices the session prices are the first, highest and lowest of all fills
      ever seen, however many the tape has forgotten, and connection changes, BOOK and FIX frames and sent orders move
      none. */
  lemma {:induction false} SessionPrices(acts: seq<Action>)
    requires AllExec(FillHistory(acts)) && PricesPositive(FillHistory(acts))
    ensures PricesFold(StateAfter(acts), FillHistory(acts))
  {
    if acts != [] {
      var before, a := acts[..|acts| - 1], acts[|acts| - 1];
      HistoryGrows(acts);
      HistoryIsExec(before);
      assert forall i :: 0 <= i < |FillHistory(before)| ==> FillHistory(before)[i] == FillHistory(acts)[i];
      assert IsFillAction(a) ==> FillHistory(acts)[|FillHistory(before)|] == a.frame;
      SessionPrices(before);
      PricesStep(StateAfter(before), FillHistory(before), a);
    }
  }

  /** Volume and trade count are sums over all fills ever seen. */
  lemma {:induction false} SessionTotals(acts: seq<Action>)
    ensures StateAfter(acts).sessionVolume == Volume(FillHistory(acts))
    ensures StateAfter(acts).sessionTradeCount == |FillHistory(acts)|
  {
    if acts != [] {
      var before := acts[..|acts| - 1];
      SessionTotals(before);
      HistoryGrows(acts);
      assert FillHistory(acts)[..|FillHistory(before)|] == FillHistory(before);
    }
  }

  function Reversed<T>(l: seq<T>): seq<T> {
    seq(|l|, i requires 0 <= i < |l| => l[|l| - 1 - i])
  }

  lemma NewestSnoc<T>(l: seq<T>, x: T, cap: nat)
    requires cap > 0
    ensures Newest([x] + Newest(Reversed(l), cap), cap) == Newest(Reversed(l + [x]), cap)
  {
    var r := Reversed(l + [x]);
    assert r == [x] + Reversed(l);
  }

  /** The inspector log is exactly the newest 500 FIX and EXEC frames, newest first. */
  lemma {:induction false} InspectorIsNewest(acts: seq<Action>)
    ensures StateAfter(acts).inspectorLog == Newest(Reversed(FrameHistory(acts)), 500)
  {
    if acts != [] {
      var before, a := acts[..|acts| - 1], acts[|acts| - 1];
      InspectorIsNewest(before);
      if IsLogged(a) {
        NewestSnoc(FrameHistory(before), a.frame, INSPECTOR_CAP);
      }
    }
  }

  ghost predicate EntryFor(t: TapeEntry, f: Frame) {
    f.ExecFrame? && t.tradeId == f.exec.tradeId && t.pricePx == f.exec.price && t.quantity == f.exec.filled
    && t.aggressorOrderId == f.exec.aggressor && t.passiveOrderId == f.exec.passive && t.timestamp == f.at
    && (t.mine <==> t.aggressorSide.Some?)
  }

  /** The tape is exactly the newest 200 fills, newest first, and carries an aggressor side exactly on own trades. */
  lemma {:induction false} TapeIsNewest(acts: seq<Action>)
    ensures var tape, fills := StateAfter(acts).tape, FillHistory(acts);
            && |tape| == Min(|fills|, 200)
            && forall i :: 0 <= i < |tape| ==> EntryFor(tape[i], fills[|fills| - 1 - i])
  {
    if acts != [] {
      var before, a := acts[..|acts| - 1], acts[|acts| - 1];
      TapeIsNewest(before);
      var tape, old', prior := StateAfter(acts).tape, StateAfter(before).tape, FillHistory(before);
      if IsFillAction(a) {
        TapeGrows(old', prior, tape[0], a.frame);
      }
    }
  }

  /** One more fill in front of the tape, the oldest forgotten once the tape is full. */
  lemma TapeGrows(tape: seq<TapeEntry>, fills: seq<Frame>, t: TapeEntry, f: Frame)
    requires |tape| == Min(|fills|, TAPE_CAP) && EntryFor(t, f)
    requires forall i :: 0 <= i < |tape| ==> EntryFor(tape[i], fills[|fills| - 1 - i])
    ensures var now, all := Newest([t] + tape, TAPE_CAP), fills + [f];
            && |now| == Min(|all|, TAPE_CAP)
            && forall i :: 0 <= i < |now| ==> EntryFor(now[i], all[|all| - 1 - i])
  {
    var now, all := Newest([t] + tape, TAPE_CAP), fills + [f];
    forall i | 0 <= i < |now|
      ensures EntryFor(now[i], all[|all| - 1 - i])
    {
      assert i > 0 ==> now[i] == tape[i - 1] && EntryFor(tape[i - 1], fills[|fills| - i]);
    }
  }
}
