/** The client's state against everything that ever happened to it: which book, connection, stamp and rows it shows. */
module ClientHistory {
  import opened Orders
  import opened Matching
  import opened Client

  predicate IsBook(a: Action) {
    a.FRAME? && a.frame.BookFrame?
  }

  predicate IsConnection(a: Action) {
    a.CONNECTION?
  }

  predicate IsSent(a: Action) {
    a.SENT?
  }

  /** The moment a frame carries. */
  function StampOf(f: Frame): int {
    match f
    case BookFrame(book) => book.timestamp
    case ExecFrame(_, at) => at
    case FixFrame(_, _, at) => at
  }

  predicate IsFrame(a: Action) {
    a.FRAME?
  }

  predicate Never(acts: seq<Action>, kind: Action -> bool) {
    forall i :: 0 <= i < |acts| ==> !kind(acts[i])
  }

  /** Action i is the last of its kind. */
  predicate IsLast(acts: seq<Action>, i: nat, kind: Action -> bool) {
    i < |acts| && kind(acts[i]) && forall j :: i < j < |acts| ==> !kind(acts[j])
  }

  /** One more action is the last of its kind, or leaves what was. */
  lemma LastMoves(acts: seq<Action>, i: nat, kind: Action -> bool)
    requires acts != []
    ensures kind(acts[|acts| - 1]) ==> IsLast(acts, |acts| - 1, kind)
    ensures !kind(acts[|acts| - 1]) ==>
              (IsLast(acts, i, kind) <==> IsLast(acts[..|acts| - 1], i, kind))
              && (Never(acts, kind) <==> Never(acts[..|acts| - 1], kind))
  {
    var before := acts[..|acts| - 1];
    assert forall j :: 0 <= j < |before| ==> before[j] == acts[j];
  }

  /** The book shown is that of the last BOOK frame, whole; before the first it is empty. */
  lemma {:induction false} BookIsLast(acts: seq<Action>) returns (i: nat)
    ensures if Never(acts, IsBook) then StateAfter(acts).book == BookState(-1, -1, [], [], 0)
            else IsLast(acts, i, IsBook) && StateAfter(acts).book == acts[i].frame.book
  {
    i := 0;
    if acts != [] {
      i := BookIsLast(acts[..|acts| - 1]);
      LastMoves(acts, i, IsBook);
      if IsBook(acts[|acts| - 1]) {
        i := |acts| - 1;
      }
    }
  }

  /** The connection shown is the last one reported. */
  lemma {:induction false} ConnectionIsLast(acts: seq<Action>) returns (i: nat)
    ensures if Never(acts, IsConnection) then StateAfter(acts).connection == Connecting
            else IsLast(acts, i, IsConnection) && StateAfter(acts).connection == acts[i].status
  {
    i := 0;
    if acts != [] {
      i := ConnectionIsLast(acts[..|acts| - 1]);
      LastMoves(acts, i, IsConnection);
      if IsConnection(acts[|acts| - 1]) {
        i := |acts| - 1;
      }
    }
  }

  /** The liveness mark is the moment of the last frame, of whatever kind. */
  lemma {:induction false} StampIsLast(acts: seq<Action>) returns (i: nat)
    ensures if Never(acts, IsFrame) then StateAfter(acts).lastFrameNanos == 0
            else IsLast(acts, i, IsFrame) && StateAfter(acts).lastFrameNanos == StampOf(acts[i].frame)
  {
    i := 0;
    if acts != [] {
      i := StampIsLast(acts[..|acts| - 1]);
      LastMoves(acts, i, IsFrame);
      if IsFrame(acts[|acts| - 1]) {
        i := |acts| - 1;
      }
    }
  }

  function Count(acts: seq<Action>, kind: Action -> bool): nat {
    if acts == [] then 0 else (if kind(acts[0]) then 1 else 0) + Count(acts[1..], kind)
  }

  lemma {:induction false} CountSnoc(acts: seq<Action>, kind: Action -> bool)
    requires acts != []
    ensures Count(acts, kind) == Count(acts[..|acts| - 1], kind) + if kind(acts[|acts| - 1]) then 1 else 0
  {
    if |acts| > 1 {
      CountSnoc(acts[1..], kind);
      assert acts[1..][..|acts| - 2] == acts[..|acts| - 1][1..];
    }
  }

  /** The sequence number counts every frame sent, orders and cancels alike. */
  lemma {:induction false} SequenceCounts(acts: seq<Action>)
    ensures StateAfter(acts).msgSeqNum == Count(acts, IsSent)
  {
    if acts != [] {
      SequenceCounts(acts[..|acts| - 1]);
      CountSnoc(acts, IsSent);
    }
  }

  // ---------- Rows ----------

  predicate SendsNew(a: Action, id: int) {
    a.SENT? && a.sent.NewFrame? && a.sent.clOrdId == id
  }

  /** Action i is the first to send an order with the id. */
  predicate FirstSent(acts: seq<Action>, i: nat, id: int) {
    i < |acts| && SendsNew(acts[i], id) && forall j :: 0 <= j < i ==> !SendsNew(acts[j], id)
  }

  /** The row shows the terms the order was sent with. */
  predicate Carries(row: MyOrder, a: Action) {
    && SendsNew(a, row.clOrdId)
    && row.side == a.sent.side && row.pricePx == a.sent.price && row.originalQty == a.sent.qty
    && row.ordType == a.sent.ordType && row.tif == a.sent.tif && row.displayQty == a.sent.maxFloor
    && row.sentAtNanos == a.sentAt
  }

  predicate TermsKept(a: MyOrder, b: MyOrder) {
    b == a.(status := b.status, remainingQty := b.remainingQty)
  }

  /** No action changes a row's terms. */
  lemma RowsKept(s: AppState, a: Action)
    requires !a.SENT?
    ensures var r := Reducer(s, a).myOrders;
            |r| == |s.myOrders| && forall k :: 0 <= k < |r| ==> TermsKept(s.myOrders[k], r[k])
  {
  }

  predicate SendsAny(a: Action) {
    a.SENT? && a.sent.NewFrame?
  }

  /** The row carries the terms its order was first sent with. */
  ghost predicate FromHistory(row: MyOrder, acts: seq<Action>) {
    exists i: nat :: FirstSent(acts, i, row.clOrdId) && Carries(row, acts[i])
  }

  ghost predicate HasRow(rows: seq<MyOrder>, id: int) {
    exists k :: 0 <= k < |rows| && rows[k].clOrdId == id
  }

  /** Rows have ids of their own, each carries its first terms, and every order sent has one. */
  ghost predicate RowsCarry(rows: seq<MyOrder>, acts: seq<Action>) {
    && (forall k :: 0 <= k < |rows| ==> FromHistory(rows[k], acts))
    && (forall k, l :: 0 <= k < l < |rows| ==> rows[k].clOrdId != rows[l].clOrdId)
    && (forall i :: 0 <= i < |acts| && SendsAny(acts[i]) ==> HasRow(rows, acts[i].sent.clOrdId))
  }

  lemma StillFrom(row: MyOrder, r: MyOrder, before: seq<Action>, acts: seq<Action>)
    requires before <= acts && FromHistory(row, before) && TermsKept(row, r)
    ensures FromHistory(r, acts)
  {
    var i: nat :| FirstSent(before, i, row.clOrdId) && Carries(row, before[i]);
    assert acts[i] == before[i] && FirstSent(acts, i, r.clOrdId) && Carries(r, acts[i]);
  }

  lemma StillHasRow(rows: seq<MyOrder>, r: seq<MyOrder>, id: int, shift: nat)
    requires HasRow(rows, id) && |r| == |rows| + shift
    requires forall k :: 0 <= k < |rows| ==> r[k + shift].clOrdId == rows[k].clOrdId
    ensures HasRow(r, id)
  {
    var k :| 0 <= k < |rows| && rows[k].clOrdId == id;
    assert r[k + shift].clOrdId == id;
  }

  lemma RowsCarryOn(rows: seq<MyOrder>, r: seq<MyOrder>, before: seq<Action>, a: Action)
    requires RowsCarry(rows, before) && (SendsAny(a) ==> HasRow(rows, a.sent.clOrdId))
    requires |r| == |rows| && forall k :: 0 <= k < |rows| ==> TermsKept(rows[k], r[k])
    ensures RowsCarry(r, before + [a])
  {
    var acts := before + [a];
    forall k | 0 <= k < |r|
      ensures FromHistory(r[k], acts) && r[k].clOrdId == rows[k].clOrdId
    {
      StillFrom(rows[k], r[k], before, acts);
    }
    forall i | 0 <= i < |acts| && SendsAny(acts[i])
      ensures HasRow(r, acts[i].sent.clOrdId)
    {
      assert i < |before| ==> acts[i] == before[i];
      StillHasRow(rows, r, acts[i].sent.clOrdId, 0);
    }
  }

  lemma NeverSent(rows: seq<MyOrder>, before: seq<Action>, id: int)
    requires RowsCarry(rows, before) && FindRow(rows, id) == -1
    ensures forall j :: 0 <= j < |before| ==> !SendsNew(before[j], id)
  {
  }

  lemma NewRowFromHistory(rows: seq<MyOrder>, before: seq<Action>, a: Action, o: MyOrder, k: nat)
    requires SendsAny(a) && RowsCarry(rows, before) && Carries(o, a) && FindRow(rows, o.clOrdId) == -1
    requires k <= |rows|
    ensures FromHistory(([o] + rows)[k], before + [a])
  {
    var acts := before + [a];
    if k == 0 {
      NeverSent(rows, before, o.clOrdId);
      assert acts[|before|] == a && FirstSent(acts, |before|, o.clOrdId);
    } else {
      StillFrom(rows[k - 1], rows[k - 1], before, acts);
    }
  }

  lemma NewRowShown(rows: seq<MyOrder>, id: int, o: MyOrder)
    requires HasRow(rows, id) || o.clOrdId == id
    ensures HasRow([o] + rows, id)
  {
    var r := [o] + rows;
    assert r[0] == o;
    if HasRow(rows, id) {
      var k :| 0 <= k < |rows| && rows[k].clOrdId == id;
      assert r[k + 1].clOrdId == id;
    }
  }

  lemma NewRowCarries(rows: seq<MyOrder>, before: seq<Action>, a: Action, o: MyOrder)
    requires SendsAny(a) && RowsCarry(rows, before) && Carries(o, a) && FindRow(rows, o.clOrdId) == -1
    ensures RowsCarry([o] + rows, before + [a])
  {
    var acts, r := before + [a], [o] + rows;
    forall k | 0 <= k < |r|
      ensures FromHistory(r[k], acts)
    {
      NewRowFromHistory(rows, before, a, o, k);
    }
    forall i | 0 <= i < |acts| && SendsAny(acts[i])
      ensures HasRow(r, acts[i].sent.clOrdId)
    {
      assert i < |before| ==> acts[i] == before[i];
      NewRowShown(rows, acts[i].sent.clOrdId, o);
    }
    forall k, l | 0 <= k < l < |r|
      ensures r[k].clOrdId != r[l].clOrdId
    {
      assert r[l] == rows[l - 1];
    }
  }

  /** There is one row for every order ever sent, and it shows the side, price, quantity, type, time in force, display
      quantity and moment the order was first sent with. */
  lemma {:induction false} RowsAreFirstSent(acts: seq<Action>)
    ensures RowsCarry(StateAfter(acts).myOrders, acts)
  {
    if acts != [] {
      var before, a := acts[..|acts| - 1], acts[|acts| - 1];
      var rows := StateAfter(before).myOrders;
      RowsAreFirstSent(before);
      assert acts == before + [a];
      if SendsAny(a) && FindRow(rows, a.sent.clOrdId) == -1 {
        NewRowCarries(rows, before, a, StateAfter(acts).myOrders[0]);
      } else {
        if !a.SENT? {
          RowsKept(StateAfter(before), a);
        } else if SendsAny(a) {
          assert rows[FindRow(rows, a.sent.clOrdId)].clOrdId == a.sent.clOrdId;
        }
        RowsCarryOn(rows, StateAfter(acts).myOrders, before, a);
      }
    }
  }

  /** The first sending of a row's order is one action further back or more, unless the last action brought the row. */
  lemma SentBefore(rows: seq<MyOrder>, before: seq<Action>, a: Action, k: nat, i: nat)
    requires RowsCarry(rows, before) && k < |rows| && FirstSent(before + [a], i, rows[k].clOrdId)
    ensures FirstSent(before, i, rows[k].clOrdId)
  {
    var acts := before + [a];
    var n: nat :| FirstSent(before, n, rows[k].clOrdId) && Carries(rows[k], before[n]);
    assert acts[n] == before[n];
    assert forall j :: 0 <= j < |before| ==> acts[j] == before[j];
  }

  ghost predicate NewestFirst(rows: seq<MyOrder>, acts: seq<Action>) {
    forall k, l, i: nat, j: nat ::
      0 <= k < l < |rows| && FirstSent(acts, i, rows[k].clOrdId) && FirstSent(acts, j, rows[l].clOrdId) ==> j < i
  }

  lemma OrderKept(rows: seq<MyOrder>, r: seq<MyOrder>, before: seq<Action>, a: Action)
    requires RowsCarry(rows, before) && NewestFirst(rows, before)
    requires |r| == |rows| && forall k :: 0 <= k < |rows| ==> r[k].clOrdId == rows[k].clOrdId
    ensures NewestFirst(r, before + [a])
  {
    forall k, l, i: nat, j: nat |
      0 <= k < l < |r| && FirstSent(before + [a], i, r[k].clOrdId) && FirstSent(before + [a], j, r[l].clOrdId)
      ensures j < i
    {
      SentBefore(rows, before, a, k, i);
      SentBefore(rows, before, a, l, j);
    }
  }

  lemma OrderGrows(rows: seq<MyOrder>, before: seq<Action>, a: Action, o: MyOrder)
    requires SendsNew(a, o.clOrdId) && RowsCarry(rows, before) && NewestFirst(rows, before)
    requires FindRow(rows, o.clOrdId) == -1
    ensures NewestFirst([o] + rows, before + [a])
  {
    var r, acts := [o] + rows, before + [a];
    NeverSent(rows, before, o.clOrdId);
    assert forall i :: 0 <= i < |before| ==> acts[i] == before[i];
    forall k, l, i: nat, j: nat |
      0 <= k < l < |r| && FirstSent(acts, i, r[k].clOrdId) && FirstSent(acts, j, r[l].clOrdId)
      ensures j < i
    {
      SentBefore(rows, before, a, l - 1, j);
      if k > 0 {
        SentBefore(rows, before, a, k - 1, i);
      }
    }
  }

  /** Rows stand newest first: of two rows the upper one's order was sent later. */
  lemma {:induction false} RowsAreNewestFirst(acts: seq<Action>)
    ensures NewestFirst(StateAfter(acts).myOrders, acts)
  {
    if acts != [] {
      var before, a := acts[..|acts| - 1], acts[|acts| - 1];
      var rows, r := StateAfter(before).myOrders, StateAfter(acts).myOrders;
      RowsAreFirstSent(before);
      RowsAreNewestFirst(before);
      assert acts == before + [a];
      if SendsAny(a) && FindRow(rows, a.sent.clOrdId) == -1 {
        OrderGrows(rows, before, a, r[0]);
      } else {
        OrderKept(rows, r, before, a);
      }
    }
  }
}
