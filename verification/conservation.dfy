/** Conservation over whole runs, against the engine's own trade log. */
module RunConservation {
  import opened Orders
  import opened Events
  import opened Matching
  import opened Invariant
  import opened Ledger
  import opened Session
  import opened Runs

  /** What the trade log says an order traded, as buyer or as seller. */
  function LoggedQty(ts: seq<Trade>, id: int): int {
    if ts == [] then 0
    else
      var t := ts[|ts| - 1];
      LoggedQty(ts[..|ts| - 1], id) + if t.buyId == id || t.sellId == id then t.qty else 0
  }

  function ReportedQty(fills: seq<Exec>, id: int): int {
    if fills == [] then 0
    else
      var e := fills[|fills| - 1];
      ReportedQty(fills[..|fills| - 1], id) + if e.aggressor == id || e.passive == id then e.filled else 0
  }

  lemma {:induction false} LogMatchesReports(who: map<int, Kind>, trades: seq<Trade>, fills: seq<Exec>, id: int)
    requires |trades| == |fills| && forall i :: 0 <= i < |trades| ==> Fits(who, i, trades[i], fills[i])
    ensures LoggedQty(trades, id) == ReportedQty(fills, id)
    decreases |trades|
  {
    if trades != [] {
      var n := |trades| - 1;
      LogMatchesReports(who, trades[..n], fills[..n], id);
      assert Fits(who, n, trades[n], fills[n]);
      assert id in {trades[n].buyId, trades[n].sellId} <==> id in {fills[n].aggressor, fills[n].passive};
    }
  }

  lemma {:induction false} TradedConcat(a: seq<Token>, b: seq<Token>, id: int)
    ensures TradedQty(a + b, id) == TradedQty(a, id) + TradedQty(b, id)
    decreases |a|
  {
    if a == [] {
      assert a + b == b;
    } else {
      assert (a + b)[1..] == a[1..] + b;
      TradedConcat(a[1..], b, id);
    }
  }

  lemma ReportsConcat(a: seq<Exec>, b: seq<Exec>)
    ensures Reports(a + b) == Reports(a) + Reports(b)
  {
  }

  lemma TradedOne(e: Exec, id: int)
    ensures TradedQty([Report(e)], id) == if IsFill(e) && (e.aggressor == id || e.passive == id) then e.filled else 0
  {
    assert [Report(e)][1..] == [];
  }

  lemma ReportedSnoc(fills: seq<Exec>, e: Exec, id: int)
    ensures ReportedQty(fills + [e], id)
            == ReportedQty(fills, id) + if e.aggressor == id || e.passive == id then e.filled else 0
  {
    assert (fills + [e])[..|fills|] == fills;
  }

  lemma TradedSnoc(execs: seq<Exec>, e: Exec, id: int)
    ensures TradedQty(Reports(execs + [e]), id)
            == TradedQty(Reports(execs), id)
               + if IsFill(e) && (e.aggressor == id || e.passive == id) then e.filled else 0
  {
    ReportsConcat(execs, [e]);
    assert Reports([e]) == [Report(e)];
    TradedConcat(Reports(execs), [Report(e)], id);
    TradedOne(e, id);
  }

  lemma ReportedStep(execs: seq<Exec>, e: Exec, id: int)
    ensures ReportedQty(Fills(execs + [e]), id)
            == ReportedQty(Fills(execs), id)
               + if IsFill(e) && (e.aggressor == id || e.passive == id) then e.filled else 0
  {
    FillsSnoc(execs, e);
    ReportedSnoc(Fills(execs), e, id);
    assert Fills(execs) + [] == Fills(execs);
  }

  lemma {:induction false} TradedIsReported(execs: seq<Exec>, id: int)
    ensures TradedQty(Reports(execs), id) == ReportedQty(Fills(execs), id)
    decreases |execs|
  {
    if execs != [] {
      var before, e := execs[..|execs| - 1], execs[|execs| - 1];
      assert execs == before + [e];
      TradedIsReported(before, id);
      TradedSnoc(before, e, id);
      ReportedStep(before, e, id);
    }
  }

  /** The stream of a run says no more and no less about trades than the reports published during it. */
  lemma {:induction false} StreamIsPublished(l: Accounts, v: Venue, es: seq<OrderEvent>, used: set<int>, id: int)
    requires BookOk(v.book) && Tracks(l, v.book) && l.entries.Keys + l.refused <= used && UniqueIds(es, used)
    ensures TradedQty(Reports(Run(v, es).execs), id) == TradedQty(Reports(v.execs), id) + TradedQty(Stream(v, es), id)
    decreases |es|
  {
    if es != [] {
      var e, w := es[0], Process(v, es[0]);
      ProcessFollowed(l, v, e);
      ReplayIds(l, Tokens(v, e));
      TokensMark(v, e);
      TokensTrade(v, e, id);
      StreamIsPublished(Replay(l, Tokens(v, e)).value, w, es[1..],
                        if e.eventType.NEW_ORDER? then used + {e.orderId} else used, id);
      TradedConcat(Tokens(v, e), Stream(w, es[1..]), id);
    }
  }

  lemma TokensTrade(v: Venue, e: OrderEvent, id: int)
    requires v.execs <= Process(v, e).execs
    ensures TradedQty(Reports(Process(v, e).execs), id) == TradedQty(Reports(v.execs), id) + TradedQty(Tokens(v, e), id)
  {
    var w, n := Process(v, e), |v.execs|;
    var ts, rest := Tokens(v, e), Reports(w.execs[n..]);
    assert w.execs == v.execs + w.execs[n..];
    ReportsConcat(v.execs, w.execs[n..]);
    TradedConcat(Reports(v.execs), rest, id);
    var mark := if e.eventType.CANCEL_ORDER? then []
                else match OrderOf(e) case None => [Refused(e.orderId)] case Some(o) => [Admitted(o)];
    assert ts == mark + rest;
    TradedConcat(mark, rest, id);
    assert mark != [] ==> mark[1..] == [];
  }

  // ---------- Buyers against sellers ----------

  function Volume(ts: seq<Trade>): int {
    if ts == [] then 0 else Volume(ts[..|ts| - 1]) + ts[|ts| - 1].qty
  }

  /** What the orders admitted on one side traded, all together. */
  ghost function SideTotal(es: seq<OrderEvent>, side: Side, ts: seq<Trade>): int
    decreases |es|
  {
    if es == [] then 0
    else
      SideTotal(es[1..], side, ts)
      + if es[0].eventType.NEW_ORDER? && OrderOf(es[0]).Some? && OrderOf(es[0]).value.side == side
        then LoggedQty(ts, es[0].orderId) else 0
  }

  lemma NothingTotal(es: seq<OrderEvent>, side: Side)
    ensures SideTotal(es, side, []) == 0
    decreases |es|
  {
  }

  /** One more trade adds its quantity once to each side's total. */
  lemma {:induction false} OneMoreTrade(es: seq<OrderEvent>, used: set<int>, side: Side, ts: seq<Trade>,
                                        id: int, other: int)
    requires UniqueIds(es, used) && ts != [] && id != other
    requires var t := ts[|ts| - 1]; (t.buyId == id && t.sellId == other) || (t.buyId == other && t.sellId == id)
    requires id in KindsOf(es) ==> KindsOf(es)[id].side == side
    requires other in KindsOf(es) ==> KindsOf(es)[other].side != side
    ensures SideTotal(es, side, ts)
            == SideTotal(es, side, ts[..|ts| - 1]) + if id in KindsOf(es) then ts[|ts| - 1].qty else 0
    decreases |es|
  {
    if es != [] {
      var now := if es[0].eventType.NEW_ORDER? then used + {es[0].orderId} else used;
      KindsNamed(es[1..], now);
      OneMoreTrade(es[1..], now, side, ts, id, other);
    }
  }

  lemma {:induction false} SidesBalance(es: seq<OrderEvent>, ts: seq<Trade>, fills: seq<Exec>)
    requires UniqueIds(es, {})
    requires |ts| == |fills| && forall i :: 0 <= i < |ts| ==> Fits(KindsOf(es), i, ts[i], fills[i])
    ensures SideTotal(es, BUY, ts) == SideTotal(es, SELL, ts) == Volume(ts)
    decreases |ts|
  {
    if ts == [] {
      NothingTotal(es, BUY);
      NothingTotal(es, SELL);
    } else {
      var n := |ts| - 1;
      assert Fits(KindsOf(es), n, ts[n], fills[n]);
      SidesBalance(es, ts[..n], fills[..n]);
      OneMoreTrade(es, {}, BUY, ts, ts[n].buyId, ts[n].sellId);
      OneMoreTrade(es, {}, SELL, ts, ts[n].sellId, ts[n].buyId);
    }
  }

  /** Over any run from the opening: trades and fill reports correspond one to one with ids 1, 2, 3 and so on, and
      what an order was admitted with is what the trade log says it bought or sold plus what rests, expired or was
      cancelled. All buyers together bought what all sellers together sold, which is the traded volume. */
  lemma RunConserves(es: seq<OrderEvent>)
    requires UniqueIds(es, {})
    ensures LogOk(KindsOf(es), Run(OPENING, es))
    ensures Replay(NO_ACCOUNTS, Stream(OPENING, es)).Some?
    ensures forall id :: id in Replay(NO_ACCOUNTS, Stream(OPENING, es)).value.entries ==>
              var n := Replay(NO_ACCOUNTS, Stream(OPENING, es)).value.entries[id];
              n.original == n.remaining + LoggedQty(Run(OPENING, es).trades, id)
    ensures var ts := Run(OPENING, es).trades; SideTotal(es, BUY, ts) == SideTotal(es, SELL, ts) == Volume(ts)
  {
    var v := Run(OPENING, es);
    KindsNamed(es, {});
    RunLogged(KindsOf(es), NO_ACCOUNTS, OPENING, es, {});
    SidesBalance(es, v.trades, Fills(v.execs));
    RunObeysProtocol(NO_ACCOUNTS, OPENING, es, {});
    var l := Replay(NO_ACCOUNTS, Stream(OPENING, es)).value;
    forall id | id in l.entries
      ensures l.entries[id].original == l.entries[id].remaining + LoggedQty(v.trades, id)
    {
      Conservation(Stream(OPENING, es), id);
      StreamIsPublished(NO_ACCOUNTS, OPENING, es, {}, id);
      TradedIsReported(v.execs, id);
      LogMatchesReports(KindsOf(es), v.trades, Fills(v.execs), id);
    }
  }
}
