/** Reports and trades field by field: what each call of the engine puts on the outbound ring and in the trade log. */
module ReportTerms {
  import opened Orders
  import opened Events
  import opened Matching
  import opened Invariant
  import opened Session

  /** An acknowledgement: the order's own price and what is left of it, nothing else. */
  predicate Acknowledges(e: Exec, o: OrderValue, left: int) {
    && e.execType == ORDER_ACCEPTED && e.orderId == o.id && e.price == o.price && e.remaining == left
    && e.tradeId == -1 && e.filled == -1 && e.aggressor == -1 && e.passive == -1
  }

  /** An expiry: the quantity that expired, nothing else. */
  predicate Expires(e: Exec, o: OrderValue, left: int) {
    && e.execType == ORDER_EXPIRED && e.orderId == o.id && e.remaining == left
    && e.price == -1 && e.tradeId == -1 && e.filled == -1 && e.aggressor == -1 && e.passive == -1
  }

  /** An outcome that says no more than an id. */
  predicate Says(e: Exec, execType: ExecType, id: int) {
    && e.execType == execType && e.orderId == id
    && e.price == -1 && e.remaining == -1 && e.tradeId == -1 && e.filled == -1 && e.aggressor == -1 && e.passive == -1
  }

  /** A fill: the aggressor's report about one trade. */
  predicate Fills(e: Exec, t: Trade, aggressor: OrderValue, passive: OrderValue) {
    && e.execType == (if e.remaining == 0 then ORDER_FILLED else ORDER_PARTIALLY_FILLED)
    && e.orderId == aggressor.id && e.aggressor == aggressor.id && e.passive == passive.id
    && e.tradeId == t.id && e.price == t.price && e.filled == t.qty && e.remaining == aggressor.qty - t.qty
  }

  /** The log entry of one trade: each side's id and participant. */
  predicate Logs(t: Trade, buyer: OrderValue, seller: OrderValue) {
    && t.buyId == buyer.id && t.buyParticipant == buyer.participant
    && t.sellId == seller.id && t.sellParticipant == seller.participant
  }

  /** One more trade and one more report, and these say the same. */
  ghost predicate OneTrade(v: Venue, w: Venue, a: OrderValue, p: OrderValue, price: int, m: int) {
    && |w.trades| == |v.trades| + 1 && v.trades <= w.trades
    && |w.execs| == |v.execs| + 1 && v.execs <= w.execs
    && var t, e := w.trades[|v.trades|], w.execs[|v.execs|];
       && t.id == v.lastTradeId + 1 == w.lastTradeId && t.price == price && t.qty == m
       && Fills(e, t, a, p)
       && (a.side == BUY ==> Logs(t, a, p)) && (a.side == SELL ==> Logs(t, p, a))
  }

  /** One iteration of the lit loop trades with the first contra order at that order's price. */
  lemma LitTrade(x: Match)
    requires LitReady(x)
    ensures var h := x.v.book.Lit(x.a.side.Opposite())[0];
            OneTrade(x.v, LitStep(x).v, x.a, h, h.price, if x.a.qty < h.visible then x.a.qty else h.visible)
  {
  }

  /** One iteration of the peg loop trades with the first order of the opposite pool at the given midpoint. */
  lemma PoolTrade(x: Match, mid: int)
    requires PoolReady(x)
    ensures var h := x.v.book.Peg(x.a.side.Opposite())[0];
            OneTrade(x.v, PoolStep(x, mid).v, x.a, h, mid, if x.a.qty < h.qty then x.a.qty else h.qty)
  {
  }

  /** One iteration of the pool cross trades the two heads, the later arrival as aggressor. */
  lemma CrossTrade(v: Venue, mid: int)
    requires Shape(v.book) && v.book.pegBids != [] && v.book.pegAsks != []
    ensures var bid, ask := v.book.pegBids[0], v.book.pegAsks[0];
            var m := if bid.qty < ask.qty then bid.qty else ask.qty;
            if bid.time > ask.time || (bid.time == ask.time && bid.id > ask.id)
            then OneTrade(v, CrossStep(v, mid), bid, ask, mid, m)
            else OneTrade(v, CrossStep(v, mid), ask, bid, mid, m)
  {
    assert Member(v.book.pegBids[0], BUY, PEG_MID) && Member(v.book.pegAsks[0], SELL, PEG_MID);
  }

  /** What becomes of an order's remainder is reported once: acknowledged if it may rest, expired if not. */
  lemma RemainderReported(v: Venue, o: OrderValue)
    requires BookOk(v.book) && Live(o) && !Killed(v, o) && Trading(Match(v, o)).a.qty > 0
    ensures var x := Trading(Match(v, o));
            var all := Dispose(x).v.execs;
            && |all| == |x.v.execs| + 1 && x.v.execs <= all
            && if o.tif == GTC then Acknowledges(all[|x.v.execs|], o, x.a.qty)
               else Expires(all[|x.v.execs|], o, x.a.qty)
  {
    TradingKeeps(Match(v, o));
  }

  /** A killed order is reported expired with its whole quantity. */
  lemma KillReported(v: Venue, o: OrderValue)
    requires Killed(v, o)
    ensures var all := Add(v, o).v.execs;
            |all| == |v.execs| + 1 && v.execs <= all && Expires(all[|v.execs|], o, o.qty)
  {
  }

  /** A cancel and an invalid order are answered by one report that says no more than the id: the cancelled order's, the
      id asked to be cancelled, or the invalid order's. */
  lemma OutcomeReported(v: Venue, e: OrderEvent)
    requires e.eventType.CANCEL_ORDER? || OrderOf(e).None?
    ensures var all := Process(v, e).execs;
            && |all| == |v.execs| + 1 && v.execs <= all
            && if e.eventType.NEW_ORDER? then Says(all[|v.execs|], ORDER_REJECTED, e.orderId)
               else Says(all[|v.execs|],
                         if e.originalOrderId in OpenIds(v.book) then ORDER_CANCELLED else ORDER_REJECTED,
                         e.originalOrderId)
  {
  }
}
