/** The consumer of the inbound ring: builds the order, drives the engine, publishes reports and snapshots. */
module Handler {
  import opened Orders
  import opened Events
  import opened Matching
  import opened Ledger
  import opened Session
  import opened Depth
  import opened Levels
  import opened Reuse
  import opened Engine

  class MatchingEngineHandler {
    const engine: MatchingEngine
    const outbound: ExecutionPublisher

    constructor (engine: MatchingEngine)
      ensures this.engine == engine && outbound == engine.listener
    {
      this.engine := engine;
      outbound := engine.listener;
    }

    /** One inbound event: a cancel reports its outcome; a new order is validated by its constructor and either
        reported as rejected or handed to the engine, whatever its id. The engine stays valid unless that id is
        reused. */
    method Process(event: OrderEvent)
      requires engine.Valid() && outbound == engine.listener
      modifies engine, outbound, engine.Held()
      ensures engine.View() == Session.Process(old(engine.View()), event)
      ensures fresh(engine.Held() - old(engine.Held())) && LevelsOk(engine.bids, BUY) && LevelsOk(engine.asks, SELL)
      ensures engine.Valid() <==> !ReusesId(old(engine.View()), event)
    {
      if event.eventType == CANCEL_ORDER {
        ProcessCancel(event);
      } else {
        ProcessNew(event);
      }
    }

    method ProcessCancel(event: OrderEvent)
      requires engine.Valid() && outbound == engine.listener && event.eventType == CANCEL_ORDER
      modifies engine, outbound, engine.Held()
      ensures engine.View() == Session.Process(old(engine.View()), event)
      ensures engine.Valid() && engine.Held() <= old(engine.Held())
    {
      ghost var book := engine.Contents();
      if event.originalOrderId !in OpenIds(book) {
        CancelAbsent(book, event.originalOrderId);
      }
      var cancelled := engine.CancelOrder(event.originalOrderId);
      engine.PublishPlain(if cancelled then ORDER_CANCELLED else ORDER_REJECTED, event.originalOrderId);
    }

    method ProcessNew(event: OrderEvent)
      requires engine.Valid() && outbound == engine.listener && event.eventType == NEW_ORDER
      modifies engine, outbound, engine.Held()
      ensures engine.View() == Session.Process(old(engine.View()), event)
      ensures fresh(engine.Held() - old(engine.Held())) && LevelsOk(engine.bids, BUY) && LevelsOk(engine.asks, SELL)
      ensures engine.Valid() <==> !ReusesId(old(engine.View()), event)
    {
      var tif := if event.tif.None? then GTC else event.tif.value;
      var ordType := if event.ordType.None? then LIMIT else event.ordType.value;
      var order := engine.CreateOrder(event.orderId, event.timestamp, event.side, ToInt32(event.quantity), event.price,
                                      GATEWAY_PARTICIPANT_ID, tif, ToInt32(event.maxFloor), ordType);
      if order.None? {
        engine.PublishPlain(ORDER_REJECTED, event.orderId);
        return;
      }
      engine.AddOrder(order.value);
    }

    /** In every state, whatever was called, the outbound ring holds the newest of the engine's reports, as many as it
        has slots. */
    lemma RingShowsReports(k: int)
      requires outbound == engine.listener
      requires 0 <= k < |engine.View().execs| && |engine.View().execs| - 1024 <= k
      ensures |outbound.ring.slots| == 1024 && outbound.ring.slots[k % 1024].report == engine.View().execs[k]
    {
    }

    /** The snapshot of the book as it is now. */
    ghost predicate Showing(slot: BookSnapshot, now: int)
      reads engine, engine.Held(), slot, slot.bidPrices, slot.bidQtys, slot.askPrices, slot.askQtys
    {
      slot.Wired() && slot.Shows(engine.Contents(), 20) && slot.timestamp == now
    }

    /** One inbound event, then one snapshot of the book as the event left it, rejected or not. */
    method OnEvent(event: OrderEvent, slot: BookSnapshot, nanoTime: int, clock: int) returns (ghost born: set<Order>)
      requires engine.Valid() && outbound == engine.listener && slot.Wired()
      modifies engine, outbound, engine.Held(), slot, slot.bidPrices, slot.bidQtys, slot.askPrices, slot.askQtys
      ensures slot.Wired() && fresh(born) && engine.Held() <= old(engine.Held()) + born
      ensures engine.View() == Session.Process(old(engine.View()), event)
      ensures engine.Valid() <==> !ReusesId(old(engine.View()), event)
      ensures Showing(slot, clock)
    {
      ghost var held := engine.Held();
      Process(event);
      born := engine.Held() - held;
      PublishSnapshot(slot, nanoTime, clock);
    }

    /** The engine stamps the snapshot with its own time; the handler's clock has the last word. */
    method PublishSnapshot(slot: BookSnapshot, nanoTime: int, clock: int)
      requires LevelsOk(engine.bids, BUY) && LevelsOk(engine.asks, SELL) && slot.Wired()
      modifies slot, slot.bidPrices, slot.bidQtys, slot.askPrices, slot.askQtys
      ensures slot.Shows(engine.Contents(), MAX_DEPTH_LEVELS) && slot.timestamp == clock
      ensures engine.View() == old(engine.View()) && (engine.Valid() <==> old(engine.Valid()))
    {
      engine.SnapshotInto(slot, MAX_DEPTH_LEVELS, nanoTime);
      ghost var others := [Flat(engine.bids), Flat(engine.asks), engine.pegBids, engine.pegAsks];
      slot.Stamp(clock, engine.Contents(), MAX_DEPTH_LEVELS, others);
      assert others[0] == Flat(engine.bids) && others[1] == Flat(engine.asks);
      assert others[2] == engine.pegBids && others[3] == engine.pegAsks;
    }

    /** One event of a run. */
    method OnNext(event: OrderEvent, slot: BookSnapshot, nanoTime: int, clock: int, ghost es: seq<OrderEvent>)
      returns (ghost born: set<Order>)
      requires engine.Valid() && outbound == engine.listener && slot.Wired()
      requires es != [] && es[0] == event && NoReuse(engine.View(), es)
      modifies engine, outbound, engine.Held(), slot, slot.bidPrices, slot.bidQtys, slot.askPrices, slot.askQtys
      ensures fresh(born) && engine.Held() <= old(engine.Held()) + born
      ensures engine.Valid() && Showing(slot, clock)
      ensures NoReuse(engine.View(), es[1..]) && Run(engine.View(), es[1..]) == old(Run(engine.View(), es))
    {
      born := OnEvent(event, slot, nanoTime, clock);
    }

    /** A whole run in which no event reuses an open id: the engine ends where the specification's run ends. */
    method OnEvents(events: seq<OrderEvent>, slot: BookSnapshot, nanoTimes: seq<int>, clock: seq<int>)
      requires engine.Valid() && outbound == engine.listener && slot.Wired()
      requires |nanoTimes| == |clock| == |events| && NoReuse(engine.View(), events)
      modifies engine, outbound, engine.Held(), slot, slot.bidPrices, slot.bidQtys, slot.askPrices, slot.askQtys
      ensures engine.Valid() && engine.View() == Run(old(engine.View()), events)
      ensures events != [] ==> Showing(slot, clock[|events| - 1])
    {
      ghost var start, rest, held, born := engine.View(), events, engine.Held(), {};
      var i, now := 0, 0;
      while i < |events|
        invariant i <= |events| && rest == events[i..] && engine.Valid() && slot.Wired()
        invariant engine.Held() <= held + born && fresh(born)
        invariant NoReuse(engine.View(), rest) && Run(engine.View(), rest) == Run(start, events)
        invariant i > 0 ==> now == clock[i - 1] && Showing(slot, now)
      {
        var event, nanoTime := events[i], nanoTimes[i];
        now, rest, i := clock[i], rest[1..], i + 1;
        assert now == clock[i - 1] && rest == events[i..];
        assert ([event] + rest)[1..] == rest;
        ghost var more := OnNext(event, slot, nanoTime, now, [event] + rest);
        born := born + more;
      }
      assert i == |events| && rest == [] && (i > 0 ==> now == clock[|events| - 1]);
    }

    /** A whole run with unique ids, from accounts that track the engine: the reports it publishes describe exactly the
        book it ends with. */
    method OnFreshEvents(events: seq<OrderEvent>, slot: BookSnapshot, nanoTimes: seq<int>, clock: seq<int>,
                         ghost l: Accounts, ghost used: set<int>)
      requires engine.Valid() && outbound == engine.listener && slot.Wired()
      requires |nanoTimes| == |clock| == |events|
      requires Tracks(l, engine.Contents()) && l.entries.Keys + l.refused <= used && UniqueIds(events, used)
      modifies engine, outbound, engine.Held(), slot, slot.bidPrices, slot.bidQtys, slot.askPrices, slot.askQtys
      ensures engine.Valid() && engine.View() == Run(old(engine.View()), events)
      ensures var reports := Stream(old(engine.View()), events);
              Replay(l, reports).Some? && Tracks(Replay(l, reports).value, engine.Contents())
      ensures events != [] ==> Showing(slot, clock[|events| - 1])
    {
      FreshIdsReuseNothing(l, engine.View(), events, used);
      RunObeysProtocol(l, engine.View(), events, used);
      OnEvents(events, slot, nanoTimes, clock);
    }
  }
}
