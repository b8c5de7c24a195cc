# Trading venue: verified model

The repository is a single-symbol exchange: a FIX 4.2 gateway, a matching engine for lit limit orders, icebergs and
midpoint pegs, and a browser client that follows its own orders from execution reports. This project models the path
from bytes to book to client and proves what the parts promise one another.

How it is organised, bottom up:

- `orders`, `events`: orders as values and as the mutable `Order` class; the inbound event.
- `matching`: the specification, a greedy matcher on values: each lit side is one list in priority order, each peg pool
  one queue. `engine`, `levels`, `depth`: the engine as the source has it, a class over sorted levels of queues of `Order`
  objects, two pools, an id index, a trade log and an outbound publisher. Every method is proved against the
  specification, so what is proved of the one holds of the other. `handler` drives it event by event and run by run.
- `invariant`, `liquidity`, `slices`, `prices`, `crossing`, `reuse`, `priority`: what one operation keeps and achieves.
  `liquidity` and `priority` compare the matcher with independent definitions: the sum of reachable sizes, and an
  unordered pool that always trades its best price, oldest first.
- `reports`, `rules`, `text`, `forms`, `history`: what the specification says, said again without its words, on prices,
  times, literal tags and bytes: reports and trades field by field, the parser's field rules, messages and prices as text,
  what the decoder takes for a message, and the client's state against its whole history.
- `ledger`, `session`, `runs`, `conservation`: the report protocol as an automaton that knows no book, and whole runs
  against it.
- `client`, `following`: the reducer, and the simulation that keeps it in step with the engine.
- `bytes`, `pricetext`, `framing`, `parser`, `printer`, `codec`, `symbol`, `gateway`, `wire`, `endtoend`: decimal and price text,
  the frame decoder, tokeniser and field rules, the encoder, the gateway, and the theorems that join them.

Loops, buffers and mutable objects of the source are loops, arrays and classes here; expressions are functions. Long
source methods are cut into a few named helper methods.

Main results:

- `Engine.MatchingEngine.AddOrder`, `CancelOrder` and `Handler.MatchingEngineHandler.OnEvents`: the mutable engine is the
  list specification, call by call and over whole runs.
- `Runs.RunHasPriority`: the fills every run reports have price-time priority, measured against an unordered pool.
- `LiquidityTheorems.TotalFilled`, `FillOrKill`: the read-only probe and the mutating loops agree on every order.
- `Session.RunObeysProtocol`, `RunConservation.RunConserves`: what the reports and the trade log say of every order.
- `CrossAndCancel.CrossOnlyAtBirthOfMid`, `CancelUndoesRest`, `Slices.SweepFillCount`, `PriceTheorems.FillPrices`.
- `Following.ClientFollowsEngine`, `StrayCancel`: the client's rows are the engine's truth although passive fills are
  never reported, and exactly when they are not.
- `Framing.ChunkingIndependence`, `SymbolTheorems.RoundTrip`, `WireTheorems.WireIsFaithful`, `EndToEnd.BytesToBook`: from
  bytes cut anywhere to the book.
- `FrameForm.HeaderDecides`, `FrameForm.DecoderEmitsMessages`, `FieldRules.OrderRules`, `ReportTerms.OutcomeReported`,
  `LiquidityTheorems.LiquidityOnPrices`, `ClientHistory.RowsAreFirstSent`: what the definitions mean, on bytes, tags, prices
  and histories.

Where code and comments differ, the code is followed. A killed fill-or-kill order is reported as expired but its status
stays OPEN (`app/backend/src/main/java/engine/MatchingEngine.java:252-255`). The gateway comment says a rejected scratch
event may be partly written (`app/backend/src/main/java/gateway/OrderGateway.java:108-109`); the parser never does that, and
this is proved.

Properties that do not hold of the code, each with the exact condition under which they do:

- Ids stay unique, and the id index exact, if and only if no order comes to rest while another one is still open under
  its id once trading is done; the engine never checks. An order that is filled, expires or has traded its namesake away
  does no harm (`Reuse.AddNeedsFreshId`, `Reuse.ShapeAfterAdd`, `Reuse.ReusedIdRun`,
  `Engine.MatchingEngine.AddOrder`).
- The midpoint is exact and inside the spread, and a marketable sell reaches it, if and only if best bid and best ask sum
  to at most 2^63-1 (`PriceTheorems.MidIsExact`, `PriceTheorems.MarketableCrossesMid`, `PriceTheorems.MidWraps`).
- A price text is read exactly only up to 2^63-1 units; beyond, the product wraps (`Bytes.ParsePriceExact`,
  `Bytes.ParsePriceWraps`).
- An order message parses back to its order, or is rejected as it should be, if and only if its symbol does not rewrite
  it: the encoder writes the symbol as it is, the parser cuts fields at every separator and takes the first of each tag.
  A symbol rewrites its order when it is the venue's, followed by a separator and text that spells well-formed fields, the
  message has room for them, and the order's terms with these in front are acceptable (`SymbolTheorems.RoundTrip`,
  `SymbolTheorems.BuyTakenForSell`, `WireTheorems.WireIsFaithful`).
- A field's tag is read as written only if it fits 32 bits (`CodecTheorems.FieldSpelled`, `CodecTheorems.WideTag`).
- A quantity reaches the engine unchanged only if it fits 32 bits (`EndToEnd.AdmittedAsAsked`, `EndToEnd.NarrowedOrder`).
- Rows agree with the reports if and only if no cancel of an id the engine has not heard of is answered while the row of
  that id is there, whether the order was sent before the cancel was served or after. Otherwise a row can say rejected
  while its order rests (`Following.StrayCancel`, `Following.ClientFollowsEngine`, `Following.CancelOvertakes`,
  `Following.CancelForeruns`). The open-orders table never sends such a cancel (`Following.GuardedClientFollows`); the
  cancel ticket, which takes any id, can.

## Model

| member | source | states |
|---|---|---|
| `Orders.Admit` | app/backend/src/main/java/model/Order.java:66-104 | the order the canonical constructor builds holds every parameter in its own field, with the peak rule applied, and satisfies every field rule (tick, iceberg, peg); it is refused exactly under the listed conditions |
| `Orders.Order.Create` | app/backend/src/main/java/model/Order.java:66-104 | the constructor checks, in their order, succeed exactly where the rules admit the order; the object holds the admitted values and no other order changes |
| `Orders.Order.Fill` | app/backend/src/main/java/model/Order.java:106-114 | a fill outside 0 < amount <= quantity is refused and changes nothing; otherwise it takes its amount from total and displayed size and marks the order FILLED exactly at zero and PARTIALLY_FILLED before |
| `Orders.Order.RefreshDisplay` | app/backend/src/main/java/model/Order.java:138-140 | the displayed slice becomes the peak or what is left, whichever is smaller; everything for a plain order |
| `Orders.Order.Cancel` | app/backend/src/main/java/model/Order.java:116-124 | only the status changes, to CANCELLED |
| `Orders.Order.Expire` | app/backend/src/main/java/model/Order.java:126-134 | only the status changes, to EXPIRED |
| `Engine.MatchingEngine.constructor` | app/backend/src/main/java/engine/MatchingEngine.java:16-34 | a new engine is valid and empty |
| `Engine.MatchingEngine.Deal` | app/backend/src/main/java/engine/MatchingEngine.java:81-103 | one trade fills both orders by the same amount, logs buyer, seller, price and quantity under the next trade id and reports it once; every other order is as before |
| `Engine.SettleTop` | app/backend/src/main/java/engine/MatchingEngine.java:104-117 | after a fill the first order leaves its level (and an emptied level the map), or reloads at the back of its level, or stays first: the flat list settles exactly so |
| `Engine.MatchingEngine.BuyTrade` | app/backend/src/main/java/engine/MatchingEngine.java:73-118 | one iteration of the buy loop is one step of the list matcher and keeps the engine valid |
| `Engine.MatchingEngine.MatchBuy` | app/backend/src/main/java/engine/MatchingEngine.java:71-119 | the buy loop over sorted levels of queues is the greedy sweep over one priority list: same trades, same reports, same book |
| `Engine.MatchingEngine.SellTrade` | app/backend/src/main/java/engine/MatchingEngine.java:123-168 | one iteration of the sell loop is one step of the list matcher and keeps the engine valid |
| `Engine.MatchingEngine.MatchSell` | app/backend/src/main/java/engine/MatchingEngine.java:121-169 | the same for a sell order |
| `Engine.MatchingEngine.MatchPegPool` | app/backend/src/main/java/engine/MatchingEngine.java:313-344 | the peg loop is the pool sweep at the given midpoint; own-side pool and lit book are untouched |
| `Engine.MatchingEngine.CrossPegPools` | app/backend/src/main/java/engine/MatchingEngine.java:370-414 | the pool cross is the list specification of it, takes from the index exactly the keys of the pegs used up, ends valid from a sound engine, and does nothing without a midpoint |
| `Engine.MatchingEngine.CanFillCompletely` | app/backend/src/main/java/engine/MatchingEngine.java:187-215 | the probe answers true exactly when reachable liquidity, hidden reserve and peg pool included, covers the order, and changes nothing |
| `Engine.MatchingEngine.PegPoolTotal` | app/backend/src/main/java/engine/MatchingEngine.java:218-225 | the sum of the opposite pool |
| `Engine.MatchingEngine.RestPeg` | app/backend/src/main/java/engine/MatchingEngine.java:353-358 | a peg that rests joins the back of its pool and the index, and is acknowledged; the engine stays valid where its id was not open |
| `Engine.MatchingEngine.RestLit` | app/backend/src/main/java/engine/MatchingEngine.java:424-428 | a lit order that rests shows a fresh slice behind every order at its price or better, and is indexed and acknowledged; the engine stays sound where its id was not open |
| `Engine.MatchingEngine.AddOrder` | app/backend/src/main/java/engine/MatchingEngine.java:247-303 | from any valid engine, whatever the incoming id, admission is exactly the specification: probe, peg step, sweep, disposition, pool cross, with the same trades, reports and index keys; the engine ends valid if and only if the order does not rest beside an order that still has its id |
| `Engine.MatchingEngine.CancelOrder` | app/backend/src/main/java/engine/MatchingEngine.java:435-455 | returns true exactly when the id was resting, removes that order alone and any emptied level, marks it CANCELLED, and keeps the engine valid |
| `Engine.MatchingEngine.SnapshotInto` | app/backend/src/main/java/engine/MatchingEngine.java:528-537 | the carrier shows the best-first depth of the lit book, tops included, under the given stamp, and the engine is unchanged |
| `Engine.MatchingEngine.TopsAgree` | app/backend/src/main/java/engine/MatchingEngine.java:54-58 | best bid, best ask and midpoint, the wrapping sum of two longs included, read off the level maps are those of the specification |
| `Levels.EnqueueInserts` | app/backend/src/main/java/engine/MatchingEngine.java:424-428 | queueing at the level of the order price is inserting behind everything at least as good in the flat list |
| `Levels.DequeueRemoves` | app/backend/src/main/java/engine/MatchingEngine.java:440-452 | taking an order out of its level, and the level out of the map once empty, is removing its id from the flat list |
| `Levels.FlatDetermines` | app/backend/src/main/java/engine/MatchingEngine.java:16-18 | two well-formed level maps with the same flat list are equal, so nothing stored is lost in the specification |
| `Invariant.AddKeeps` | app/backend/src/main/java/engine/MatchingEngine.java:247-303 | admission, unless the order rests beside an order with its id, keeps the book invariant: sides sorted, every order at its side and price with 0 < visible <= quantity, one place per order, bids below asks, and at most one pool waiting while a midpoint exists |
| `Invariant.BookOnPrices` | app/backend/src/main/java/engine/MatchingEngine.java:16-34 | on prices alone: bids fall, asks rise, every bid is below every ask, every resting order shows between one and all of what is left, and while both sides quote a pool is empty |
| `Invariant.CancelKeeps` | app/backend/src/main/java/engine/MatchingEngine.java:435-455 | a cancel keeps the invariant and never creates a midpoint, so it never needs a pool cross |
| `Invariant.TradingKeeps` | app/backend/src/main/java/engine/MatchingEngine.java:257-288 | trading keeps the invariant and ends with nothing left to trade on either path, the order changed in its quantities and status only |
| `Invariant.CrossLoopKeeps` | app/backend/src/main/java/engine/MatchingEngine.java:370-414 | a pool cross leaves the lit book alone, ends with a pool empty and opens no id |
| `Reuse.AddNeedsFreshId` | app/backend/src/main/java/engine/MatchingEngine.java:247-303 | for an incoming order with any id: book invariant and index survive admission if and only if the order does not rest while, trading done, another order is still open under its id |
| `Reuse.ShapeAfterAdd` | app/backend/src/main/java/engine/MatchingEngine.java:247-303 | for an incoming order with any id: every order is left in one place under an id of its own if and only if the order does not rest beside an order that has its id after the pool cross |
| `Reuse.ReusedIdRun` | app/backend/src/main/java/engine/MatchingEngineHandler.java:89-125 | two events that send order 7 leave two orders open under id 7 |
| `LiquidityTheorems.TotalFilled` | app/backend/src/main/java/engine/MatchingEngine.java:187-303 | whatever the time in force, an admitted order trades min(quantity, reachable liquidity) in all, and a killed fill-or-kill nothing |
| `LiquidityTheorems.FillOrKill` | app/backend/src/main/java/engine/MatchingEngine.java:250-256 | a FOK is all or nothing: filled to zero exactly when the probe liquidity suffices; otherwise book, trades and trade counter are unchanged and its whole quantity is reported expired |
| `LiquidityTheorems.LiquidityOnPrices` | app/backend/src/main/java/engine/MatchingEngine.java:187-225 | what an order could trade with, on prices alone: the opposite pegs, while both sides quote, for a peg and for a limit order at or beyond the exact middle of the quotes; and for a limit order the whole size of the opposite side at or better than its limit |
| `LiquidityTheorems.ReachAfterFill` | app/backend/src/main/java/engine/MatchingEngine.java:104-117 | a fill takes exactly its amount out of what is in reach, whether or not a tip reloads |
| `LiquidityTheorems.SweepFills` | app/backend/src/main/java/engine/MatchingEngine.java:71-169 | the lit sweep trades the smaller of the order and what is in reach |
| `LiquidityTheorems.PoolSweepFills` | app/backend/src/main/java/engine/MatchingEngine.java:313-344 | the peg step trades the smaller of the order and the whole opposite pool |
| `Slices.ReloadSlices` | app/backend/src/main/java/model/Order.java:138-140 | reloading an exhausted tip uses up exactly one slice |
| `Slices.LitStepSlices` | app/backend/src/main/java/engine/MatchingEngine.java:72-118 | an iteration that does not exhaust the aggressor lowers the reachable slices by exactly one |
| `Slices.SweepFillCount` | app/backend/src/main/java/engine/MatchingEngine.java:71-169 | a sweep makes at most as many fills as there are slices in reach, and exactly that many when it drains its reach |
| `PriceTheorems.MidIsExact` | app/backend/src/main/java/engine/MatchingEngine.java:54-58 | halving loses nothing and the midpoint, a multiple of 50 units, is strictly between best bid and best ask if and only if their sum is at most 2^63-1; beyond that it is negative |
| `PriceTheorems.MarketableCrossesMid` | app/backend/src/main/java/engine/MatchingEngine.java:43-69 | an order marketable against the lit book also reaches the midpoint if and only if it buys or the tops sum to at most 2^63-1 |
| `PriceTheorems.MidWraps` | app/backend/src/main/java/engine/MatchingEngine.java:54-58 | at two prices the gateway accepts the midpoint is negative: any buy reaches it and no sell does |
| `PriceTheorems.FillPrices` | app/backend/src/main/java/engine/MatchingEngine.java:257-288 | fills split in two: first those against waiting pegs of the opposite pool, all at the midpoint, then those against the opposite lit side; prices never improve for the aggressor and stay inside a limit order's limit, and a peg makes fills of the first kind only |
| `PriceTheorems.PegsAtTheMiddle` | app/backend/src/main/java/engine/MatchingEngine.java:60-69 | a limit order takes the waiting opposite pegs if and only if twice its price is at or beyond the sum of the quotes: then its first fill is the head of that pool at their exact middle, and the pool loses the smaller of the order and itself; otherwise the pool is unchanged and no fill names it |
| `ReportTerms.LitTrade` | app/backend/src/main/java/engine/MatchingEngine.java:81-103 | one lit trade, field by field: log entry and report agree on id, price and quantity, name buyer, seller and their participants, aggressor and passive order, and say FILLED exactly when nothing remains |
| `ReportTerms.PoolTrade` | app/backend/src/main/java/engine/MatchingEngine.java:313-344 | the same for a trade with the head of the opposite pool at the midpoint |
| `ReportTerms.CrossTrade` | app/backend/src/main/java/engine/MatchingEngine.java:376-422 | the same for a trade between the pool heads, the aggressor being the one with the later timestamp or, on a tie, the larger id |
| `ReportTerms.RemainderReported` | app/backend/src/main/java/engine/MatchingEngineHandler.java:139-149 | a remainder is reported once: an acknowledgement carries the order price and what is left and the absent value everywhere else, an expiry what expired and the absent value everywhere else |
| `ReportTerms.KillReported` | app/backend/src/main/java/engine/MatchingEngine.java:250-256 | a killed order is reported expired with its whole quantity, field by field |
| `ReportTerms.OutcomeReported` | app/backend/src/main/java/engine/MatchingEngineHandler.java:89-122 | a cancel and an invalid order are answered by one report that carries its outcome and id and the absent value everywhere else |
| `PriceTime.SweepHasPriority` | app/backend/src/main/java/engine/MatchingEngine.java:71-169 | a sweep makes the very deals of an unordered pool that always trades its best price, oldest queue time first, a reloaded tip queued anew |
| `PriceTime.PriceTimePriority` | app/backend/src/main/java/engine/MatchingEngine.java:71-169 | over any history of joins, cancels and sweeps the lists and that pool make the same deals and stay the same orders in (price, queue time) order |
| `PriceTime.InsertIsArrival` | app/backend/src/main/java/engine/MatchingEngine.java:424-428 | queueing behind every equal or better price is arriving now |
| `PriceTime.RemoveIsWithdrawal` | app/backend/src/main/java/engine/MatchingEngine.java:435-455 | a cancel leaves everyone else's place alone |
| `Runs.RunHasPriority` | app/backend/src/main/java/engine/MatchingEngine.java:247-303 | every run from the opening has price-time priority on each lit side: the fills of its resting limit orders that the run reports, in order, are the deals of the unordered pool, and its final queue is that pool in (price, queue time) order |
| `CrossAndCancel.LaterIsTotal` | app/backend/src/main/java/engine/MatchingEngine.java:417-422 | of two orders with ids of their own exactly one is the later, transitively, and a later timestamp alone decides |
| `CrossAndCancel.CrossPoolsEffect` | app/backend/src/main/java/engine/MatchingEngine.java:370-422 | all fills of a pool cross print at the one midpoint between pegs that were waiting, the one with the later timestamp (on a tie the larger id) as aggressor, and a pool ends empty |
| `CrossAndCancel.CrossOnlyAtBirthOfMid` | app/backend/src/main/java/engine/MatchingEngine.java:300-302 | a pool cross does something only if the order rested, the midpoint was absent before it, and both pools were waiting |
| `CrossAndCancel.PoolIsFifo` | app/backend/src/main/java/engine/MatchingEngine.java:313-344 | the peg step takes the opposite pool first in, first out, every order whole but the last |
| `CrossAndCancel.CancelIsExact` | app/backend/src/main/java/engine/MatchingEngine.java:435-455 | a cancel takes out the named order and nothing else, in place; a second one changes nothing |
| `CrossAndCancel.NoTradeNoChange` | app/backend/src/main/java/engine/MatchingEngine.java:289-303 | an order that rested without a trade changed nothing but its own queue |
| `CrossAndCancel.CancelUndoesRest` | app/backend/src/main/java/engine/MatchingEngine.java:435-455 | cancelling an order that rested without trading restores the book exactly |
| `Depth.FillSide` | app/backend/src/main/java/engine/MatchingEngine.java:545-559 | writes the first min(levels, limit) rows of the depth of a side, whatever the arrays held before, and leaves the tails alone |
| `Depth.DepthIsOrdered` | app/backend/src/main/java/engine/MatchingEngine.java:545-559 | rows are strictly best first from the best price |
| `Depth.DepthCovers` | app/backend/src/main/java/engine/MatchingEngine.java:545-559 | every price with an order has a row |
| `Depth.DepthIsExact` | app/backend/src/main/java/engine/MatchingEngine.java:545-559 | each row is exactly the sum displayed at its price |
| `Depth.SnapshotHidesReserve` | app/backend/src/main/java/engine/MatchingEngine.java:528-559 | books that display the same orders show the same snapshot, whatever their reserves and peg pools hold |
| `Depth.TopsAreFirstRows` | app/backend/src/main/java/event/BookSnapshotEvent.java:18-52 | the top-of-book fields of a snapshot are its first rows |
| `Handler.MatchingEngineHandler.Process` | app/backend/src/main/java/engine/MatchingEngineHandler.java:89-125 | one inbound event through constructor checks, engine and reports is exactly the specification of it, from any valid engine and with any id; the engine stays valid if and only if the event does not reuse an open id |
| `Session.HandedOver` | app/backend/src/main/java/engine/MatchingEngineHandler.java:97-119 | the engine is handed id, timestamp, side, price, participant 1 and the narrowed quantity and display size of the event; no time in force means GTC, no type a limit order |
| `Handler.MatchingEngineHandler.OnEvent` | app/backend/src/main/java/engine/MatchingEngineHandler.java:84-87 | after each event, rejected or not, the snapshot shows the book as the event left it, under the stamp of the handler clock |
| `Handler.MatchingEngineHandler.OnEvents` | app/backend/src/main/java/engine/MatchingEngineHandler.java:84-125 | over a whole run in which no event reuses an open id the engine object ends valid, where the specified run ends, and the snapshot shows its book |
| `Handler.MatchingEngineHandler.OnFreshEvents` | app/backend/src/main/java/engine/MatchingEngineHandler.java:84-125 | over a run with unique ids the same, and the reports published describe exactly the book it ends with |
| `Reuse.RunKeeps` | app/backend/src/main/java/engine/MatchingEngineHandler.java:84-125 | over any run in which no event reuses an open id the book invariant holds |
| `Engine.ExecutionPublisher.Publish` | app/backend/src/main/java/engine/MatchingEngineHandler.java:153-171 | whatever report the claimed slot still held, the ring goes on holding the last 1024 reports, each exactly as published and stamped with the clock reading taken for it |
| `Handler.MatchingEngineHandler.RingShowsReports` | app/backend/src/main/java/engine/MatchingEngineHandler.java:153-171 | in every state, after any calls, the ring slots hold the newest of the reports the engine has published |
| `Engine.ExecutionPublisher.OnFill` | app/backend/src/main/java/engine/MatchingEngineHandler.java:130-137 | a fill is published as FILLED exactly when nothing remains of the aggressor |
| `Session.RunObeysProtocol` | app/backend/src/main/java/engine/MatchingEngine.java:247-414 | over every run: reports of an order are aggressor fills with falling remainder, then acceptance (GTC) or expiry (IOC, untouched FOK) if anything is left; only accepted orders are passive, cross as pegs or are cancelled; and the accounts the reports describe are exactly the book |
| `Session.ProcessFollowed` | app/backend/src/main/java/engine/MatchingEngineHandler.java:89-149 | one event keeps the book well formed and its reports obey the protocol |
| `Session.OpeningRun` | app/backend/src/main/java/engine/MatchingEngineHandler.java:89-149 | from the opening, open ids are exactly those the reports leave resting |
| `Session.OpenIsResting` | app/backend/src/main/java/engine/MatchingEngine.java:22-26 | an id is open in the book exactly when its account rests |
| `Ledger.StreamAccounts` | app/backend/src/main/java/engine/MatchingEngineHandler.java:127-149 | over any accepted stream remaining quantity falls by exactly what the fills say, terms never change, and a closed order never trades again |
| `Ledger.Conservation` | app/backend/src/main/java/engine/MatchingEngineHandler.java:127-149 | original quantity is what the reports traded plus what is left, and FILLED means nothing is left |
| `Runs.RunLogged` | app/backend/src/main/java/engine/MatchingEngine.java:81-103 | trades and fill reports correspond one to one in order with ids 1, 2, 3 and so on, each trade between a BUY and a different SELL order |
| `RunConservation.RunConserves` | app/backend/src/main/java/engine/MatchingEngine.java:81-103 | over any run, what an order was admitted with is what the trade log says it bought or sold plus what rests, expired or was cancelled; all buyers together bought what all sellers together sold, the traded volume |
| `RunConservation.StreamIsPublished` | app/backend/src/main/java/engine/MatchingEngineHandler.java:127-171 | what a run's stream says an order traded is what the published reports say |
| `Following.StepSynced` | app/frontend/src/state/reducer.ts:286-484 | every step of the system (send, serve, deliver, other) keeps rows, reports under way and engine together; rows that agree with the reports delivered go on agreeing if and only if the step does not bring a row the rejection of a cancel that came before its order |
| `Following.StrayCancel` | app/frontend/src/state/reducer.ts:286-313 | over a whole run the rows agree throughout if and only if no cancel of an id the engine had not heard of is answered while the client, having sent that order before or after, holds its row |
| `Following.ClientFollowsEngine` | app/frontend/src/state/reducer.ts:286-449 | once all is delivered, in any legal run, a row shows the engine truth (cancellable exactly when its order rests, OPEN exactly while untraded, its exact remaining quantity with hidden reserve; PENDING, REJECTED, FILLED, CANCELLED and EXPIRED as they say) if and only if no such cancel misled the client about it or its order was refused after all |
| `Following.GuardedClientFollows` | app/frontend/src/components/OpenOrders.tsx:144-152 | if every cancel of an id goes back to a moment at which its row was offered for cancelling, no cancel misleads, and the row shows the engine truth |
| `Following.ClampNeverBites` | app/frontend/src/state/reducer.ts:328-333 | a delivered fill never exceeds what the passive row shows, and meets a closed row if and only if a cancel misled the client about it |
| `Following.ShownSideIsTrue` | app/frontend/src/state/reducer.ts:268-283 | the side shown for a fill, read off whichever own row takes part, is the true side of the aggressor, and one is shown exactly on own trades |
| `Following.CancelOvertakes` | app/frontend/src/state/reducer.ts:286-313 | a run of six steps in which a sent order is cancelled before it is served ends with all delivered, its row rejected and the order resting |
| `Following.CancelForeruns` | app/frontend/src/state/reducer.ts:286-313 | the same when the cancel is served before the order is even sent |
| `Following.RowStep` | app/frontend/src/state/reducer.ts:286-333 | a row after one report is the row of the account after it, unless the report is the rejection of an id never admitted nor refused, which strikes it |
| `Client.SessionPrices` | app/frontend/src/state/reducer.ts:335-449 | open, high and low are those of all fills ever seen, for any action sequence with positive fill prices |
| `Client.SessionTotals` | app/frontend/src/state/reducer.ts:335-449 | volume and trade count are sums over all fills ever seen |
| `Client.TapeIsNewest` | app/frontend/src/state/reducer.ts:335-449 | the tape is exactly the newest 200 fills, newest first, with an aggressor side exactly on own trades |
| `Client.InspectorIsNewest` | app/frontend/src/state/reducer.ts:486-535 | the inspector log is exactly the newest 500 FIX and EXEC frames |
| `ClientHistory.BookIsLast` | app/frontend/src/state/reducer.ts:502-516 | over any actions the book shown is that of the last BOOK frame, whole, and before the first it is empty |
| `ClientHistory.ConnectionIsLast` | app/frontend/src/state/reducer.ts:488-499 | the connection shown is the last one reported |
| `ClientHistory.StampIsLast` | app/frontend/src/state/reducer.ts:500-531 | the liveness mark is the moment of the last frame of any kind |
| `ClientHistory.SequenceCounts` | app/frontend/src/state/reducer.ts:451-484 | the sequence number counts every frame sent, orders and cancels alike |
| `ClientHistory.RowsAreFirstSent` | app/frontend/src/state/reducer.ts:451-484 | there is one row for every order ever sent, with the side, price, quantity, type, time in force, display quantity and moment it was first sent with |
| `ClientHistory.RowsAreNewestFirst` | app/frontend/src/state/reducer.ts:451-484 | rows stand newest first |
| `Bytes.ParseLongIn` | app/backend/src/main/java/gateway/FixConstants.java:60-69 | the exact value of a non-empty digit string up to 2^63-1, and -1 for everything else |
| `Bytes.LongRoundTrip` | app/backend/src/main/java/gateway/FixParser.java:29-45 | printing then parsing a non-negative long is the identity |
| `Bytes.ParsePriceIn` | app/backend/src/main/java/gateway/FixParser.java:65-111 | the parser loop is the price specification, the wrapping multiplication included |
| `Bytes.ParsePriceExact` | app/backend/src/main/java/gateway/FixParser.java:106-110 | a price text is parsed exactly if and only if its value is positive and at most 2^63-1; then it is on the tick |
| `Bytes.ParsePriceWraps` | app/backend/src/main/java/gateway/FixParser.java:106-110 | a concrete whole number of dollars beyond that is taken for $0.8384 |
| `Bytes.PriceRoundTrip` | app/backend/src/main/java/net/JsonToFix.java:125-133 | for every long, formatting then parsing gives the price back exactly when it is positive and on the tick, and is rejected otherwise |
| `PriceText.ClientPriceRoundTrip` | app/frontend/src/format.ts:141-165 | the client parser inverts the client formatter on positive safe on-tick prices and rejects everything else shown |
| `WireText.ClientPriceTexts` | app/frontend/src/format.ts:141-165 | the client shows 1502500 units as 150.25 and reads that text back |
| `WireText.DecimalPrice` | app/backend/src/main/java/gateway/FixParser.java:65-111 | digits, a point and one or two digits are the units they spell, as long as these are positive and fit a long; no digits or more than two are rejected |
| `WireText.PriceIsDecimal` | app/backend/src/main/java/gateway/FixParser.java:65-111 | nothing but digits, or digits, a point and one or two digits, is a price |
| `WireText.ParsersAgree` | app/frontend/src/format.ts:141-165 | what the client takes is positive and safe, and the FIX parser reads the trimmed text as the same price |
| `WireText.ClientDecimal` | app/frontend/src/format.ts:141-165 | and it takes every such decimal that is positive and safe |
| `PriceText.ClientPriceSurvivesFix` | app/frontend/src/format.ts:141-165 | whatever the ticket accepts survives the FIX price field unchanged |
| `Framing.FrameAndEmit` | app/backend/src/main/java/gateway/FixFrameDecoder.java:80-107 | the decoder loop emits exactly the frames of the bytes and consumes exactly what the specification drops |
| `Framing.FrameLengthAt` | app/backend/src/main/java/gateway/FixFrameDecoder.java:118-170 | the length check on the buffer is the length specification |
| `Framing.IndexOfBeginString` | app/backend/src/main/java/gateway/FixFrameDecoder.java:173-180 | the first BeginString from a position, or -1 |
| `Framing.FrameLengthMonotone` | app/backend/src/main/java/gateway/FixFrameDecoder.java:118-170 | a positive length or MALFORMED never changes as more bytes arrive |
| `FrameForm.FrameIsMessage` | app/backend/src/main/java/gateway/FixFrameDecoder.java:110-170 | whatever is taken for a message is, to the byte, "8=", a text, "9=", a length in digits from 1 to 4096, that many bytes, "10=", three bytes and the final separator |
| `FrameForm.DecoderEmitsMessages` | app/backend/src/main/java/gateway/FixFrameDecoder.java:42-107 | so is everything the decoder emits, however the stream is cut |
| `FrameForm.HeaderDecides` | app/backend/src/main/java/gateway/FixFrameDecoder.java:118-170 | what begins with the fields 8 and 9 is malformed exactly if the length is none or out of bounds or the trailer does not stand where it says, has to wait exactly while it is not all there, and otherwise is a frame of just that length |
| `FrameForm.LengthMustFollow` | app/backend/src/main/java/gateway/FixFrameDecoder.java:136-142 | a first field not followed by "9=" is malformed |
| `Framing.FramesSplit` | app/backend/src/main/java/gateway/FixFrameDecoder.java:80-107 | framing a prefix, then what was kept of it with the rest, is framing the whole |
| `Framing.StopDropsGarbage` | app/backend/src/main/java/gateway/FixFrameDecoder.java:85-99 | the bytes dropped at a stop start no frame whatever follows, a split BeginString included |
| `Framing.GarbageSkipped` | app/backend/src/main/java/gateway/FixFrameDecoder.java:85-91 | bytes in which no message can begin cost nothing that follows them |
| `Framing.BrokenSkipped` | app/backend/src/main/java/gateway/FixFrameDecoder.java:98-102 | a broken message costs no more than its own BeginString |
| `Framing.ChunkingIndependence` | app/backend/src/main/java/gateway/FixFrameDecoder.java:42-107 | however a stream is cut into chunks, the decoder emits the frames of the whole stream |
| `FixParsing.FixParser.Parse` | app/backend/src/main/java/gateway/FixParser.java:207-229 | fills the slot with exactly the event the message stands for, or leaves it untouched; the outcome depends on the message alone, not on what arrays or slot held |
| `FixParsing.FixParser.ScanFields` | app/backend/src/main/java/gateway/FixParser.java:120-169 | the arrays end up holding exactly the fields of the message, or -1 |
| `FixParsing.FixParser.FindTag` | app/backend/src/main/java/gateway/FixParser.java:349-354 | the first field with the tag, or -1 exactly when there is none |
| `FixParsing.FixParser.ParseNewOrder` | app/backend/src/main/java/gateway/FixParser.java:232-320 | a new order is taken exactly under the field rules, every check before the first write |
| `FixParsing.FixParser.ParseCancel` | app/backend/src/main/java/gateway/FixParser.java:323-344 | a cancel is taken exactly when both ids are numbers; unused fields are cleared |
| `FieldRules.OrderRules` | app/backend/src/main/java/gateway/FixParser.java:232-320 | for fields in any order, on literal tags and bytes: a new order is accepted as an event if and only if the first field of each tag says that event; no tag 59 means GTC, no tag 40 a limit order, tag 111 must lie between 1 and the quantity, a limit order needs tag 44, and a peg must not have it and must say 18=M |
| `FieldRules.CancelRules` | app/backend/src/main/java/gateway/FixParser.java:323-344 | the same for a cancel: tags 11 and 41 are numbers, and what a cancel does not use is absent |
| `FieldRules.EventRules` | app/backend/src/main/java/gateway/FixParser.java:207-229 | tag 35 is D or F, anything else is rejected |
| `FieldRules.ChecksumIsTotal` | app/backend/src/main/java/gateway/FixParser.java:181-193 | a message passes the checksum test if and only if the three digits after "10=" are the total of all bytes before, modulo 256 |
| `FixParsing.ValidateChecksum` | app/backend/src/main/java/gateway/FixParser.java:181-193 | true exactly when the three digits of tag 10 are the byte sum before the trailer modulo 256 (FIX 4.2 Appendix B) |
| `FixParsing.NextField` | app/backend/src/main/java/gateway/FixParser.java:124-165 | one well-formed field, or none: "=" before SOH, a terminated value, a numeric tag |
| `FixPrinting.Assemble` | app/backend/src/main/java/net/JsonToFix.java:136-157 | the bytes are the message: header with honest BodyLength, body, checksum trailer |
| `FixPrinting.NewOrderSingle` | app/backend/src/main/java/net/JsonToFix.java:65-89 | the message of an order, its symbol in US-ASCII as it is |
| `FixPrinting.OrderCancelRequest` | app/backend/src/main/java/net/JsonToFix.java:92-97 | the message of a cancel |
| `WireText.MessageLines` | app/backend/src/main/java/net/JsonToFix.java:65-157 | every message to the byte, in literal lines: BeginString, BodyLength, the fields in their order with their codes, and the three digits of the total |
| `WireText.CancelToTheByte` | app/backend/src/main/java/net/JsonToFix.java:92-97 | one message in literal bytes, written by the encoder and read by the parser |
| `WireText.PriceTexts` | app/backend/src/main/java/net/JsonToFix.java:107-133 | 1502500 units are written 150.25 and read back, 500 are 0.05, and 1502550 are written 150.2550 and rejected |
| `CodecTheorems.MessageIsFrame` | app/backend/src/main/java/net/JsonToFix.java:136-157 | an encoded message is exactly one frame if and only if its body is neither empty nor over the decoder limit |
| `CodecTheorems.FieldSpelled` | app/backend/src/main/java/gateway/FixParser.java:149-160 | the tag of a field is read as written if and only if it fits 32 bits; its value is read as written |
| `CodecTheorems.WideTag` | app/backend/src/main/java/gateway/FixParser.java:160 | every tag congruent to 35 modulo 2^32, such as 4294967331, is taken for tag 35 |
| `CodecTheorems.ScanEncoded` | app/backend/src/main/java/gateway/FixParser.java:120-169 | scanning encoded fields gives the fields back |
| `CodecTheorems.ChecksumHolds` | app/backend/src/main/java/net/JsonToFix.java:146-150 | every encoded message passes the checksum test |
| `SymbolTheorems.TakenIsParsed` | app/backend/src/main/java/net/JsonToFix.java:65-89 | for all Java longs and any symbol text, separators included, an order message parses to the event decided by its own id, the symbol up to its first separator, the fields the rest of the symbol spells and then its own terms, or to nothing |
| `CodecTheorems.CancelRoundTrip` | app/backend/src/main/java/net/JsonToFix.java:92-97 | for all Java longs a cancel message parses to exactly its cancel, or is rejected exactly when an id is negative |
| `SymbolTheorems.RoundTrip` | app/backend/src/main/java/gateway/FixParser.java:207-344 | for every request of Java longs, whatever its symbol: the parser undoes the encoder and rejects exactly what it must if and only if the symbol does not rewrite the order (venue symbol, separator, well-formed fields with room for them, acceptable terms) |
| `SymbolTheorems.FirstWins` | app/backend/src/main/java/gateway/FixParser.java:349-354 | term by term the first field the symbol spells counts, and where it spells none the order's own |
| `SymbolTheorems.TakenKeepsId` | app/backend/src/main/java/gateway/FixParser.java:232-320 | whatever the symbol spells, an order is taken as a new order under its own id or not at all |
| `SymbolTheorems.BuyTakenForSell` | app/backend/src/main/java/net/JsonToFix.java:65-89 | a buy order whose symbol goes on with a side field should be rejected and is taken for a sell order |
| `SymbolTheorems.TakenForSell` | app/backend/src/main/java/net/JsonToFix.java:65-89 | so is every limit order with that symbol that is no iceberg |
| `Gateway.OrderGateway.OnFrame` | app/backend/src/main/java/gateway/OrderGateway.java:102-130 | an accepted frame is published as its event with the receipt stamp, independent of all stale state; a rejected or missing one publishes nothing |
| `Gateway.OrderGateway.OnFrames` | app/backend/src/main/java/gateway/OrderGateway.java:102-130 | over any sequence of frames the published events are the accepted parses in order |
| `Gateway.OrderGateway.CopyIntoSlot` | app/backend/src/main/java/gateway/OrderGateway.java:50-62 | the slot becomes the source event in every field |
| `Gateway.StampIsFree` | app/backend/src/main/java/gateway/FixParser.java:196-206 | the timestamp is the only field the parser does not decide |
| `WireTheorems.FramesDelivered` | app/backend/src/main/java/gateway/FixFrameDecoder.java:80-107 | frames concatenated and cut anywhere come out as they went in |
| `WireTheorems.RequestFits` | app/backend/src/main/java/gateway/FixConstants.java:50-53 | any order with a symbol of up to 400 characters stays within the frame limit |
| `WireTheorems.PublishedIsReceived` | app/backend/src/main/java/net/WebSocketFrameHandler.java:189-213 | requests of Java longs handed to the gateway message by message, of any length and with any symbols, publish exactly the events they come to |
| `WireTheorems.WireIsFaithful` | app/backend/src/main/java/gateway/OrderGateway.java:102-130 | any list of requests whose messages are within the frame limit, encoded, concatenated and cut anywhere, is decoded into exactly its messages and published as exactly the events they come to; these are the acceptable requests, unchanged and in order, if and only if no symbol rewrites its order |
| `EndToEnd.AdmittedAsAsked` | app/backend/src/main/java/engine/MatchingEngineHandler.java:107-118 | the engine is handed what was asked for if and only if the quantity fits 32 bits and the constructor rules hold |
| `EndToEnd.NarrowedOrder` | app/backend/src/main/java/engine/MatchingEngineHandler.java:112 | a concrete order beyond 32 bits reaches the engine with another quantity |
| `EndToEnd.BytesToBook` | app/backend/src/main/java/engine/MatchingEngineHandler.java:84-125 | from bytes cut anywhere to the book, for requests with any symbols: the run over what the gateway publishes keeps the book well formed, its reports obey the protocol, and open ids are those left resting |

## Left out

- Threads, rings and wait strategies: each ring is an in-order queue with one writer; reports are delivered in order and
  completely, as the client theorem needs.
- Netty, WebSocket and JSON plumbing, heartbeats, logging, the frame cache and the console book print.
- Clocks: receipt and snapshot stamps and the readings for reports are inputs; timestamps on trades are not modelled.
- Symbols are sequences of whole characters; half of a surrogate pair, which the source would also write as a question
  mark, is not expressible.
- Overflow of totals: trade totals, probe totals and depth sums are unbounded integers, so sums beyond 2^63 are not
  captured. The midpoint sum wraps as in the source, and quantities are narrowed to 32 bits where the handler does it.
- Participants: every order of the gateway carries the one participant id the handler uses.
- The trade id counter, shared and static in the source, is a counter of the one engine.
- Bytes are 0 to 255; the source reads them as signed and masks them where it sums.
- Deques and tree maps are sequences held in fields; an `Order` is an object updated in place and shared by its queue and
  the index.
- The decoder's buffer handling: only the static functions over a byte array; what is kept is the tail not consumed.
- The client's trimming knows ASCII white space only, and its text is bytes.
- The other client modules (depth ladder, charts, session statistics, clock labels, encoding of sent frames), React
  components and the market data service beyond its midpoint identity: short folds or display code.
- Engine.MatchingEngine.AddOrder: is given an order object that does not rest yet, as the handler constructs one for each
  event.
- Engine.MatchingEngine.CancelOrder: requires a valid engine; what a cancel does once two orders are open under one id is
  not said. The same holds of every later call after `AddOrder` left the engine so.
- Gateway.OrderGateway.OnFrame: the ring is the list of published events; claiming and wrapping of slots is not modelled.
- Following.ClientFollowsEngine: assumes what its steps assume: an order's id is new to the engine when it is sent and
  when it is served, and it is served with the side and quantity sent, within 32 bits. Cancels are free.
