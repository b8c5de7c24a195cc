/** The greedy matcher: each lit side is one list in priority order, best first; each peg pool is a FIFO list.
    It is the specification the level-by-level engine is proved against. */
module Matching {
  import opened Orders

  datatype Trade = Trade(id: int, buyId: int, sellId: int, buyParticipant: int, sellParticipant: int,
                         price: int, qty: int)

  datatype ExecType =
    | ORDER_ACCEPTED
    | ORDER_FILLED
    | ORDER_PARTIALLY_FILLED
    | ORDER_CANCELLED
    | ORDER_REJECTED
    | ORDER_EXPIRED

  /** One outbound report; a field that does not apply holds NA. */
  datatype Exec = Exec(execType: ExecType, orderId: int, tradeId: int, price: int, filled: int, remaining: int,
                       aggressor: int, passive: int)

  predicate IsFill(e: Exec) {
    e.execType == ORDER_FILLED || e.execType == ORDER_PARTIALLY_FILLED
  }

  function FillExec(aggressor: int, passive: int, tradeId: int, price: int, filled: int, remaining: int): Exec {
    Exec(if remaining == 0 then ORDER_FILLED else ORDER_PARTIALLY_FILLED,
         aggressor, tradeId, price, filled, remaining, aggressor, passive)
  }

  function AcceptedExec(id: int, price: int, remaining: int): Exec {
    Exec(ORDER_ACCEPTED, id, NA, price, NA, remaining, NA, NA)
  }

  function ExpiredExec(id: int, expired: int): Exec {
    Exec(ORDER_EXPIRED, id, NA, NA, NA, expired, NA, NA)
  }

  function PlainExec(execType: ExecType, id: int): Exec {
    Exec(execType, id, NA, NA, NA, NA, NA, NA)
  }

  // ---------- The book ----------

  datatype Book = Book(bids: seq<OrderValue>, asks: seq<OrderValue>,
                       pegBids: seq<OrderValue>, pegAsks: seq<OrderValue>)
  {
    function Lit(side: Side): seq<OrderValue> { if side.BUY? then bids else asks }

    function Peg(side: Side): seq<OrderValue> { if side.BUY? then pegBids else pegAsks }

    function WithLit(side: Side, l: seq<OrderValue>): Book {
      if side.BUY? then this.(bids := l) else this.(asks := l)
    }

    function WithPeg(side: Side, l: seq<OrderValue>): Book {
      if side.BUY? then this.(pegBids := l) else this.(pegAsks := l)
    }

    function Best(side: Side): int {
      if Lit(side) == [] then NA else Lit(side)[0].price
    }

    function Mid(): int {
      if Best(BUY) == NA || Best(SELL) == NA then NA else TruncDiv(WrapLong(Best(BUY) + Best(SELL)), 2)
    }
  }

  const EMPTY_BOOK := Book([], [], [], [])

  /** Is p at least as good a price as q for an order resting on this side? */
  predicate AtLeast(side: Side, p: int, q: int) {
    if side.BUY? then p >= q else p <= q
  }

  predicate Marketable(aggressorSide: Side, limit: int, contraPrice: int) {
    if aggressorSide.BUY? then contraPrice <= limit else contraPrice >= limit
  }

  predicate CrossesMid(side: Side, limit: int, mid: int) {
    if side.BUY? then limit >= mid else limit <= mid
  }

  /** How many leading orders are at least as good as o: where o queues. */
  function Place(l: seq<OrderValue>, o: OrderValue): (k: nat)
    ensures k <= |l|
    ensures forall i :: 0 <= i < k ==> AtLeast(o.side, l[i].price, o.price)
    ensures k < |l| ==> !AtLeast(o.side, l[k].price, o.price)
  {
    if l == [] || !AtLeast(o.side, l[0].price, o.price) then 0 else 1 + Place(l[1..], o)
  }

  /** Queue o behind every order at its own price or a better one. */
  function Insert(l: seq<OrderValue>, o: OrderValue): seq<OrderValue> {
    l[..Place(l, o)] + [o] + l[Place(l, o)..]
  }

  function Remove(l: seq<OrderValue>, id: int): seq<OrderValue> {
    if l == [] then [] else if l[0].id == id then l[1..] else [l[0]] + Remove(l[1..], id)
  }

  // ---------- The venue ----------

  /** The book, the last trade id drawn, the trade log and the outbound reports so far. */
  datatype Venue = Venue(book: Book, lastTradeId: int, trades: seq<Trade>, execs: seq<Exec>) {
    function Say(e: Exec): Venue { this.(execs := execs + [e]) }
  }

  const OPENING := Venue(EMPTY_BOOK, 0, [], [])

  /** A venue together with the incoming order it is working on. */
  datatype Match = Match(v: Venue, a: OrderValue)

  /** Record one trade of m at price between the two orders, as they stood before it. */
  function Print(v: Venue, aggressor: OrderValue, passive: OrderValue, price: int, m: int): Venue {
    var id := v.lastTradeId + 1;
    var buy := if aggressor.side.BUY? then aggressor else passive;
    var sell := if aggressor.side.BUY? then passive else aggressor;
    v.(lastTradeId := id,
       trades := v.trades + [Trade(id, buy.id, sell.id, buy.participant, sell.participant, price, m)],
       execs := v.execs + [FillExec(aggressor.id, passive.id, id, price, m, aggressor.qty - m)])
  }

  /** A lit side after its first order traded m: gone, reloaded at the back of its price, or still first. */
  function AfterFill(l: seq<OrderValue>, m: int): seq<OrderValue>
    requires l != []
  {
    var h := l[0].Fill(m);
    if h.qty == 0 then l[1..]
    else if h.visible == 0 then Insert(l[1..], h.Refresh())
    else [h] + l[1..]
  }

  function AfterPoolFill(l: seq<OrderValue>, m: int): seq<OrderValue>
    requires l != []
  {
    var h := l[0].Fill(m);
    if h.qty == 0 then l[1..] else [h] + l[1..]
  }

  /** The first contra order can trade now. (A resting order always shows something: OrderOk.) */
  predicate LitReady(x: Match) {
    var contra := x.v.book.Lit(x.a.side.Opposite());
    && x.a.qty > 0
    && contra != []
    && Marketable(x.a.side, x.a.price, contra[0].price)
    && contra[0].visible > 0
  }

  function LitStep(x: Match): Match
    requires LitReady(x)
  {
    var contra := x.v.book.Lit(x.a.side.Opposite());
    var m := Min(x.a.qty, contra[0].visible);
    var v := Print(x.v, x.a, contra[0], contra[0].price, m);
    Match(v.(book := v.book.WithLit(x.a.side.Opposite(), AfterFill(contra, m))), x.a.Fill(m))
  }

  function Sweep(x: Match): Match
    decreases x.a.qty
  {
    if LitReady(x) then Sweep(LitStep(x)) else x
  }

  predicate PoolReady(x: Match) {
    x.a.qty > 0 && x.v.book.Peg(x.a.side.Opposite()) != []
  }

  function PoolStep(x: Match, mid: int): Match
    requires PoolReady(x)
  {
    var pool := x.v.book.Peg(x.a.side.Opposite());
    var m := Min(x.a.qty, pool[0].qty);
    var v := Print(x.v, x.a, pool[0], mid, m);
    Match(v.(book := v.book.WithPeg(x.a.side.Opposite(), AfterPoolFill(pool, m))), x.a.Fill(m))
  }

  function PoolSweep(x: Match, mid: int): Match
    decreases |x.v.book.Peg(x.a.side.Opposite())|, x.a.qty
  {
    if PoolReady(x) then PoolSweep(PoolStep(x, mid), mid) else x
  }

  predicate IsLater(a: OrderValue, b: OrderValue) {
    if a.time != b.time then a.time > b.time else a.id > b.id
  }

  /** One head-to-head trade between the pools: the later arrival is the aggressor. */
  function CrossStep(v: Venue, mid: int): Venue
    requires v.book.pegBids != [] && v.book.pegAsks != []
  {
    var bid, ask := v.book.pegBids[0], v.book.pegAsks[0];
    var m := Min(bid.qty, ask.qty);
    var p := if IsLater(bid, ask) then Print(v, bid, ask, mid, m) else Print(v, ask, bid, mid, m);
    p.(book := p.book.(pegBids := AfterPoolFill(v.book.pegBids, m), pegAsks := AfterPoolFill(v.book.pegAsks, m)))
  }

  function CrossLoop(v: Venue, mid: int): Venue
    decreases |v.book.pegBids| + |v.book.pegAsks|
  {
    if v.book.pegBids != [] && v.book.pegAsks != [] then CrossLoop(CrossStep(v, mid), mid) else v
  }

  function CrossPools(v: Venue): Venue {
    if v.book.Mid() == NA then v else CrossLoop(v, v.book.Mid())
  }

  // ---------- Order entry ----------

  function SumQty(l: seq<OrderValue>): int {
    if l == [] then 0 else l[0].qty + SumQty(l[1..])
  }

  /** The marketable part of a contra side, as the probe walks it: up to the first price out of reach. */
  function Reach(side: Side, limit: int, contra: seq<OrderValue>): seq<OrderValue> {
    if contra == [] || !Marketable(side, limit, contra[0].price) then []
    else [contra[0]] + Reach(side, limit, contra[1..])
  }

  predicate TakesPool(a: OrderValue, b: Book) {
    b.Mid() != NA && (a.ordType == PEG_MID || CrossesMid(a.side, a.price, b.Mid()))
  }

  /** Everything an incoming order could trade with right now, hidden reserve included. */
  function Liquidity(a: OrderValue, b: Book): int {
    (if TakesPool(a, b) then SumQty(b.Peg(a.side.Opposite())) else 0) +
    (if a.ordType == PEG_MID then 0 else SumQty(Reach(a.side, a.price, b.Lit(a.side.Opposite()))))
  }

  /** The peg step followed, for a lit order, by the lit sweep. */
  function Trading(x: Match): Match {
    var y := if TakesPool(x.a, x.v.book) then PoolSweep(x, x.v.book.Mid()) else x;
    if x.a.ordType == PEG_MID then y else Sweep(y)
  }

  function Rest(x: Match): Match {
    var v, a := x.v, x.a;
    if a.ordType == PEG_MID then
      Match(v.(book := v.book.WithPeg(a.side, v.book.Peg(a.side) + [a])).Say(AcceptedExec(a.id, a.price, a.qty)), a)
    else
      var r := a.Refresh();
      var b := v.book.WithLit(a.side, Insert(v.book.Lit(a.side), r));
      Match(v.(book := b).Say(AcceptedExec(r.id, r.price, r.qty)), r)
  }

  /** What becomes of the remainder: rest it, expire it, or nothing when there is none. */
  function Dispose(x: Match): Match {
    if x.a.qty <= 0 then x
    else if x.a.tif == GTC then Rest(x)
    else Match(x.v.Say(ExpiredExec(x.a.id, x.a.qty)), x.a.(status := EXPIRED))
  }

  predicate Killed(v: Venue, o: OrderValue) {
    o.tif == FOK && Liquidity(o, v.book) < o.qty
  }

  function Add(v: Venue, o: OrderValue): Match {
    if Killed(v, o) then Match(v.Say(ExpiredExec(o.id, o.qty)), o)
    else
      var y := Dispose(Trading(Match(v, o)));
      if o.ordType == PEG_MID then y else y.(v := CrossPools(y.v))
  }

  ghost function Ids(l: seq<OrderValue>): set<int> {
    set o | o in l :: o.id
  }

  ghost function OpenIds(b: Book): set<int> {
    Ids(b.bids) + Ids(b.asks) + Ids(b.pegBids) + Ids(b.pegAsks)
  }

  function Cancel(b: Book, id: int): Book {
    Book(Remove(b.bids, id), Remove(b.asks, id), Remove(b.pegBids, id), Remove(b.pegAsks, id))
  }
}
