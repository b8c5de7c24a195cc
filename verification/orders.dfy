/** The order model: enumerations, price rules, the value an order holds at a moment, and the mutable order. */
module Orders {

  /** Absent-price sentinel. */
  const NA := -1
  /** One cent, in units of $0.0001. */
  const TICK := 100
  /** Units per dollar. */
  const SCALE := 10_000

  /** The largest Java long. */
  const MAX_LONG := 0x7fff_ffff_ffff_ffff

  datatype Option<+T> = None | Some(value: T)

  datatype Side = BUY | SELL {
    function Opposite(): Side { if BUY? then SELL else BUY }
  }

  datatype TimeInForce = GTC | IOC | FOK

  datatype OrdType = LIMIT | PEG_MID

  datatype Status = OPEN | PARTIALLY_FILLED | FILLED | CANCELLED | EXPIRED

  /** A positive multiple of the tick, in the range of the longs that carry prices. */
  predicate IsOnTick(price: int) {
    0 < price <= MAX_LONG && price % TICK == 0
  }

  /** Java's wrap-around of a long result. */
  function WrapLong(x: int): (r: int)
    ensures -MAX_LONG - 1 <= r <= MAX_LONG
    ensures -MAX_LONG - 1 <= x <= MAX_LONG ==> r == x
  {
    var m := x % 0x1_0000_0000_0000_0000;
    if m <= MAX_LONG then m else m - 0x1_0000_0000_0000_0000
  }

  /** Java's division truncates toward zero. */
  function TruncDiv(a: int, b: int): int
    requires b > 0
  {
    if a >= 0 then a / b else -((-a) / b)
  }

  function Min(a: int, b: int): int {
    if a <= b then a else b
  }

  /** What an order's fields hold at one moment. */
  datatype OrderValue = OrderValue(
    id: int,
    time: int,
    side: Side,
    qty: int,
    price: int,
    participant: int,
    tif: TimeInForce,
    peak: int,
    visible: int,
    ordType: OrdType,
    status: Status)
  {
    function Fill(m: int): OrderValue {
      this.(qty := qty - m,
            visible := visible - Min(m, visible),
            status := if qty == m then FILLED else PARTIALLY_FILLED)
    }

    function Refresh(): OrderValue {
      this.(visible := if peak > 0 then Min(peak, qty) else qty)
    }
  }

  /** Quantities a live order may show: a plain order or a peg shows everything, an iceberg at most its peak. */
  ghost predicate QuantitiesOk(o: OrderValue) {
    && 0 < o.visible <= o.qty
    && 0 <= o.peak
    && (o.peak == 0 ==> o.visible == o.qty)
    && (o.peak > 0 ==> o.visible <= o.peak && o.ordType == LIMIT)
  }

  /** Every rule the constructor enforces, on the fields of a live order. */
  ghost predicate OrderOk(o: OrderValue) {
    && o.id > 0 && o.time > 0 && o.participant > 0
    && QuantitiesOk(o)
    && (o.ordType == LIMIT ==> IsOnTick(o.price))
    && (o.ordType == PEG_MID ==> o.price == NA)
    && (o.peak > 0 ==> o.tif == GTC)
  }

  /** The rules of the constructor: the order it builds, or None where it throws. */
  function Admit(id: int, time: int, side: Option<Side>, qty: int, price: int, participant: int,
                 tif: TimeInForce, peak: int, ordType: OrdType): (r: Option<OrderValue>)
    ensures r.Some? ==> OrderOk(r.value) && r.value.status == OPEN && r.value.qty == qty
    ensures r.Some? ==> r.value.id == id && r.value.time == time && r.value.participant == participant
    ensures r.Some? ==> r.value.price == price && r.value.tif == tif && r.value.ordType == ordType
    ensures r.Some? ==> Some(r.value.side) == side && r.value.visible == if 0 < peak then peak else qty
    ensures r.Some? ==> r.value.peak == if peak < qty then peak else 0
    ensures r.None? <==>
            || id <= 0 || time <= 0 || participant <= 0 || qty <= 0 || side.None?
            || (ordType == LIMIT && !IsOnTick(price))
            || (ordType == PEG_MID && (price != NA || peak != 0))
            || !(0 <= peak <= qty)
            || (0 < peak < qty && tif != GTC)
  {
    if id <= 0 || time <= 0 || participant <= 0 || qty <= 0 || side.None? then None
    else if ordType == LIMIT && !IsOnTick(price) then None
    else if ordType == PEG_MID && (price != NA || peak != 0) then None
    else if peak < 0 || peak > qty then None
    else
      var shown := if peak == qty then 0 else peak;
      if shown > 0 && tif != GTC then None
      else Some(OrderValue(id, time, side.value, qty, price, participant, tif, shown, 0, ordType, OPEN).Refresh())
  }

  /** An order as the engine holds it: identity and terms are fixed, quantities and status change in place. */
  class Order {
    const orderID: int
    const timeStamp: int
    const side: Side
    const price: int
    const participantID: int
    const tif: TimeInForce
    const peak: int
    const ordType: OrdType
    var quantity: int
    var visibleQty: int
    var status: Status

    ghost function Value(): OrderValue
      reads this
    {
      OrderValue(orderID, timeStamp, side, quantity, price, participantID, tif, peak, visibleQty, ordType, status)
    }

    /** Stores already validated fields; Create is the source's constructor with its checks. */
    constructor (v: OrderValue)
      ensures Value() == v
    {
      orderID, timeStamp, side, price := v.id, v.time, v.side, v.price;
      participantID, tif, peak, ordType := v.participant, v.tif, v.peak, v.ordType;
      quantity, visibleQty, status := v.qty, v.visible, v.status;
    }

    /** The canonical constructor: the checks in their order, each throw a None. */
    static method Create(id: int, time: int, side: Option<Side>, qty: int, price: int, participant: int,
                         tif: TimeInForce, displayed: int, ordType: OrdType, ghost others: seq<seq<Order>>)
      returns (r: Option<Order>)
      ensures r.Some? <==> Admit(id, time, side, qty, price, participant, tif, displayed, ordType).Some?
      ensures r.Some? ==> fresh(r.value)
      ensures forall i, j :: 0 <= i < |others| && 0 <= j < |others[i]| ==>
                others[i][j].Value() == old(others[i][j].Value())
      ensures r.Some? ==>
                r.value.Value() == Admit(id, time, side, qty, price, participant, tif, displayed, ordType).value
    {
      if id <= 0 { return None; }
      if time <= 0 { return None; }
      if participant <= 0 { return None; }
      if qty <= 0 { return None; }
      if side.None? { return None; }
      if ordType == LIMIT {
        if price <= 0 { return None; }
        if !IsOnTick(price) { return None; }
      } else {
        if price != NA { return None; }
        if displayed != 0 { return None; }
      }
      var peak := displayed;
      if peak < 0 { return None; }
      if peak > qty { return None; }
      if peak == qty { peak := 0; }
      if peak > 0 && tif != GTC { return None; }
      var order := new Order(OrderValue(id, time, side.value, qty, price, participant, tif, peak, qty, ordType, OPEN));
      order.RefreshDisplay();
      r := Some(order);
    }

    /** Refused, as the source throws, outside 0 < fillQty <= quantity; every caller stays inside. */
    method Fill(fillQty: int) returns (ok: bool)
      modifies this
      ensures ok == (0 < fillQty <= old(quantity))
      ensures Value() == if ok then old(Value()).Fill(fillQty) else old(Value())
      ensures ok ==> quantity == old(quantity) - fillQty
      ensures ok ==> visibleQty == if fillQty < old(visibleQty) then old(visibleQty) - fillQty else 0
      ensures ok ==> status == if quantity == 0 then FILLED else PARTIALLY_FILLED
    {
      if fillQty <= 0 {
        return false;
      }
      if fillQty > quantity {
        return false;
      }
      var visibleReduction := Min(fillQty, visibleQty);
      quantity := quantity - fillQty;
      visibleQty := visibleQty - visibleReduction;
      status := if quantity == 0 then FILLED else PARTIALLY_FILLED;
      ok := true;
    }

    method RefreshDisplay()
      modifies this
      ensures Value() == old(Value()).Refresh()
      ensures visibleQty == if 0 < peak < quantity then peak else quantity
    {
      visibleQty := if peak > 0 then Min(peak, quantity) else quantity;
    }

    method Cancel()
      modifies this
      ensures Value() == old(Value()).(status := CANCELLED)
    {
      status := CANCELLED;
    }

    method Expire()
      modifies this
      ensures Value() == old(Value()).(status := EXPIRED)
    {
      status := EXPIRED;
    }
  }
}
