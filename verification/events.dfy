/** The inbound event that gateway and engine share. */
module Events {
  import opened Orders

  datatype EventType = NEW_ORDER | CANCEL_ORDER

  /** The inbound carrier: unused fields hold None, -1 or 0 as the parser leaves them. */
  datatype OrderEvent = OrderEvent(eventType: EventType, orderId: int, side: Option<Side>, ordType: Option<OrdType>,
                                   tif: Option<TimeInForce>, price: int, quantity: int, maxFloor: int,
                                   timestamp: int, originalOrderId: int)

  /** Java's narrowing conversion from long to int. */
  function ToInt32(x: int): (r: int)
    ensures -0x8000_0000 <= r < 0x8000_0000 && (r - x) % 0x1_0000_0000 == 0
    ensures -0x8000_0000 <= x < 0x8000_0000 ==> r == x
  {
    var m := x % 0x1_0000_0000;
    if m < 0x8000_0000 then m else m - 0x1_0000_0000
  }
}
