/** The values the exchange passes between its components. */
module TradingTypes {
  // A 64-bit order id; how it is packed is the concern of module OrderIds.
  type OrderId = nat
  type SessionId = nat
  type Price = real

  datatype SideType = BUY | SELL

  datatype PriceType = LIMIT | MARKET

  datatype OrderStatus = Accepted | Rejected | PartiallyFilled | Filled | Unfilled | Done

  /** The value of an order at one moment. */
  datatype Order = Order(
    orderId: OrderId,
    sessionId: SessionId,
    side: SideType,
    priceType: PriceType,
    price: Price,
    qty: nat,
    qtyRemaining: nat,
    status: OrderStatus)

  /** What an event says about its order (the printable symbol is left out). */
  datatype OrderSnapshot = OrderSnapshot(orderId: OrderId, qty: nat, qtyRemaining: nat, status: OrderStatus)

  datatype FillEvent = FillEvent(price: Price, qty: nat, snapshot: OrderSnapshot, statusChanged: bool)

  function Snapshot(o: Order): OrderSnapshot {
    OrderSnapshot(o.orderId, o.qty, o.qtyRemaining, o.status)
  }

  function Min(a: nat, b: nat): nat {
    if a <= b then a else b
  }

  function Opposite(s: SideType): SideType {
    if s.BUY? then SELL else BUY
  }
}
