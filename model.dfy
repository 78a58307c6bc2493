/**
 * The entities of the trading system: orders (mutable objects shared between an
 * order book's queues, its index and the caller), trades (immutable records),
 * instruments (holding the cached market price) and the error taxonomy.
 *
 * Prices are integers counting ticks of one fixed decimal scale; quantities are
 * Java `int`s and may be zero or negative, since the Order constructor does not
 * validate them.  Order ids, trade ids and timestamps, produced in Java by
 * `UUID.randomUUID()` and `LocalDateTime.now()`, are supplied by the caller.
 */
module Model {

  type OrderId = string
  type TraderId = string
  type InstrumentId = string

  datatype OrderType = BUY | SELL

  datatype OrderStatus = OPEN | PARTIALLY_FILLED | FILLED | CANCELLED

  /** The mutable part of an order at one instant: remaining quantity and status. */
  datatype Fill = Fill(quantity: int, status: OrderStatus)

  /** The status an order has after an execution leaves it with `quantity` units. */
  function ExecutedStatus(quantity: int): OrderStatus {
    if quantity == 0 then FILLED else PARTIALLY_FILLED
  }

  /** A limit order.  Everything but the remaining quantity and the status is final. */
  class Order {
    const orderId: OrderId
    const instrumentId: InstrumentId
    const traderId: TraderId
    const orderType: OrderType
    const price: int
    const timestamp: nat
    var quantity: int
    var status: OrderStatus

    /** A new order is OPEN with the given quantity; quantity and price are not validated. */
    constructor (orderId: OrderId, timestamp: nat, instrumentId: InstrumentId, traderId: TraderId,
                 orderType: OrderType, price: int, quantity: int)
      ensures this.orderId == orderId && this.timestamp == timestamp
      ensures this.instrumentId == instrumentId && this.traderId == traderId
      ensures this.orderType == orderType && this.price == price
      ensures this.quantity == quantity && this.status == OPEN
    {
      this.orderId := orderId;
      this.timestamp := timestamp;
      this.instrumentId := instrumentId;
      this.traderId := traderId;
      this.orderType := orderType;
      this.price := price;
      this.quantity := quantity;
      this.status := OPEN;
    }

    /** Remaining quantity and status, as one value. */
    function State(): Fill
      reads this
    {
      Fill(quantity, status)
    }

    method SetQuantity(quantity: int)
      modifies this
      ensures this.quantity == quantity && status == old(status)
    {
      this.quantity := quantity;
    }

    method SetStatus(status: OrderStatus)
      modifies this
      ensures this.status == status && quantity == old(quantity)
    {
      this.status := status;
    }

    /** Executes `n` units: the quantity drops by `n`; the order is FILLED at 0, else PARTIALLY_FILLED. */
    method Execute(n: int)
      modifies this
      ensures quantity == old(quantity) - n
      ensures status == ExecutedStatus(quantity)
      ensures status == FILLED <==> quantity == 0
    {
      quantity := quantity - n;
      status := ExecutedStatus(quantity);
    }

    predicate IsFilled()
      reads this
    {
      quantity == 0
    }
  }

  /** An executed trade.  `tradeId` and `timestamp` come from the caller's id source and clock. */
  datatype Trade = Trade(tradeId: nat, buyOrderId: OrderId, sellOrderId: OrderId,
                         instrumentId: InstrumentId, price: int, quantity: int, timestamp: nat)

  /** A registered instrument; only its cached market price changes. */
  class Instrument {
    const id: InstrumentId
    const symbol: string
    var marketPrice: int

    constructor (id: InstrumentId, symbol: string)
      ensures this.id == id && this.symbol == symbol && marketPrice == 0
    {
      this.id := id;
      this.symbol := symbol;
      marketPrice := 0;
    }

    method SetMarketPrice(marketPrice: int)
      modifies this
      ensures this.marketPrice == marketPrice
    {
      this.marketPrice := marketPrice;
    }
  }

  datatype ErrorCode =
    | INVALID_ORDER
    | INSTRUMENT_NOT_FOUND
    | ORDER_NOT_FOUND
    | INSUFFICIENT_RESOURCES
    | SYSTEM_ERROR
    | ORDER_QUEUE_FULL

  /** A `TradingException`: an error code and its message. */
  datatype TradingError = TradingError(code: ErrorCode, message: string)

  function OrderNotFound(orderId: OrderId): TradingError {
    TradingError(ORDER_NOT_FOUND, "Order not found: " + orderId)
  }

  function InstrumentNotFound(instrumentId: InstrumentId): TradingError {
    TradingError(INSTRUMENT_NOT_FOUND, "Instrument not found: " + instrumentId)
  }
}
