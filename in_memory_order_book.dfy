/**
 * InMemoryOrderBook: two priority queues and an index from order id to order.
 * Cancelling removes the order from its queue eagerly but keeps it indexed;
 * matching and the market price are delegated to DefaultTradeMatcher and
 * MidPriceCalculator (modules of their own, taking the book as argument).
 */
module InMemoryOrderBooks {
  import opened Wrappers
  import opened Model
  import opened PriceTime

  class InMemoryOrderBook {
    const instrumentId: InstrumentId
    var buyOrders: seq<Order>
    var sellOrders: seq<Order>
    var allOrders: map<OrderId, Order>

    /** Both queues are well formed, and every queued order is indexed under its own id. */
    ghost predicate Valid()
      reads this
    {
      && Queue(BUY, buyOrders)
      && Queue(SELL, sellOrders)
      && (forall o :: o in buyOrders ==> o.orderId in allOrders && allOrders[o.orderId] == o)
      && (forall o :: o in sellOrders ==> o.orderId in allOrders && allOrders[o.orderId] == o)
      && (forall id :: id in allOrders ==> allOrders[id].orderId == id)
    }

    /** Remaining quantity and status of every queued order. */
    ghost function Fills(): map<Order, Fill>
      reads this, buyOrders, sellOrders
    {
      States(buyOrders + sellOrders)
    }

    constructor (instrumentId: InstrumentId)
      ensures Valid()
      ensures this.instrumentId == instrumentId
      ensures buyOrders == [] && sellOrders == [] && allOrders == map[]
    {
      this.instrumentId := instrumentId;
      buyOrders := [];
      sellOrders := [];
      allOrders := map[];
    }

    /** Queues the order on its own side and indexes it; the other side is unchanged. */
    method AddOrder(order: Order)
      requires Valid()
      requires order.orderId !in allOrders
      modifies this
      ensures Valid()
      ensures order.orderType == BUY ==> buyOrders == Enqueue(BUY, old(buyOrders), order) && sellOrders == old(sellOrders)
      ensures order.orderType == SELL ==> sellOrders == Enqueue(SELL, old(sellOrders), order) && buyOrders == old(buyOrders)
      ensures allOrders == old(allOrders)[order.orderId := order]
    {
      if order.orderType == BUY {
        EnqueueKeepsQueue(BUY, buyOrders, order);
        EnqueueMembers(BUY, buyOrders, order);
        buyOrders := Enqueue(BUY, buyOrders, order);
      } else {
        EnqueueKeepsQueue(SELL, sellOrders, order);
        EnqueueMembers(SELL, sellOrders, order);
        sellOrders := Enqueue(SELL, sellOrders, order);
      }
      allOrders := allOrders[order.orderId := order];
    }

    /**
     * Unknown id: ORDER_NOT_FOUND and no change.  Already CANCELLED: no change.
     * Otherwise the order becomes CANCELLED and leaves its queue but stays indexed.
     */
    method CancelOrder(orderId: OrderId) returns (r: Status<TradingError>)
      requires Valid()
      modifies this, if orderId in allOrders then {allOrders[orderId]} else {}
      ensures Valid()
      ensures allOrders == old(allOrders)
      ensures orderId !in allOrders ==>
        r == Fail(OrderNotFound(orderId)) && buyOrders == old(buyOrders) && sellOrders == old(sellOrders)
      ensures orderId in allOrders ==> r == Done
      ensures orderId in allOrders && old(allOrders[orderId].status) == CANCELLED ==>
        buyOrders == old(buyOrders) && sellOrders == old(sellOrders) && allOrders[orderId].status == CANCELLED
      ensures orderId in allOrders && old(allOrders[orderId].status) != CANCELLED ==>
        var o := allOrders[orderId];
        && o.status == CANCELLED
        && buyOrders == Remove(old(buyOrders), o) && sellOrders == Remove(old(sellOrders), o)
        && o !in buyOrders && o !in sellOrders
      ensures orderId in allOrders ==> allOrders[orderId].quantity == old(allOrders[orderId].quantity)
    {
      if orderId !in allOrders {
        return Fail(OrderNotFound(orderId));
      }
      var order := allOrders[orderId];
      if order.status == CANCELLED {
        return Done;
      }
      order.SetStatus(CANCELLED);
      RemoveOrder(order);
      return Done;
    }

    /** Whether the best bid reaches the best ask. */
    predicate HasMatchingOrders()
      reads this
    {
      var buy, sell := BestBuyOrder(), BestSellOrder();
      buy.Some? && sell.Some? && buy.value.price >= sell.value.price
    }

    /** The book can match iff some queued buy order is priced at or above some queued sell order. */
    lemma HasMatchingOrdersIff()
      requires Valid()
      ensures HasMatchingOrders() <==> exists b, s :: b in buyOrders && s in sellOrders && b.price >= s.price
    {
      if buyOrders != [] && sellOrders != [] {
        HeadFirst(BUY, buyOrders);
        HeadFirst(SELL, sellOrders);
      }
    }

    /** The head of the buy queue; None when there is no buy order. */
    function BestBuyOrder(): (r: Option<Order>)
      reads this
      ensures r.None? <==> buyOrders == []
      ensures r.Some? ==> r.value in buyOrders
    {
      if buyOrders == [] then None else Some(buyOrders[0])
    }

    /** The head of the sell queue; None when there is no sell order. */
    function BestSellOrder(): (r: Option<Order>)
      reads this
      ensures r.None? <==> sellOrders == []
      ensures r.Some? ==> r.value in sellOrders
    {
      if sellOrders == [] then None else Some(sellOrders[0])
    }

    /**
     * The best buy order is the highest bid, the earliest among equally priced
     * ones; the best sell order is the lowest ask, the earliest among equally
     * priced ones.
     */
    lemma BestOrdersFirst()
      requires Valid()
      ensures BestBuyOrder().Some? ==> forall o :: o in buyOrders ==> BuyFirst(BestBuyOrder().value, o)
      ensures BestSellOrder().Some? ==> forall o :: o in sellOrders ==> SellFirst(BestSellOrder().value, o)
    {
      if buyOrders != [] {
        HeadFirst(BUY, buyOrders);
      }
      if sellOrders != [] {
        HeadFirst(SELL, sellOrders);
      }
    }

    /** A copy of the buy queue: the same orders, each once, all of them buy orders. */
    function GetBuyOrders(): (r: seq<Order>)
      requires Valid()
      reads this
      ensures multiset(r) == multiset(buyOrders)
      ensures forall o :: o in r ==> o.orderType == BUY
      ensures forall i, j :: 0 <= i < j < |r| ==> r[i] != r[j]
    {
      QueueSide(BUY, buyOrders);
      QueueOrdered(BUY, buyOrders);
      buyOrders
    }

    /** A copy of the sell queue: the same orders, each once, all of them sell orders. */
    function GetSellOrders(): (r: seq<Order>)
      requires Valid()
      reads this
      ensures multiset(r) == multiset(sellOrders)
      ensures forall o :: o in r ==> o.orderType == SELL
      ensures forall i, j :: 0 <= i < j < |r| ==> r[i] != r[j]
    {
      QueueSide(SELL, sellOrders);
      QueueOrdered(SELL, sellOrders);
      sellOrders
    }

    /** Takes the order out of its side's queue only; the index is unchanged. */
    method RemoveOrder(order: Order)
      requires Valid()
      modifies this
      ensures Valid()
      ensures allOrders == old(allOrders)
      ensures order.orderType == BUY ==> buyOrders == Remove(old(buyOrders), order) && sellOrders == old(sellOrders)
      ensures order.orderType == SELL ==> sellOrders == Remove(old(sellOrders), order) && buyOrders == old(buyOrders)
      ensures buyOrders == Remove(old(buyOrders), order) && sellOrders == Remove(old(sellOrders), order)
      ensures order !in buyOrders && order !in sellOrders
    {
      if order.orderType == BUY {
        RemoveKeepsQueue(BUY, buyOrders, order);
        RemoveMembers(BUY, buyOrders, order);
        QueueSide(SELL, sellOrders);
        RemoveMembers(SELL, sellOrders, order);
        buyOrders := Remove(buyOrders, order);
      } else {
        RemoveKeepsQueue(SELL, sellOrders, order);
        RemoveMembers(SELL, sellOrders, order);
        QueueSide(BUY, buyOrders);
        RemoveMembers(BUY, buyOrders, order);
        sellOrders := Remove(sellOrders, order);
      }
    }
  }
}
