/**
 * TradingService: the class version of the service, over the older OrderBook.
 * It keeps the same two registries as TradingServiceImpl and the same price
 * rule, but reports errors the older way: placing an order for an unknown
 * instrument is an IllegalArgumentException (here a failure carrying its
 * message), cancelling answers false, and the lookups answer null (None).
 */
module TradingServices {
  import opened Wrappers
  import opened Model
  import opened PriceTime
  import opened Matching
  import opened MarketPrices
  import opened OrderBooks

  class TradingService {
    var orderBooks: map<InstrumentId, OrderBook>
    var instruments: map<InstrumentId, Instrument>

    /**
     * Registration writes both maps under the same key, so they have the same
     * keys; every entry is filed under its own id and every book is well formed.
     */
    ghost predicate Valid()
      reads this, orderBooks.Values
    {
      && orderBooks.Keys == instruments.Keys
      && (forall id :: id in orderBooks ==> orderBooks[id].instrumentId == id && orderBooks[id].Valid())
      && (forall id :: id in instruments ==> instruments[id].id == id)
    }

    /** The objects placing an order for instrument `id` may change: its book, the book's queued orders, the instrument. */
    ghost function BookFrame(id: InstrumentId): set<object>
      reads this, if id in orderBooks then {orderBooks[id]} else {}
    {
      if id in orderBooks && id in instruments then
        var book := orderBooks[id];
        {book, instruments[id]} + (set o | o in book.buyOrders) + (set o | o in book.sellOrders)
      else {}
    }

    /** The objects cancelling order `orderId` of instrument `id` may change: its book, that order if indexed, the instrument. */
    ghost function CancelFrame(id: InstrumentId, orderId: OrderId): set<object>
      reads this, if id in orderBooks then {orderBooks[id]} else {}
    {
      if id in orderBooks && id in instruments then
        var book := orderBooks[id];
        {book, instruments[id]} + (if orderId in book.allOrders then {book.allOrders[orderId]} else {})
      else {}
    }

    constructor ()
      ensures Valid()
      ensures orderBooks == map[] && instruments == map[]
    {
      orderBooks := map[];
      instruments := map[];
    }

    /**
     * Files the instrument under its id, replacing any earlier entry, and gives
     * it a new empty book only if it has none.
     */
    method RegisterInstrument(instrument: Instrument)
      requires Valid()
      modifies this
      ensures Valid()
      ensures instruments == old(instruments)[instrument.id := instrument]
      ensures instrument.id in old(orderBooks) ==> orderBooks == old(orderBooks)
      ensures instrument.id !in old(orderBooks) ==>
        && fresh(orderBooks[instrument.id])
        && orderBooks == old(orderBooks)[instrument.id := orderBooks[instrument.id]]
        && orderBooks[instrument.id].buyOrders == [] && orderBooks[instrument.id].sellOrders == []
        && orderBooks[instrument.id].allOrders == map[] && orderBooks[instrument.id].trades == []
    {
      instruments := instruments[instrument.id := instrument];
      if instrument.id !in orderBooks {
        var book := new OrderBook(instrument.id);
        orderBooks := orderBooks[instrument.id := book];
      }
    }

    /**
     * Places an order on its instrument's book and matches the book.  Unknown
     * instrument: the failure "Instrument not found: <id>" and nothing changes.
     * Otherwise the trades are those of the `Legacy` pass over the queues with
     * the order offered to its side, they are appended to the book's history,
     * and the market price is refreshed after the offer and again after the
     * match only when something traded.
     */
    method PlaceOrder(order: Order, nextTradeId: nat, now: nat) returns (r: Result<seq<Trade>, string>)
      requires Valid()
      requires order.instrumentId in orderBooks ==> order.orderId !in orderBooks[order.instrumentId].allOrders
      modifies BookFrame(order.instrumentId), if order.instrumentId in orderBooks then {order} else {}
      ensures Valid()
      ensures orderBooks == old(orderBooks) && instruments == old(instruments)
      ensures order.instrumentId !in orderBooks <==> r.Failure?
      ensures r.Failure? ==> r.error == "Instrument not found: " + order.instrumentId
      ensures r.Success? ==>
        var id := order.instrumentId;
        var book := orderBooks[id];
        var buys, sells := Offer(BUY, old(book.buyOrders), order), Offer(SELL, old(book.sellOrders), order);
        var pass := Placed(Legacy, id, old(book.buyOrders), old(book.sellOrders), old(book.Fills()), order, old(order.State()), nextTradeId, now);
        && r.value == pass.trades
        && book.buyOrders == pass.buys && book.sellOrders == pass.sells
        && (forall o :: o in pass.fills ==> o.State() == pass.fills[o])
        && book.trades == old(book.trades) + pass.trades
        && instruments[id].marketPrice ==
             (if pass.trades == [] then ServicePrice(Head(buys), Head(sells))
              else ServicePrice(Head(pass.buys), Head(pass.sells)))
    {
      var id := order.instrumentId;
      if id !in orderBooks {
        return Failure("Instrument not found: " + id);
      }
      var trades := PlaceOnBook(orderBooks[id], instruments[id], order, nextTradeId, now);
      assert orderBooks == old(orderBooks) && instruments == old(instruments);
      forall other | other in orderBooks && other != id
        ensures orderBooks[other].Valid()
      {
        assert orderBooks[other] != orderBooks[id];
      }
      return Success(trades);
    }

    /**
     * The part of `placeOrder` after the book has been found: add the order,
     * refresh the price, match, and refresh the price again if anything traded.
     */
    static method PlaceOnBook(book: OrderBook, instrument: Instrument, order: Order, nextTradeId: nat, now: nat)
      returns (trades: seq<Trade>)
      requires book.Valid() && order.orderId !in book.allOrders
      modifies book, book.buyOrders, book.sellOrders, order, instrument
      ensures book.Valid()
      ensures var buys, sells := Offer(BUY, old(book.buyOrders), order), Offer(SELL, old(book.sellOrders), order);
        var pass := Placed(Legacy, book.instrumentId, old(book.buyOrders), old(book.sellOrders), old(book.Fills()), order, old(order.State()), nextTradeId, now);
        && trades == pass.trades
        && book.buyOrders == pass.buys && book.sellOrders == pass.sells
        && (forall o :: o in pass.fills ==> o.State() == pass.fills[o])
        && book.trades == old(book.trades) + pass.trades
        && instrument.marketPrice ==
             (if pass.trades == [] then ServicePrice(Head(buys), Head(sells))
              else ServicePrice(Head(pass.buys), Head(pass.sells)))
    {
      EnqueueMembers(BUY, book.buyOrders, order);
      EnqueueMembers(SELL, book.sellOrders, order);
      AddAndRefresh(book, instrument, order);
      assert forall i :: 0 <= i < |book.buyOrders| ==>
        book.buyOrders[i] in old(book.buyOrders) || book.buyOrders[i] in old(book.sellOrders) || book.buyOrders[i] == order;
      assert forall i :: 0 <= i < |book.sellOrders| ==>
        book.sellOrders[i] in old(book.buyOrders) || book.sellOrders[i] in old(book.sellOrders) || book.sellOrders[i] == order;
      trades := MatchAndRefresh(book, instrument, nextTradeId, now);
    }

    /** `placeOrder`, lines 44-45: the order joins its side and the price is refreshed. */
    static method AddAndRefresh(book: OrderBook, instrument: Instrument, order: Order)
      requires book.Valid() && order.orderId !in book.allOrders
      modifies book, instrument
      ensures book.Valid()
      ensures book.buyOrders == Offer(BUY, old(book.buyOrders), order) && book.sellOrders == Offer(SELL, old(book.sellOrders), order)
      ensures book.Fills() == old(book.Fills())[order := order.State()]
      ensures book.trades == old(book.trades)
      ensures instrument.marketPrice == ServicePrice(Head(book.buyOrders), Head(book.sellOrders))
    {
      book.AddOrder(order);
      RefreshPrice(book, instrument);
    }

    /** `placeOrder`, lines 46-49: the book is matched and, if anything traded, the price is refreshed. */
    static method MatchAndRefresh(book: OrderBook, instrument: Instrument, nextTradeId: nat, now: nat)
      returns (trades: seq<Trade>)
      requires book.Valid()
      modifies book, book.buyOrders, book.sellOrders, instrument
      ensures book.Valid()
      ensures var pass := Run(Legacy, book.instrumentId, old(book.buyOrders), old(book.sellOrders), old(book.Fills()), nextTradeId, now);
        && trades == pass.trades
        && book.buyOrders == pass.buys && book.sellOrders == pass.sells
        && (forall o :: o in pass.fills ==> o.State() == pass.fills[o])
        && instrument.marketPrice == (if trades == [] then old(instrument.marketPrice) else ServicePrice(Head(pass.buys), Head(pass.sells)))
      ensures book.trades == old(book.trades) + trades
    {
      trades := book.MatchOrders(nextTradeId, now);
      if trades != [] {
        RefreshPrice(book, instrument);
      }
    }

    /**
     * Unknown instrument: false and nothing changes.  Otherwise the book's
     * answer (true exactly when the order was indexed, which takes it out of its
     * queue and the index), after which the market price is refreshed whatever
     * the answer.  No other order is touched, and the cancelled one keeps its
     * quantity.
     */
    method CancelOrder(instrumentId: InstrumentId, orderId: OrderId) returns (cancelled: bool)
      requires Valid()
      modifies CancelFrame(instrumentId, orderId)
      ensures Valid()
      ensures orderBooks == old(orderBooks) && instruments == old(instruments)
      ensures instrumentId !in orderBooks ==> !cancelled
      ensures instrumentId in orderBooks ==>
        var book := orderBooks[instrumentId];
        && (cancelled <==> orderId in old(book.allOrders))
        && book.allOrders == old(book.allOrders) - {orderId}
        && (cancelled ==> old(book.allOrders[orderId]).status == CANCELLED && old(book.allOrders[orderId]).quantity == old(book.allOrders[orderId].quantity))
        && book.buyOrders == (if cancelled then Remove(old(book.buyOrders), old(book.allOrders[orderId])) else old(book.buyOrders))
        && book.sellOrders == (if cancelled then Remove(old(book.sellOrders), old(book.allOrders[orderId])) else old(book.sellOrders))
        && instruments[instrumentId].marketPrice == ServicePrice(book.GetBestBuyOrder(), book.GetBestSellOrder())
    {
      if instrumentId !in orderBooks {
        return false;
      }
      cancelled := CancelOnBook(orderBooks[instrumentId], instruments[instrumentId], orderId);
      assert orderBooks == old(orderBooks) && instruments == old(instruments);
      forall other | other in orderBooks && other != instrumentId
        ensures orderBooks[other].Valid()
      {
        assert orderBooks[other] != orderBooks[instrumentId];
      }
    }

    /** The body of `cancelOrder` once the book has been found: cancel, then refresh the price. */
    static method CancelOnBook(book: OrderBook, instrument: Instrument, orderId: OrderId) returns (cancelled: bool)
      requires book.Valid()
      modifies book, if orderId in book.allOrders then {book.allOrders[orderId]} else {}, instrument
      ensures book.Valid()
      ensures cancelled <==> orderId in old(book.allOrders)
      ensures book.allOrders == old(book.allOrders) - {orderId}
      ensures cancelled ==> old(book.allOrders[orderId]).status == CANCELLED && old(book.allOrders[orderId]).quantity == old(book.allOrders[orderId].quantity)
      ensures book.buyOrders == (if cancelled then Remove(old(book.buyOrders), old(book.allOrders[orderId])) else old(book.buyOrders))
      ensures book.sellOrders == (if cancelled then Remove(old(book.sellOrders), old(book.allOrders[orderId])) else old(book.sellOrders))
      ensures instrument.marketPrice == ServicePrice(book.GetBestBuyOrder(), book.GetBestSellOrder())
    {
      cancelled := book.CancelOrder(orderId);
      RefreshPrice(book, instrument);
    }

    /** The cached market price; None (Java's null) for an unknown instrument. */
    function GetMarketPrice(instrumentId: InstrumentId): (r: Option<int>)
      reads this, instruments.Values
      ensures instrumentId in instruments <==> r.Some?
      ensures r.Some? ==> r.value == instruments[instrumentId].marketPrice
    {
      if instrumentId !in instruments then None else Some(instruments[instrumentId].marketPrice)
    }

    /** The instrument's book; None (Java's null) for an unknown instrument. */
    function GetOrderBook(instrumentId: InstrumentId): (r: Option<OrderBook>)
      requires Valid()
      reads this, orderBooks.Values
      ensures instrumentId in orderBooks <==> r.Some?
      ensures r.Some? ==> r.value.instrumentId == instrumentId && r.value.Valid()
    {
      if instrumentId !in orderBooks then None else Some(orderBooks[instrumentId])
    }

    /** The registered instruments, one per id. */
    function GetAllInstruments(): (r: set<Instrument>)
      requires Valid()
      reads this, orderBooks.Values
      ensures forall i :: i in r ==> i.id in instruments && instruments[i.id] == i
      ensures forall id :: id in instruments ==> instruments[id] in r
    {
      instruments.Values
    }

    /**
     * The instrument's cached price becomes the mid of the two best prices, the
     * one side's price, or 0 (see MarketPrices.ServicePrice).  Nothing happens
     * for an id without both a book and an instrument.
     */
    method UpdateMarketPrice(instrumentId: InstrumentId)
      modifies if instrumentId in instruments then {instruments[instrumentId]} else {}
      ensures instrumentId in orderBooks && instrumentId in instruments ==>
        var book := orderBooks[instrumentId];
        instruments[instrumentId].marketPrice == ServicePrice(book.GetBestBuyOrder(), book.GetBestSellOrder())
      ensures instrumentId !in orderBooks && instrumentId in instruments ==>
        instruments[instrumentId].marketPrice == old(instruments[instrumentId].marketPrice)
    {
      if instrumentId !in orderBooks || instrumentId !in instruments {
        return;
      }
      RefreshPrice(orderBooks[instrumentId], instruments[instrumentId]);
    }

    /** The body of `updateMarketPrice` once the book and the instrument have been found. */
    static method RefreshPrice(book: OrderBook, instrument: Instrument)
      modifies instrument
      ensures instrument.marketPrice == ServicePrice(book.GetBestBuyOrder(), book.GetBestSellOrder())
      ensures book.Fills() == old(book.Fills())
    {
      var bestBuy := book.GetBestBuyOrder();
      var bestSell := book.GetBestSellOrder();
      instrument.SetMarketPrice(ServicePrice(bestBuy, bestSell));
    }
  }
}
