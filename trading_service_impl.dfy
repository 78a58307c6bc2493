/**
 * TradingServiceImpl: the registry of instruments and of their OrderBookImpl
 * books, keyed by instrument id.  It routes orders and cancellations to the
 * right book and refreshes the instrument's cached market price after a change.
 * An unknown instrument is an INSTRUMENT_NOT_FOUND error, except for cancelling,
 * which answers false.
 */
module TradingServiceImpls {
  import opened Wrappers
  import opened Model
  import opened PriceTime
  import opened Matching
  import opened MarketPrices
  import opened OrderBookImpls

  class TradingServiceImpl {
    var orderBooks: map<InstrumentId, OrderBookImpl>
    var instruments: map<InstrumentId, Instrument>

    /**
     * Registration writes both maps under the same key, so they have the same
     * keys; every entry is filed under its own id and every book is well formed
     * and indexes only orders for its own instrument.
     */
    ghost predicate Valid()
      reads this, orderBooks.Values
    {
      && orderBooks.Keys == instruments.Keys
      && (forall id :: id in orderBooks ==> orderBooks[id].instrumentId == id && orderBooks[id].Valid() && orderBooks[id].OwnOrders())
      && (forall id :: id in instruments ==> instruments[id].id == id)
    }

    /** The objects placing an order for instrument `id` may change: its book, the book's queued orders, the instrument. */
    ghost function BookFrame(id: InstrumentId): set<object>
      reads this, if id in orderBooks then {orderBooks[id]} else {}
    {
      if id in orderBooks && id in instruments then
        var book := orderBooks[id];
        {book, instruments[id]} + (set o | o in book.buyOrders) + (set o | o in book.sellOrders)
      else {}
    }

    /** The objects cancelling order `orderId` of instrument `id` may change: its book, that order if indexed, the instrument. */
    ghost function CancelFrame(id: InstrumentId, orderId: OrderId): set<object>
      reads this, if id in orderBooks then {orderBooks[id]} else {}
    {
      if id in orderBooks && id in instruments then
        var book := orderBooks[id];
        {book, instruments[id]} + (if orderId in book.allOrders then {book.allOrders[orderId]} else {})
      else {}
    }

    constructor ()
      ensures Valid()
      ensures orderBooks == map[] && instruments == map[]
    {
      orderBooks := map[];
      instruments := map[];
    }

    /**
     * Files the instrument under its id, replacing any earlier entry, and gives
     * it a new empty book only if it has none: a re-registered instrument keeps
     * its book and its orders.
     */
    method RegisterInstrument(instrument: Instrument)
      requires Valid()
      modifies this
      ensures Valid()
      ensures instruments == old(instruments)[instrument.id := instrument]
      ensures instrument.id in old(orderBooks) ==> orderBooks == old(orderBooks)
      ensures instrument.id !in old(orderBooks) ==>
        && fresh(orderBooks[instrument.id])
        && orderBooks == old(orderBooks)[instrument.id := orderBooks[instrument.id]]
        && orderBooks[instrument.id].buyOrders == [] && orderBooks[instrument.id].sellOrders == []
        && orderBooks[instrument.id].allOrders == map[]
    {
      instruments := instruments[instrument.id := instrument];
      if instrument.id !in orderBooks {
        var book := new OrderBookImpl(instrument.id);
        orderBooks := orderBooks[instrument.id := book];
      }
    }

    /**
     * Places an order on its instrument's book and matches the book.  Unknown
     * instrument: INSTRUMENT_NOT_FOUND and nothing changes.  Otherwise the
     * trades are those of the `Polling` pass over the queues with the order
     * offered to its side; the market price is refreshed after the offer and
     * again after the match only when something traded.  The order stays
     * indexed, so it is found among its trader's orders from then on.
     */
    method PlaceOrder(order: Order, nextTradeId: nat, now: nat) returns (r: Result<seq<Trade>, TradingError>)
      requires Valid()
      requires order.instrumentId in orderBooks ==> order.orderId !in orderBooks[order.instrumentId].allOrders
      modifies BookFrame(order.instrumentId), if order.instrumentId in orderBooks then {order} else {}
      ensures Valid()
      ensures orderBooks == old(orderBooks) && instruments == old(instruments)
      ensures order.instrumentId !in orderBooks <==> r.Failure?
      ensures r.Failure? ==> r.error == InstrumentNotFound(order.instrumentId)
      ensures r.Success? ==>
        var id := order.instrumentId;
        var book := orderBooks[id];
        var buys, sells := Offer(BUY, old(book.buyOrders), order), Offer(SELL, old(book.sellOrders), order);
        var pass := Placed(Polling, id, old(book.buyOrders), old(book.sellOrders), old(book.Fills()), order, old(order.State()), nextTradeId, now);
        && r.value == pass.trades
        && book.buyOrders == pass.buys && book.sellOrders == pass.sells
        && (forall o :: o in pass.fills ==> o.State() == pass.fills[o])
        && book.allOrders == old(book.allOrders)[order.orderId := order]
        && book.trades == old(book.trades)
        && instruments[id].marketPrice ==
             (if pass.trades == [] then ServicePrice(Head(buys), Head(sells))
              else ServicePrice(Head(pass.buys), Head(pass.sells)))
    {
      var id := order.instrumentId;
      if id !in orderBooks {
        return Failure(InstrumentNotFound(id));
      }
      var trades := PlaceOnBook(orderBooks[id], instruments[id], order, nextTradeId, now);
      assert orderBooks == old(orderBooks) && instruments == old(instruments);
      forall other | other in orderBooks && other != id
        ensures orderBooks[other].Valid() && orderBooks[other].OwnOrders()
      {
        assert orderBooks[other] != orderBooks[id];
      }
      return Success(trades);
    }

    /**
     * The part of `placeOrder` after the book has been found: add the order,
     * refresh the price, match, and refresh the price again if anything traded.
     */
    static method PlaceOnBook(book: OrderBookImpl, instrument: Instrument, order: Order, nextTradeId: nat, now: nat)
      returns (trades: seq<Trade>)
      requires book.Valid() && order.orderId !in book.allOrders
      requires book.OwnOrders() && order.instrumentId == book.instrumentId
      modifies book, book.buyOrders, book.sellOrders, order, instrument
      ensures book.Valid() && book.OwnOrders()
      ensures var buys, sells := Offer(BUY, old(book.buyOrders), order), Offer(SELL, old(book.sellOrders), order);
        var pass := Placed(Polling, book.instrumentId, old(book.buyOrders), old(book.sellOrders), old(book.Fills()), order, old(order.State()), nextTradeId, now);
        && trades == pass.trades
        && book.buyOrders == pass.buys && book.sellOrders == pass.sells
        && (forall o :: o in pass.fills ==> o.State() == pass.fills[o])
        && book.allOrders == old(book.allOrders)[order.orderId := order]
        && book.trades == old(book.trades)
        && instrument.marketPrice ==
             (if pass.trades == [] then ServicePrice(Head(buys), Head(sells))
              else ServicePrice(Head(pass.buys), Head(pass.sells)))
    {
      EnqueueMembers(BUY, book.buyOrders, order);
      EnqueueMembers(SELL, book.sellOrders, order);
      AddAndRefresh(book, instrument, order);
      assert forall i :: 0 <= i < |book.buyOrders| ==>
        book.buyOrders[i] in old(book.buyOrders) || book.buyOrders[i] in old(book.sellOrders) || book.buyOrders[i] == order;
      assert forall i :: 0 <= i < |book.sellOrders| ==>
        book.sellOrders[i] in old(book.buyOrders) || book.sellOrders[i] in old(book.sellOrders) || book.sellOrders[i] == order;
      trades := MatchAndRefresh(book, instrument, nextTradeId, now);
    }

    /** `placeOrder`, lines 87-88: the order joins its side and the price is refreshed. */
    static method AddAndRefresh(book: OrderBookImpl, instrument: Instrument, order: Order)
      requires book.Valid() && order.orderId !in book.allOrders
      requires book.OwnOrders() && order.instrumentId == book.instrumentId
      modifies book, instrument
      ensures book.Valid() && book.OwnOrders()
      ensures book.buyOrders == Offer(BUY, old(book.buyOrders), order) && book.sellOrders == Offer(SELL, old(book.sellOrders), order)
      ensures book.Fills() == old(book.Fills())[order := order.State()]
      ensures book.allOrders == old(book.allOrders)[order.orderId := order] && book.trades == old(book.trades)
      ensures instrument.marketPrice == ServicePrice(Head(book.buyOrders), Head(book.sellOrders))
    {
      book.AddOrder(order);
      assert book.OwnOrders();
      RefreshPrice(book, instrument);
    }

    /** `placeOrder`, lines 89-92: the book is matched and, if anything traded, the price is refreshed. */
    static method MatchAndRefresh(book: OrderBookImpl, instrument: Instrument, nextTradeId: nat, now: nat)
      returns (trades: seq<Trade>)
      requires book.Valid() && book.OwnOrders()
      modifies book, book.buyOrders, book.sellOrders, instrument
      ensures book.Valid() && book.OwnOrders()
      ensures var pass := Run(Polling, book.instrumentId, old(book.buyOrders), old(book.sellOrders), old(book.Fills()), nextTradeId, now);
        && trades == pass.trades
        && book.buyOrders == pass.buys && book.sellOrders == pass.sells
        && (forall o :: o in pass.fills ==> o.State() == pass.fills[o])
        && instrument.marketPrice == (if trades == [] then old(instrument.marketPrice) else ServicePrice(Head(pass.buys), Head(pass.sells)))
      ensures book.allOrders == old(book.allOrders) && book.trades == old(book.trades)
    {
      trades := book.MatchOrders(nextTradeId, now);
      assert book.OwnOrders();
      if trades != [] {
        RefreshPrice(book, instrument);
      }
    }

    /**
     * Unknown instrument: false.  Otherwise the book's answer: ORDER_NOT_FOUND
     * for an unknown order, before any price refresh and with nothing changed;
     * true when the order was live, which takes exactly that order out of its
     * queue; false for a repeat, which leaves the queues alone.  After an answer
     * the market price is refreshed.  The index is unchanged, so every trader
     * keeps the same orders; no other order is touched, and the cancelled one
     * keeps its quantity.
     */
    method CancelOrder(instrumentId: InstrumentId, orderId: OrderId) returns (r: Result<bool, TradingError>)
      requires Valid()
      modifies CancelFrame(instrumentId, orderId)
      ensures Valid()
      ensures orderBooks == old(orderBooks) && instruments == old(instruments)
      ensures instrumentId !in orderBooks ==> r == Success(false)
      ensures instrumentId in orderBooks ==>
        var book := orderBooks[instrumentId];
        && book.allOrders == old(book.allOrders)
        && (orderId !in book.allOrders ==>
              r == Failure(OrderNotFound(orderId))
              && instruments[instrumentId].marketPrice == old(instruments[instrumentId].marketPrice))
        && book.buyOrders == (if r == Success(true) then Remove(old(book.buyOrders), old(book.allOrders[orderId])) else old(book.buyOrders))
        && book.sellOrders == (if r == Success(true) then Remove(old(book.sellOrders), old(book.allOrders[orderId])) else old(book.sellOrders))
        && (orderId in book.allOrders ==>
              && r == Success(old(book.allOrders[orderId].status) != CANCELLED)
              && book.allOrders[orderId].status == CANCELLED
              && book.allOrders[orderId].quantity == old(book.allOrders[orderId].quantity)
              && (r.value ==> book.allOrders[orderId] !in book.buyOrders && book.allOrders[orderId] !in book.sellOrders)
              && instruments[instrumentId].marketPrice == ServicePrice(book.GetBestBuyOrder(), book.GetBestSellOrder()))
    {
      if instrumentId !in orderBooks {
        return Success(false);
      }
      r := CancelOnBook(orderBooks[instrumentId], instruments[instrumentId], orderId);
    }

    /** The body of `cancelOrder` once the book has been found: cancel, then refresh the price. */
    static method CancelOnBook(book: OrderBookImpl, instrument: Instrument, orderId: OrderId)
      returns (r: Result<bool, TradingError>)
      requires book.Valid() && book.OwnOrders()
      modifies book, if orderId in book.allOrders then {book.allOrders[orderId]} else {}, instrument
      ensures book.Valid() && book.OwnOrders()
      ensures book.allOrders == old(book.allOrders)
      ensures orderId !in book.allOrders ==> r == Failure(OrderNotFound(orderId)) && instrument.marketPrice == old(instrument.marketPrice)
      ensures book.buyOrders == (if r == Success(true) then Remove(old(book.buyOrders), old(book.allOrders[orderId])) else old(book.buyOrders))
      ensures book.sellOrders == (if r == Success(true) then Remove(old(book.sellOrders), old(book.allOrders[orderId])) else old(book.sellOrders))
      ensures orderId in book.allOrders ==>
        && r == Success(old(book.allOrders[orderId].status) != CANCELLED)
        && book.allOrders[orderId].status == CANCELLED
        && book.allOrders[orderId].quantity == old(book.allOrders[orderId].quantity)
        && (r.value ==> book.allOrders[orderId] !in book.buyOrders && book.allOrders[orderId] !in book.sellOrders)
        && instrument.marketPrice == ServicePrice(book.GetBestBuyOrder(), book.GetBestSellOrder())
    {
      r := book.CancelOrder(orderId);
      assert book.OwnOrders();
      if r.Failure? {
        return;
      }
      RefreshPrice(book, instrument);
    }

    /** The cached market price; INSTRUMENT_NOT_FOUND for an unknown instrument. */
    function GetMarketPrice(instrumentId: InstrumentId): (r: Result<int, TradingError>)
      reads this, instruments.Values
      ensures instrumentId in instruments <==> r.Success?
      ensures r.Failure? ==> r.error == InstrumentNotFound(instrumentId)
      ensures r.Success? ==> r.value == instruments[instrumentId].marketPrice
    {
      if instrumentId !in instruments then Failure(InstrumentNotFound(instrumentId))
      else Success(instruments[instrumentId].marketPrice)
    }

    /** The instrument's book; INSTRUMENT_NOT_FOUND for an unknown instrument. */
    function GetOrderBook(instrumentId: InstrumentId): (r: Result<OrderBookImpl, TradingError>)
      requires Valid()
      reads this, orderBooks.Values
      ensures instrumentId in orderBooks <==> r.Success?
      ensures r.Failure? ==> r.error == InstrumentNotFound(instrumentId)
      ensures r.Success? ==> r.value.instrumentId == instrumentId && r.value.Valid()
    {
      if instrumentId !in orderBooks then Failure(InstrumentNotFound(instrumentId))
      else Success(orderBooks[instrumentId])
    }

    /** The registered instruments, one per id. */
    function GetAllInstruments(): (r: set<Instrument>)
      requires Valid()
      reads this, orderBooks.Values
      ensures forall i :: i in r ==> i.id in instruments && instruments[i.id] == i
      ensures forall id :: id in instruments ==> instruments[id] in r
    {
      instruments.Values
    }

    /**
     * Every indexed order, of any status, in any registered book, whose trader
     * is `traderId` (as a set: the Java list follows hash-map order).
     */
    function GetOrdersByTrader(traderId: TraderId): (r: set<Order>)
      requires Valid()
      reads this, orderBooks.Values
      ensures forall o :: o in r ==>
        && o.traderId == traderId
        && o.instrumentId in orderBooks
        && o.orderId in orderBooks[o.instrumentId].allOrders
        && orderBooks[o.instrumentId].allOrders[o.orderId] == o
      ensures forall id, k :: id in orderBooks && k in orderBooks[id].allOrders && orderBooks[id].allOrders[k].traderId == traderId ==>
        orderBooks[id].allOrders[k] in r
    {
      set id, o | id in instruments && id in orderBooks && o in orderBooks[id].allOrders.Values && o.traderId == traderId :: o
    }

    /**
     * The instrument's cached price becomes the mid of the two best prices, the
     * one side's price, or 0 (see MarketPrices.ServicePrice).  Nothing happens
     * for an id without both a book and an instrument.
     */
    method UpdateMarketPrice(instrumentId: InstrumentId)
      modifies if instrumentId in instruments then {instruments[instrumentId]} else {}
      ensures instrumentId in orderBooks && instrumentId in instruments ==>
        var book := orderBooks[instrumentId];
        instruments[instrumentId].marketPrice == ServicePrice(book.GetBestBuyOrder(), book.GetBestSellOrder())
      ensures instrumentId !in orderBooks && instrumentId in instruments ==>
        instruments[instrumentId].marketPrice == old(instruments[instrumentId].marketPrice)
    {
      if instrumentId !in orderBooks || instrumentId !in instruments {
        return;
      }
      RefreshPrice(orderBooks[instrumentId], instruments[instrumentId]);
    }

    /** The body of `updateMarketPrice` once the book and the instrument have been found. */
    static method RefreshPrice(book: OrderBookImpl, instrument: Instrument)
      modifies instrument
      ensures instrument.marketPrice == ServicePrice(book.GetBestBuyOrder(), book.GetBestSellOrder())
      ensures book.Fills() == old(book.Fills())
    {
      var bestBuy := book.GetBestBuyOrder();
      var bestSell := book.GetBestSellOrder();
      instrument.SetMarketPrice(ServicePrice(bestBuy, bestSell));
    }
  }
}
