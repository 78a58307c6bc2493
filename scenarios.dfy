/**
 * Worked passes: the situations the order book and service tests set up,
 * stated for any orders with the prices, quantities, sides and traders those
 * tests use, and checked against the three loops.
 */
module Scenarios {
  import opened Wrappers
  import opened Model
  import opened PriceTime
  import opened Matching
  import opened MarketPrices
  import opened InMemoryOrderBooks

  /**
   * Price priority (InMemoryOrderBookTest, testMatchOrders_pricePriority): a
   * bid of 101 placed after a bid of 100 is queued first and takes the only
   * ask, whichever loop runs.
   */
  lemma PricePriority(engine: Engine, id: InstrumentId, b1: Order, b2: Order, s: Order, tradeId: nat, now: nat)
    requires b1.orderType == BUY && b2.orderType == BUY && s.orderType == SELL
    requires b1.price == 100 && b2.price == 101 && s.price == 100
    requires b1.traderId != s.traderId && b2.traderId != s.traderId
    ensures var buys := Enqueue(BUY, Enqueue(BUY, [], b1), b2);
      var fills: map<Order, Fill> := map[b1 := Fill(5, OPEN), b2 := Fill(5, OPEN), s := Fill(5, OPEN)];
      var p := Run(engine, id, buys, [s], fills, tradeId, now);
      && buys == [b2, b1]
      && p.trades == [Trade(tradeId, b2.orderId, s.orderId, id, 100, 5, now)]
      && p.buys == [b1] && p.sells == []
  {
    var buys := Enqueue(BUY, Enqueue(BUY, [], b1), b2);
    assert buys == [b2, b1];
    var fills: map<Order, Fill> := map[b1 := Fill(5, OPEN), b2 := Fill(5, OPEN), s := Fill(5, OPEN)];
    var fills': map<Order, Fill> := fills[b2 := Traded(engine, fills[b2], 5)][s := Traded(engine, fills[s], 5)];
    assert [b2, b1][1..] == [b1] && [s][1..] == [];
    TradeStep(engine, id, buys, [s], fills, tradeId, now, 5, [b1], [], fills');
    HaltStep(engine, id, [b1], [], fills', tradeId + 1, now);
  }

  /**
   * Equal bids are served in time order (testMatchOrders_multipleMatches): one
   * ask of 10 fills two bids of 5 at the same price, one trade each, and all
   * three orders end FILLED with nothing left.
   */
  lemma EqualBidsFilled(engine: Engine, id: InstrumentId, b1: Order, b2: Order, s: Order, tradeId: nat, now: nat)
    requires b1 != b2
    requires b1.orderType == BUY && b2.orderType == BUY && s.orderType == SELL
    requires b1.price == 100 && b2.price == 100 && s.price == 100
    requires b1.timestamp < b2.timestamp
    requires b1.traderId != s.traderId && b2.traderId != s.traderId
    ensures var buys := Enqueue(BUY, Enqueue(BUY, [], b1), b2);
      var fills: map<Order, Fill> := map[b1 := Fill(5, OPEN), b2 := Fill(5, OPEN), s := Fill(10, OPEN)];
      var p := Run(engine, id, [b1, b2], [s], fills, tradeId, now);
      && buys == [b1, b2]
      && p.trades == [Trade(tradeId, b1.orderId, s.orderId, id, 100, 5, now),
                      Trade(tradeId + 1, b2.orderId, s.orderId, id, 100, 5, now)]
      && p.buys == [] && p.sells == []
      && p.fills == map[b1 := Fill(0, FILLED), b2 := Fill(0, FILLED), s := Fill(0, FILLED)]
  {
    assert Enqueue(BUY, [], b1) == [b1] && [b1][1..] == [];
    var buys := [b1, b2];
    var fills: map<Order, Fill> := map[b1 := Fill(5, OPEN), b2 := Fill(5, OPEN), s := Fill(10, OPEN)];
    var fills1: map<Order, Fill> := fills[b1 := Traded(engine, fills[b1], 5)][s := Traded(engine, fills[s], 5)];
    var fills2: map<Order, Fill> := fills1[b2 := Traded(engine, fills1[b2], 5)][s := Traded(engine, fills1[s], 5)];
    assert [b1, b2][1..] == [b2] && [b2][1..] == [] && [s][1..] == [];
    TradeStep(engine, id, buys, [s], fills, tradeId, now, 5, [b2], [s], fills1);
    TradeStep(engine, id, [b2], [s], fills1, tradeId + 1, now, 5, [], [], fills2);
    HaltStep(engine, id, [], [], fills2, tradeId + 2, now);
  }

  /**
   * A partial fill (testMatchOrders_partialMatch, and OrderBookImplTest in the
   * older package): a bid of 15 against an ask of 10 trades 10; the ask is
   * FILLED and gone, the bid stays queued with 5 left, PARTIALLY_FILLED where
   * orders are executed and still OPEN in OrderBookImpl, which only sets a
   * status at 0.
   */
  lemma PartialFill(engine: Engine, id: InstrumentId, b: Order, s: Order, tradeId: nat, now: nat)
    requires b.orderType == BUY && s.orderType == SELL
    requires b.price == 100 && s.price == 100 && b.traderId != s.traderId
    ensures var fills := map[b := Fill(15, OPEN), s := Fill(10, OPEN)];
      var p := Run(engine, id, [b], [s], fills, tradeId, now);
      && p.trades == [Trade(tradeId, b.orderId, s.orderId, id, 100, 10, now)]
      && p.buys == [b] && p.sells == []
      && p.fills == map[b := Fill(5, if engine == Polling then OPEN else PARTIALLY_FILLED), s := Fill(0, FILLED)]
  {
    var fills: map<Order, Fill> := map[b := Fill(15, OPEN), s := Fill(10, OPEN)];
    var fills': map<Order, Fill> := fills[b := Traded(engine, fills[b], 10)][s := Traded(engine, fills[s], 10)];
    assert [s][1..] == [];
    TradeStep(engine, id, [b], [s], fills, tradeId, now, 10, [b], [], fills');
    HaltStep(engine, id, [b], [], fills', tradeId + 1, now);
  }

  /**
   * One trader on both sides (testAddOrder_sameTraderBuyAndSell): the newer
   * loops refuse the crossing pair and stop with nothing changed; the older
   * OrderBook, which has no trader check, trades it at the ask.
   */
  lemma SameTrader(engine: Engine, id: InstrumentId, b: Order, s: Order, tradeId: nat, now: nat)
    requires b.orderType == BUY && s.orderType == SELL
    requires b.price == 100 && s.price == 90 && b.traderId == s.traderId
    ensures var fills := map[b := Fill(10, OPEN), s := Fill(10, OPEN)];
      var p := Run(engine, id, [b], [s], fills, tradeId, now);
      && (engine != Legacy ==> p == Pass([], [b], [s], fills))
      && (engine == Legacy ==> p.trades == [Trade(tradeId, b.orderId, s.orderId, id, 90, 10, now)] && p.buys == [] && p.sells == [])
  {
    var fills: map<Order, Fill> := map[b := Fill(10, OPEN), s := Fill(10, OPEN)];
    if engine == Legacy {
      var fills': map<Order, Fill> := fills[b := Traded(engine, fills[b], 10)][s := Traded(engine, fills[s], 10)];
      assert [b][1..] == [] && [s][1..] == [];
      TradeStep(engine, id, [b], [s], fills, tradeId, now, 10, [], [], fills');
      HaltStep(engine, id, [], [], fills', tradeId + 1, now);
    } else {
      HaltStep(engine, id, [b], [s], fills, tradeId, now);
    }
  }

  /**
   * A stale bid at the head (testMatchOrders_edgeCase_zeroQuantity): the newer
   * loops discard it, make no trade and leave the ask OPEN and queued.  A bid of
   * quantity 0 is the tested case; a CANCELLED head arises only when the status
   * is set on the shared order outside the book, since the book's own cancel
   * already takes the order out of its queue.
   */
  lemma StaleBidSkipped(engine: Engine, id: InstrumentId, b: Order, s: Order, bid: Fill, tradeId: nat, now: nat)
    requires engine != Legacy
    requires b.orderType == BUY && s.orderType == SELL
    requires b.price == 100 && s.price == 100 && b.traderId != s.traderId
    requires bid == Fill(10, CANCELLED) || bid == Fill(0, OPEN)
    ensures var fills := map[b := bid, s := Fill(10, OPEN)];
      Run(engine, id, [b], [s], fills, tradeId, now) == Pass([], [], [s], fills)
  {
    var fills: map<Order, Fill> := map[b := bid, s := Fill(10, OPEN)];
    assert [b][1..] == [];
    SkipBuyStep(engine, id, [b], [s], fills, tradeId, now);
    HaltStep(engine, id, [], [s], fills, tradeId, now);
  }

  /**
   * The older loop has no stale check: a queued bid with nothing left still
   * trades, for a quantity of 0, and leaves its queue FILLED.
   */
  lemma LegacyTradesEmptyBid(id: InstrumentId, b: Order, s: Order, tradeId: nat, now: nat)
    requires b.orderType == BUY && s.orderType == SELL
    requires b.price == 100 && s.price == 100
    ensures var fills := map[b := Fill(0, OPEN), s := Fill(10, OPEN)];
      var p := Run(Legacy, id, [b], [s], fills, tradeId, now);
      && p.trades == [Trade(tradeId, b.orderId, s.orderId, id, 100, 0, now)]
      && p.buys == [] && p.sells == [s]
      && p.fills == map[b := Fill(0, FILLED), s := Fill(10, PARTIALLY_FILLED)]
  {
    var fills: map<Order, Fill> := map[b := Fill(0, OPEN), s := Fill(10, OPEN)];
    var fills': map<Order, Fill> := fills[b := Traded(Legacy, fills[b], 0)][s := Traded(Legacy, fills[s], 0)];
    assert [b][1..] == [];
    TradeStep(Legacy, id, [b], [s], fills, tradeId, now, 0, [], [s], fills');
    HaltStep(Legacy, id, [], [s], fills', tradeId + 1, now);
  }

  /**
   * A full match empties the book (TradingServiceImplTest,
   * testGetMarketPrice_shouldReturnZeroAfterMatching): an ask of 50 for 4 is
   * placed on an empty book, then a bid of 60 for 4; the second placement
   * trades 4 at 50, both orders are FILLED and gone, and the price the service
   * then caches is 0.
   */
  lemma FullMatchClearsPrice(engine: Engine, id: InstrumentId, s: Order, b: Order, tradeId: nat, now: nat)
    requires s.orderType == SELL && b.orderType == BUY
    requires s.price == 50 && b.price == 60 && b.traderId != s.traderId
    ensures var p1 := Placed(engine, id, [], [], map[], s, Fill(4, OPEN), tradeId, now);
      var p2 := Placed(engine, id, p1.buys, p1.sells, p1.fills, b, Fill(4, OPEN), tradeId, now);
      && p1.trades == [] && p1.buys == [] && p1.sells == [s]
      && p2.trades == [Trade(tradeId, b.orderId, s.orderId, id, 50, 4, now)]
      && p2.buys == [] && p2.sells == []
      && p2.fills == map[s := Fill(0, FILLED), b := Fill(0, FILLED)]
      && ServicePrice(Head(p2.buys), Head(p2.sells)) == 0
  {
    var fills1: map<Order, Fill> := map[s := Fill(4, OPEN)];
    HaltStep(engine, id, [], [s], fills1, tradeId, now);
    var fills2: map<Order, Fill> := fills1[b := Fill(4, OPEN)];
    var fills': map<Order, Fill> := fills2[b := Traded(engine, fills2[b], 4)][s := Traded(engine, fills2[s], 4)];
    assert [b][1..] == [] && [s][1..] == [];
    TradeStep(engine, id, [b], [s], fills2, tradeId, now, 4, [], [], fills');
    HaltStep(engine, id, [], [], fills', tradeId + 1, now);
  }

  /**
   * Two sides that do not cross (testGetMarketPrice_shouldReturnCalcWithSellAndBuyOrder):
   * an ask of 100 for 2, then a bid of 80 for 5; nothing trades and the price
   * cached after the second placement is the mid, 90.
   */
  lemma NoCrossMidPrice(engine: Engine, id: InstrumentId, s: Order, b: Order, tradeId: nat, now: nat)
    requires s.orderType == SELL && b.orderType == BUY
    requires s.price == 100 && b.price == 80 && b.traderId != s.traderId
    ensures var p1 := Placed(engine, id, [], [], map[], s, Fill(2, OPEN), tradeId, now);
      var p2 := Placed(engine, id, p1.buys, p1.sells, p1.fills, b, Fill(5, OPEN), tradeId, now);
      && p1.trades == [] && p2.trades == []
      && p2.buys == [b] && p2.sells == [s]
      && ServicePrice(Head(p2.buys), Head(p2.sells)) == 90
  {
    var fills1: map<Order, Fill> := map[s := Fill(2, OPEN)];
    HaltStep(engine, id, [], [s], fills1, tradeId, now);
    HaltStep(engine, id, [b], [s], fills1[b := Fill(5, OPEN)], tradeId, now);
  }

  /**
   * One side only (testGetMarketPrice_shouldReturnZeroWithOnlySellOrder): a
   * lone ask of 100 leaves the services' cached price at 100, the ask's own
   * price, while the calculators' rule gives 0 for an InMemoryOrderBook
   * holding the same queues.
   */
  lemma OneSidedPrice(engine: Engine, id: InstrumentId, s: Order, tradeId: nat, now: nat, book: InMemoryOrderBook)
    requires s.orderType == SELL && s.price == 100
    requires book.buyOrders == [] && book.sellOrders == [s]
    ensures var p := Placed(engine, id, [], [], map[], s, Fill(10, OPEN), tradeId, now);
      && p.trades == [] && p.buys == [] && p.sells == [s]
      && ServicePrice(Head(p.buys), Head(p.sells)) == 100
    ensures CalculateMarketPrice(book) == Some(0)
  {
    HaltStep(engine, id, [], [s], map[s := Fill(10, OPEN)], tradeId, now);
  }
}
