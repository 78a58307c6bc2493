/**
 * TradeMatcher, the logging variant of the matching loop over an OrderBook,
 * split into the helpers shouldSkipOrder, canMatch, createTrade and
 * updateOrders.  It performs the same `Lazy` pass as DefaultTradeMatcher.
 */
module TradeMatchers {
  import opened Model
  import opened PriceTime
  import opened Matching
  import opened InMemoryOrderBooks

  /** A stale order (CANCELLED or with nothing left) is taken out of its queue and reported. */
  method ShouldSkipOrder(order: Order, book: InMemoryOrderBook) returns (skip: bool)
    requires book.Valid()
    modifies book
    ensures book.Valid() && book.allOrders == old(book.allOrders)
    ensures skip <==> Stale(order.State())
    ensures skip ==> order !in book.buyOrders && order !in book.sellOrders
    ensures order.orderType == BUY ==>
      book.buyOrders == (if skip then Remove(old(book.buyOrders), order) else old(book.buyOrders))
      && book.sellOrders == old(book.sellOrders)
    ensures order.orderType == SELL ==>
      book.sellOrders == (if skip then Remove(old(book.sellOrders), order) else old(book.sellOrders))
      && book.buyOrders == old(book.buyOrders)
  {
    if order.status == CANCELLED || order.quantity == 0 {
      book.RemoveOrder(order);
      return true;
    }
    return false;
  }

  /** Two orders may trade iff the bid reaches the ask and they belong to different traders. */
  predicate CanMatch(buyOrder: Order, sellOrder: Order) {
    buyOrder.price >= sellOrder.price && buyOrder.traderId != sellOrder.traderId
  }

  /**
   * Between two live heads, `canMatch` decides the loop: the newer loops stop
   * exactly where it is false.
   */
  lemma CanMatchHalts(engine: Engine, buys: seq<Order>, sells: seq<Order>, fills: map<Order, Fill>)
    requires engine != Legacy && Covers(buys, sells, fills) && buys != [] && sells != []
    requires !Stale(fills[buys[0]]) && !Stale(fills[sells[0]])
    ensures Halted(engine, buys, sells, fills) <==> !CanMatch(buys[0], sells[0])
    ensures Halted(engine, buys, sells, fills) <==>
              buys[0].price < sells[0].price || buys[0].traderId == sells[0].traderId
  {
  }

  /** The trade of two orders: the smaller remaining quantity, at the sell order's price. */
  function CreateTrade(buyOrder: Order, sellOrder: Order, instrumentId: InstrumentId, tradeId: nat, now: nat): (t: Trade)
    reads buyOrder, sellOrder
    ensures t.quantity <= buyOrder.quantity && t.quantity <= sellOrder.quantity
    ensures t.quantity == buyOrder.quantity || t.quantity == sellOrder.quantity
    ensures t.price == sellOrder.price
    ensures CanMatch(buyOrder, sellOrder) ==> t.price <= buyOrder.price
    ensures t.buyOrderId == buyOrder.orderId && t.sellOrderId == sellOrder.orderId
    ensures t.instrumentId == instrumentId && t.tradeId == tradeId && t.timestamp == now
  {
    Trade(tradeId, buyOrder.orderId, sellOrder.orderId, instrumentId, sellOrder.price,
          Min(buyOrder.quantity, sellOrder.quantity), now)
  }

  /**
   * Executes the smaller remaining quantity on both heads and takes each one that
   * is left with nothing out of its queue.
   */
  method UpdateOrders(buyOrder: Order, sellOrder: Order, book: InMemoryOrderBook)
    requires book.Valid()
    requires book.buyOrders != [] && book.sellOrders != []
    requires buyOrder == book.buyOrders[0] && sellOrder == book.sellOrders[0]
    modifies book, buyOrder, sellOrder
    ensures book.Valid() && book.allOrders == old(book.allOrders)
    ensures var n := Min(old(buyOrder.quantity), old(sellOrder.quantity));
      && buyOrder.State() == Traded(Lazy, old(buyOrder.State()), n)
      && sellOrder.State() == Traded(Lazy, old(sellOrder.State()), n)
    ensures book.buyOrders == if buyOrder.quantity == 0 then old(book.buyOrders)[1..] else old(book.buyOrders)
    ensures book.sellOrders == if sellOrder.quantity == 0 then old(book.sellOrders)[1..] else old(book.sellOrders)
  {
    assert buyOrder.orderType == BUY && sellOrder.orderType == SELL;
    var executedQuantity := Min(buyOrder.quantity, sellOrder.quantity);
    buyOrder.Execute(executedQuantity);
    sellOrder.Execute(executedQuantity);
    if buyOrder.IsFilled() {
      book.RemoveOrder(buyOrder);
    }
    if sellOrder.IsFilled() {
      book.RemoveOrder(sellOrder);
    }
  }

  /**
   * Matches the book while the best bid reaches the best ask: the same `Lazy`
   * pass as DefaultTradeMatcher.Match, with trades in creation order.  Trade k
   * gets id `nextTradeId + k` and timestamp `now`.
   */
  method Match(book: InMemoryOrderBook, instrumentId: InstrumentId, nextTradeId: nat, now: nat)
    returns (trades: seq<Trade>)
    requires book.Valid()
    modifies book, book.buyOrders, book.sellOrders
    ensures book.Valid()
    ensures book.allOrders == old(book.allOrders)
    ensures var pass := Run(Lazy, instrumentId, old(book.buyOrders), old(book.sellOrders), old(book.Fills()), nextTradeId, now);
      && trades == pass.trades
      && book.buyOrders == pass.buys
      && book.sellOrders == pass.sells
      && pass.fills.Keys == old(book.Fills()).Keys
      && forall o :: o in pass.fills ==> o.State() == pass.fills[o]
  {
    ghost var fills := book.Fills();
    ghost var keys := fills.Keys;
    ghost var total := Run(Lazy, instrumentId, book.buyOrders, book.sellOrders, fills, nextTradeId, now);
    ResumeStart(Lazy, instrumentId, book.buyOrders, book.sellOrders, fills, nextTradeId, now);
    trades := [];
    while book.HasMatchingOrders()
      invariant book.Valid()
      invariant book.allOrders == old(book.allOrders)
      invariant forall o :: o in keys ==> o in old(book.buyOrders) || o in old(book.sellOrders)
      invariant fills.Keys == keys
      invariant forall o :: o in fills ==> o.State() == fills[o]
      invariant Resumes(total, trades, Lazy, instrumentId, book.buyOrders, book.sellOrders, fills, nextTradeId, now)
      decreases |book.buyOrders| + |book.sellOrders|
    {
      assert book.buyOrders[0] in keys && book.sellOrders[0] in keys;
      var stop, traded;
      stop, traded, fills := MatchTurn(book, instrumentId, nextTradeId + |trades|, now, fills, total, trades, nextTradeId);
      trades := trades + traded;
      if stop {
        return;
      }
    }
    ResumeHalt(total, trades, Lazy, instrumentId, book.buyOrders, book.sellOrders, fills, nextTradeId, now);
  }

  /**
   * One turn of the loop.  A stale best bid is taken out first; only when it is
   * live is the best ask checked, so at most one order is skipped per turn.  Two
   * live heads that cannot match stop the loop; otherwise they trade.  The turn
   * is one step of the `Lazy` pass that has made the trades `done`.
   */
  method MatchTurn(book: InMemoryOrderBook, instrumentId: InstrumentId, tradeId: nat, now: nat,
                   ghost fills: map<Order, Fill>, ghost total: Pass, ghost done: seq<Trade>, ghost firstId: nat)
    returns (stop: bool, traded: seq<Trade>, ghost fills': map<Order, Fill>)
    requires book.Valid() && book.HasMatchingOrders()
    requires forall o :: o in fills ==> o.State() == fills[o]
    requires tradeId == firstId + |done|
    requires Resumes(total, done, Lazy, instrumentId, book.buyOrders, book.sellOrders, fills, firstId, now)
    modifies book, book.buyOrders[0], book.sellOrders[0]
    ensures book.Valid() && book.allOrders == old(book.allOrders)
    ensures fills'.Keys == fills.Keys
    ensures forall o :: o in fills' ==> o.State() == fills'[o]
    ensures !stop ==> |book.buyOrders| + |book.sellOrders| < old(|book.buyOrders| + |book.sellOrders|)
    ensures traded == [] && !stop ==> |book.buyOrders| + |book.sellOrders| == old(|book.buyOrders| + |book.sellOrders|) - 1
    ensures Resumes(total, done + traded, Lazy, instrumentId, book.buyOrders, book.sellOrders, fills', firstId, now)
    ensures stop ==> traded == [] && total == Pass(done, book.buyOrders, book.sellOrders, fills')
  {
    var buyOrder := book.BestBuyOrder().value;
    var sellOrder := book.BestSellOrder().value;
    ghost var buys, sells := book.buyOrders, book.sellOrders;
    assert done + [] == done;

    var skip := ShouldSkipOrder(buyOrder, book);
    if skip {
      ResumeSkip(total, done, Lazy, instrumentId, buys, sells, fills, firstId, now, buys[1..], sells);
      return false, [], fills;
    }
    skip := ShouldSkipOrder(sellOrder, book);
    if skip {
      ResumeSkip(total, done, Lazy, instrumentId, buys, sells, fills, firstId, now, buys, sells[1..]);
      return false, [], fills;
    }

    if !CanMatch(buyOrder, sellOrder) {
      ResumeHalt(total, done, Lazy, instrumentId, buys, sells, fills, firstId, now);
      return true, [], fills;
    }

    var trade := CreateTrade(buyOrder, sellOrder, instrumentId, tradeId, now);
    traded := [trade];
    UpdateOrders(buyOrder, sellOrder, book);
    fills' := fills[buyOrder := buyOrder.State()][sellOrder := sellOrder.State()];
    forall o | o in fills' ensures o.State() == fills'[o] {
      if o != buyOrder && o != sellOrder {
        assert o.State() == fills[o];
      }
    }
    ResumeTrade(total, done, Lazy, instrumentId, buys, sells, fills, firstId, now,
                trade.quantity, book.buyOrders, book.sellOrders, fills', trade);
    return false, traded, fills';
  }
}
