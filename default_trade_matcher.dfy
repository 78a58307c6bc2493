/**
 * DefaultTradeMatcher.match, the matching loop that InMemoryOrderBook.matchOrders
 * delegates to.  It is proved to perform exactly the `Lazy` pass of Matching.Run.
 */
module DefaultTradeMatcher {
  import opened Model
  import opened PriceTime
  import opened Matching
  import opened InMemoryOrderBooks
  import opened TradeMatchers

  /**
   * Matches the book: trades come back in creation order, the queues are left as
   * the pass leaves them, and every order queued at the start ends in the state
   * the pass gives it (seen through the queues, the index and the caller alike).
   * Trade k gets id `nextTradeId + k` and timestamp `now`.
   */
  method Match(book: InMemoryOrderBook, instrumentId: InstrumentId, nextTradeId: nat, now: nat)
    returns (trades: seq<Trade>)
    requires book.Valid()
    modifies book, book.buyOrders, book.sellOrders
    ensures book.Valid()
    ensures book.allOrders == old(book.allOrders)
    ensures var pass := Run(Lazy, instrumentId, old(book.buyOrders), old(book.sellOrders), old(book.Fills()), nextTradeId, now);
      && trades == pass.trades
      && book.buyOrders == pass.buys
      && book.sellOrders == pass.sells
      && pass.fills.Keys == old(book.Fills()).Keys
      && forall o :: o in pass.fills ==> o.State() == pass.fills[o]
  {
    ghost var fills := book.Fills();
    ghost var keys := fills.Keys;
    ghost var total := Run(Lazy, instrumentId, book.buyOrders, book.sellOrders, fills, nextTradeId, now);
    ResumeStart(Lazy, instrumentId, book.buyOrders, book.sellOrders, fills, nextTradeId, now);
    trades := [];
    while book.HasMatchingOrders()
      invariant book.Valid()
      invariant book.allOrders == old(book.allOrders)
      invariant forall o :: o in keys ==> o in old(book.buyOrders) || o in old(book.sellOrders)
      invariant fills.Keys == keys
      invariant forall o :: o in fills ==> o.State() == fills[o]
      invariant Resumes(total, trades, Lazy, instrumentId, book.buyOrders, book.sellOrders, fills, nextTradeId, now)
      decreases |book.buyOrders| + |book.sellOrders|
    {
      assert book.buyOrders[0] in keys && book.sellOrders[0] in keys;
      var halt, traded;
      halt, traded, fills := MatchHeads(book, instrumentId, nextTradeId + |trades|, now, fills, total, trades, nextTradeId);
      trades := trades + traded;
      if halt {
        break;
      }
    }
    if !book.HasMatchingOrders() {
      ResumeHalt(total, trades, Lazy, instrumentId, book.buyOrders, book.sellOrders, fills, nextTradeId, now);
    }
  }

  /**
   * One turn of the loop: a stale head (CANCELLED or with nothing left) is taken
   * out of its queue; two heads that cross and belong to different traders trade
   * the smaller remaining quantity at the sell price; otherwise the loop halts.
   * The turn is one step of the `Lazy` pass that has made the trades `done`, and
   * every turn that does not halt takes at least one order out of the queues.
   */
  method MatchHeads(book: InMemoryOrderBook, instrumentId: InstrumentId, tradeId: nat, now: nat,
                    ghost fills: map<Order, Fill>, ghost total: Pass, ghost done: seq<Trade>, ghost firstId: nat)
    returns (halt: bool, traded: seq<Trade>, ghost fills': map<Order, Fill>)
    requires book.Valid() && book.HasMatchingOrders()
    requires forall o :: o in fills ==> o.State() == fills[o]
    requires tradeId == firstId + |done|
    requires Resumes(total, done, Lazy, instrumentId, book.buyOrders, book.sellOrders, fills, firstId, now)
    modifies book, book.buyOrders[0], book.sellOrders[0]
    ensures book.Valid() && book.allOrders == old(book.allOrders)
    ensures fills'.Keys == fills.Keys
    ensures forall o :: o in fills' ==> o.State() == fills'[o]
    ensures !halt ==> |book.buyOrders| + |book.sellOrders| < old(|book.buyOrders| + |book.sellOrders|)
    ensures Resumes(total, done + traded, Lazy, instrumentId, book.buyOrders, book.sellOrders, fills', firstId, now)
    ensures halt ==> traded == [] && total == Pass(done, book.buyOrders, book.sellOrders, fills')
  {
    var buyOrder := book.BestBuyOrder().value;
    var sellOrder := book.BestSellOrder().value;
    ghost var buys, sells := book.buyOrders, book.sellOrders;
    assert done + [] == done;

    if buyOrder.status == CANCELLED || buyOrder.quantity == 0 {
      ResumeSkip(total, done, Lazy, instrumentId, buys, sells, fills, firstId, now, buys[1..], sells);
      book.RemoveOrder(buyOrder);
      return false, [], fills;
    }
    if sellOrder.status == CANCELLED || sellOrder.quantity == 0 {
      ResumeSkip(total, done, Lazy, instrumentId, buys, sells, fills, firstId, now, buys, sells[1..]);
      book.RemoveOrder(sellOrder);
      return false, [], fills;
    }

    if buyOrder.price >= sellOrder.price && buyOrder.traderId != sellOrder.traderId {
      var executedQuantity := Min(buyOrder.quantity, sellOrder.quantity);
      var executionPrice := sellOrder.price;
      var trade := Trade(tradeId, buyOrder.orderId, sellOrder.orderId,
                         instrumentId, executionPrice, executedQuantity, now);
      traded := [trade];

      UpdateOrders(buyOrder, sellOrder, book);
      fills' := fills[buyOrder := buyOrder.State()][sellOrder := sellOrder.State()];
      forall o | o in fills' ensures o.State() == fills'[o] {
        if o != buyOrder && o != sellOrder {
          assert o.State() == fills[o];
        }
      }
      ResumeTrade(total, done, Lazy, instrumentId, buys, sells, fills, firstId, now,
                  executedQuantity, book.buyOrders, book.sellOrders, fills', trade);
      return false, traded, fills';
    } else {
      ResumeHalt(total, done, Lazy, instrumentId, buys, sells, fills, firstId, now);
      return true, [], fills;
    }
  }
}
