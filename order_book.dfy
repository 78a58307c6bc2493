/**
 * OrderBook: the older order book class.  Its index holds exactly the queued
 * orders: cancelling an order and filling an order take it out of both its
 * queue and the index.  Matching has no stale check and no trader check, sets
 * PARTIALLY_FILLED or FILLED on both orders of every trade, and appends every
 * trade to the book's persistent history as well as to the returned list.
 */
module OrderBooks {
  import opened Wrappers
  import opened Model
  import opened PriceTime
  import opened Matching

  class OrderBook {
    const instrumentId: InstrumentId
    var buyOrders: seq<Order>
    var sellOrders: seq<Order>
    var allOrders: map<OrderId, Order>
    var trades: seq<Trade>

    /** Both queues are well formed, and the index maps the id of each queued order to it and nothing else. */
    ghost predicate Valid()
      reads this
    {
      && Queue(BUY, buyOrders)
      && Queue(SELL, sellOrders)
      && (forall o :: o in buyOrders ==> o.orderId in allOrders && allOrders[o.orderId] == o)
      && (forall o :: o in sellOrders ==> o.orderId in allOrders && allOrders[o.orderId] == o)
      && (forall id :: id in allOrders ==> allOrders[id].orderId == id)
      && (forall id :: id in allOrders ==> allOrders[id] in buyOrders || allOrders[id] in sellOrders)
    }

    /** Remaining quantity and status of every queued order. */
    ghost function Fills(): map<Order, Fill>
      reads this, buyOrders, sellOrders
    {
      States(buyOrders + sellOrders)
    }

    constructor (instrumentId: InstrumentId)
      ensures Valid()
      ensures this.instrumentId == instrumentId
      ensures buyOrders == [] && sellOrders == [] && allOrders == map[] && trades == []
    {
      this.instrumentId := instrumentId;
      buyOrders := [];
      sellOrders := [];
      allOrders := map[];
      trades := [];
    }

    /** Queues the order on its own side and indexes it; the other side is unchanged. */
    method AddOrder(order: Order)
      requires Valid()
      requires order.orderId !in allOrders
      modifies this
      ensures Valid()
      ensures buyOrders == Offer(BUY, old(buyOrders), order) && sellOrders == Offer(SELL, old(sellOrders), order)
      ensures Fills() == old(Fills())[order := order.State()]
      ensures allOrders == old(allOrders)[order.orderId := order]
      ensures trades == old(trades)
    {
      OfferStates(buyOrders, sellOrders, order);
      if order.orderType == BUY {
        EnqueueKeepsQueue(BUY, buyOrders, order);
        EnqueueMembers(BUY, buyOrders, order);
        buyOrders := Enqueue(BUY, buyOrders, order);
      } else {
        EnqueueKeepsQueue(SELL, sellOrders, order);
        EnqueueMembers(SELL, sellOrders, order);
        sellOrders := Enqueue(SELL, sellOrders, order);
      }
      allOrders := allOrders[order.orderId := order];
    }

    /**
     * Unknown id: false and no change.  Otherwise the order becomes CANCELLED and
     * leaves both its queue and the index, so cancelling it again answers false.
     */
    method CancelOrder(orderId: OrderId) returns (cancelled: bool)
      requires Valid()
      modifies this, if orderId in allOrders then {allOrders[orderId]} else {}
      ensures Valid()
      ensures trades == old(trades)
      ensures cancelled <==> orderId in old(allOrders)
      ensures allOrders == old(allOrders) - {orderId}
      ensures !cancelled ==> buyOrders == old(buyOrders) && sellOrders == old(sellOrders)
      ensures cancelled ==>
        var o := old(allOrders[orderId]);
        && o.status == CANCELLED && o.quantity == old(o.quantity)
        && buyOrders == Remove(old(buyOrders), o) && sellOrders == Remove(old(sellOrders), o)
        && o !in buyOrders && o !in sellOrders
    {
      if orderId !in allOrders {
        return false;
      }
      var order := allOrders[orderId];
      order.SetStatus(CANCELLED);
      if order.orderType == BUY {
        RemoveKeepsQueue(BUY, buyOrders, order);
        RemoveMembers(BUY, buyOrders, order);
        QueueSide(SELL, sellOrders);
        RemoveMembers(SELL, sellOrders, order);
        buyOrders := Remove(buyOrders, order);
      } else {
        RemoveKeepsQueue(SELL, sellOrders, order);
        RemoveMembers(SELL, sellOrders, order);
        QueueSide(BUY, buyOrders);
        RemoveMembers(BUY, buyOrders, order);
        sellOrders := Remove(sellOrders, order);
      }
      allOrders := allOrders - {orderId};
      return true;
    }

    /**
     * Matches the book while both queues are non-empty: the `Legacy` pass of
     * Matching.Run.  The trades come back in creation order and are appended to
     * the history; the index keeps exactly the orders still queued.  Trade k
     * gets id `nextTradeId + k` and timestamp `now`.
     */
    method MatchOrders(nextTradeId: nat, now: nat) returns (executedTrades: seq<Trade>)
      requires Valid()
      modifies this, buyOrders, sellOrders
      ensures Valid()
      ensures trades == old(trades) + executedTrades
      ensures forall id :: id in allOrders ==> id in old(allOrders) && allOrders[id] == old(allOrders)[id]
      ensures var pass := Run(Legacy, instrumentId, old(buyOrders), old(sellOrders), old(Fills()), nextTradeId, now);
        && executedTrades == pass.trades
        && buyOrders == pass.buys
        && sellOrders == pass.sells
        && pass.fills.Keys == old(Fills()).Keys
        && forall o :: o in pass.fills ==> o.State() == pass.fills[o]
    {
      ghost var fills := Fills();
      ghost var keys := fills.Keys;
      ghost var total := Run(Legacy, instrumentId, buyOrders, sellOrders, fills, nextTradeId, now);
      ResumeStart(Legacy, instrumentId, buyOrders, sellOrders, fills, nextTradeId, now);
      executedTrades := [];
      while buyOrders != [] && sellOrders != []
        invariant Valid()
        invariant trades == old(trades) + executedTrades
        invariant forall id :: id in allOrders ==> id in old(allOrders) && allOrders[id] == old(allOrders)[id]
        invariant forall o :: o in keys ==> o in old(buyOrders) || o in old(sellOrders)
        invariant fills.Keys == keys
        invariant forall o :: o in fills ==> o.State() == fills[o]
        invariant Resumes(total, executedTrades, Legacy, instrumentId, buyOrders, sellOrders, fills, nextTradeId, now)
        decreases |buyOrders| + |sellOrders|
      {
        assert buyOrders[0] in keys && sellOrders[0] in keys;
        var halt, traded;
        halt, traded, fills := MatchHeads(nextTradeId + |executedTrades|, now, fills, total, executedTrades, nextTradeId);
        AppendAssoc(old(trades), executedTrades, traded);
        executedTrades := executedTrades + traded;
        if halt {
          return;
        }
      }
      ResumeHalt(total, executedTrades, Legacy, instrumentId, buyOrders, sellOrders, fills, nextTradeId, now);
    }

    /**
     * One turn of the loop: two heads that cross trade the smaller remaining
     * quantity at the sell price, whoever placed them; otherwise the loop stops.
     * The turn is one step of the `Legacy` pass, and every trade fills at least
     * one of the two heads.
     */
    method MatchHeads(tradeId: nat, now: nat, ghost fills: map<Order, Fill>,
                      ghost total: Pass, ghost done: seq<Trade>, ghost firstId: nat)
      returns (halt: bool, traded: seq<Trade>, ghost fills': map<Order, Fill>)
      requires Valid() && buyOrders != [] && sellOrders != []
      requires forall o :: o in fills ==> o.State() == fills[o]
      requires tradeId == firstId + |done|
      requires Resumes(total, done, Legacy, instrumentId, buyOrders, sellOrders, fills, firstId, now)
      modifies this, buyOrders[0], sellOrders[0]
      ensures Valid() && trades == old(trades) + traded
      ensures forall id :: id in allOrders ==> id in old(allOrders) && allOrders[id] == old(allOrders)[id]
      ensures fills'.Keys == fills.Keys
      ensures forall o :: o in fills' ==> o.State() == fills'[o]
      ensures !halt ==> |buyOrders| + |sellOrders| < old(|buyOrders| + |sellOrders|)
      ensures Resumes(total, done + traded, Legacy, instrumentId, buyOrders, sellOrders, fills', firstId, now)
      ensures halt ==> traded == [] && total == Pass(done, buyOrders, sellOrders, fills')
    {
      var buy := buyOrders[0];
      var sell := sellOrders[0];
      ghost var buys, sells := buyOrders, sellOrders;

      if buy.price >= sell.price {
        var tradeQty := Min(buy.quantity, sell.quantity);
        var tradePrice := sell.price;
        var trade := Trade(tradeId, buy.orderId, sell.orderId, instrumentId, tradePrice, tradeQty, now);
        traded := [trade];
        trades := trades + [trade];

        ExecuteHeads(tradeQty);
        fills' := fills[buy := buy.State()][sell := sell.State()];
        forall o | o in fills' ensures o.State() == fills'[o] {
          if o != buy && o != sell {
            assert o.State() == fills[o];
          }
        }
        ResumeTrade(total, done, Legacy, instrumentId, buys, sells, fills, firstId, now,
                    tradeQty, buyOrders, sellOrders, fills', trade);
        return false, traded, fills';
      } else {
        ResumeHalt(total, done, Legacy, instrumentId, buys, sells, fills, firstId, now);
        assert done + [] == done && trades + [] == trades;
        return true, [], fills;
      }
    }

    /**
     * The trade branch of the loop: both heads lose `quantity`; a head left with
     * 0 becomes FILLED and leaves its queue and the index, one left with more
     * becomes PARTIALLY_FILLED.
     */
    method ExecuteHeads(quantity: int)
      requires Valid() && buyOrders != [] && sellOrders != []
      requires quantity == Min(buyOrders[0].quantity, sellOrders[0].quantity)
      modifies this, buyOrders[0], sellOrders[0]
      ensures Valid() && trades == old(trades)
      ensures var b, s := old(buyOrders[0]), old(sellOrders[0]);
        && b.State() == Traded(Legacy, old(b.State()), quantity)
        && s.State() == Traded(Legacy, old(s.State()), quantity)
        && buyOrders == (if b.quantity == 0 then old(buyOrders)[1..] else old(buyOrders))
        && sellOrders == (if s.quantity == 0 then old(sellOrders)[1..] else old(sellOrders))
        && allOrders == old(allOrders) - (if b.quantity == 0 then {b.orderId} else {})
                                       - (if s.quantity == 0 then {s.orderId} else {})
    {
      var buy := buyOrders[0];
      var sell := sellOrders[0];
      buy.SetQuantity(buy.quantity - quantity);
      sell.SetQuantity(sell.quantity - quantity);
      SettleBuyHead();
      SettleSellHead();
    }

    /** A buy head left with 0 becomes FILLED and leaves its queue and the index; otherwise it becomes PARTIALLY_FILLED. */
    method SettleBuyHead()
      requires Valid() && buyOrders != []
      modifies this, buyOrders[0]
      ensures Valid() && trades == old(trades) && sellOrders == old(sellOrders)
      ensures var b := old(buyOrders[0]);
        && b.quantity == old(b.quantity) && b.status == ExecutedStatus(b.quantity)
        && buyOrders == (if b.quantity == 0 then old(buyOrders)[1..] else old(buyOrders))
        && allOrders == (if b.quantity == 0 then old(allOrders) - {b.orderId} else old(allOrders))
    {
      var buy := buyOrders[0];
      if buy.quantity == 0 {
        buy.SetStatus(FILLED);
        QueueSide(SELL, sellOrders);
        buyOrders := buyOrders[1..];
        allOrders := allOrders - {buy.orderId};
      } else {
        buy.SetStatus(PARTIALLY_FILLED);
      }
    }

    /** A sell head left with 0 becomes FILLED and leaves its queue and the index; otherwise it becomes PARTIALLY_FILLED. */
    method SettleSellHead()
      requires Valid() && sellOrders != []
      modifies this, sellOrders[0]
      ensures Valid() && trades == old(trades) && buyOrders == old(buyOrders)
      ensures var s := old(sellOrders[0]);
        && s.quantity == old(s.quantity) && s.status == ExecutedStatus(s.quantity)
        && sellOrders == (if s.quantity == 0 then old(sellOrders)[1..] else old(sellOrders))
        && allOrders == (if s.quantity == 0 then old(allOrders) - {s.orderId} else old(allOrders))
    {
      var sell := sellOrders[0];
      if sell.quantity == 0 {
        sell.SetStatus(FILLED);
        QueueSide(BUY, buyOrders);
        sellOrders := sellOrders[1..];
        allOrders := allOrders - {sell.orderId};
      } else {
        sell.SetStatus(PARTIALLY_FILLED);
      }
    }

    /** The head of the buy queue; None (Java's null) when there is no buy order. */
    function GetBestBuyOrder(): (r: Option<Order>)
      reads this
      ensures r.None? <==> buyOrders == []
      ensures r.Some? ==> r.value in buyOrders
    {
      if buyOrders == [] then None else Some(buyOrders[0])
    }

    /** The head of the sell queue; None (Java's null) when there is no sell order. */
    function GetBestSellOrder(): (r: Option<Order>)
      reads this
      ensures r.None? <==> sellOrders == []
      ensures r.Some? ==> r.value in sellOrders
    {
      if sellOrders == [] then None else Some(sellOrders[0])
    }

    /**
     * The best buy order is the highest bid, the earliest among equally priced
     * ones; the best sell order is the lowest ask, the earliest among equally
     * priced ones.
     */
    lemma BestOrdersFirst()
      requires Valid()
      ensures GetBestBuyOrder().Some? ==> forall o :: o in buyOrders ==> BuyFirst(GetBestBuyOrder().value, o)
      ensures GetBestSellOrder().Some? ==> forall o :: o in sellOrders ==> SellFirst(GetBestSellOrder().value, o)
    {
      if buyOrders != [] {
        HeadFirst(BUY, buyOrders);
      }
      if sellOrders != [] {
        HeadFirst(SELL, sellOrders);
      }
    }

    /** A copy of the buy queue: the same orders, each once, all of them buy orders. */
    function GetBuyOrders(): (r: seq<Order>)
      requires Valid()
      reads this
      ensures multiset(r) == multiset(buyOrders)
      ensures forall o :: o in r ==> o.orderType == BUY
      ensures forall i, j :: 0 <= i < j < |r| ==> r[i] != r[j]
    {
      QueueSide(BUY, buyOrders);
      QueueOrdered(BUY, buyOrders);
      buyOrders
    }

    /** A copy of the sell queue: the same orders, each once, all of them sell orders. */
    function GetSellOrders(): (r: seq<Order>)
      requires Valid()
      reads this
      ensures multiset(r) == multiset(sellOrders)
      ensures forall o :: o in r ==> o.orderType == SELL
      ensures forall i, j :: 0 <= i < j < |r| ==> r[i] != r[j]
    {
      QueueSide(SELL, sellOrders);
      QueueOrdered(SELL, sellOrders);
      sellOrders
    }
  }
}
