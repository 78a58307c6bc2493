/**
 * OrderBookImpl: the self-contained order book with its own matching loop.  The
 * repository holds two copies of this class, one per package, that differ only
 * in how the two comparators are written; both are modelled by this one class.
 *
 * Cancelling reports whether the order was live and keeps it indexed; matching
 * polls stale heads and filled orders, sets the remaining quantity of both
 * orders of a trade and marks only an order that reaches 0 as FILLED.  The
 * `trades` field is never written after construction: the loop collects its
 * trades in a local list of the same name.
 */
module OrderBookImpls {
  import opened Wrappers
  import opened Model
  import opened PriceTime
  import opened Matching

  class OrderBookImpl {
    const instrumentId: InstrumentId
    var buyOrders: seq<Order>
    var sellOrders: seq<Order>
    var allOrders: map<OrderId, Order>
    var trades: seq<Trade>

    /** Both queues are well formed, and every queued order is indexed under its own id. */
    ghost predicate Valid()
      reads this
    {
      && Queue(BUY, buyOrders)
      && Queue(SELL, sellOrders)
      && (forall o :: o in buyOrders ==> o.orderId in allOrders && allOrders[o.orderId] == o)
      && (forall o :: o in sellOrders ==> o.orderId in allOrders && allOrders[o.orderId] == o)
      && (forall id :: id in allOrders ==> allOrders[id].orderId == id)
    }

    /** Every indexed order is for this book's instrument (the services route orders so). */
    predicate OwnOrders()
      reads this
    {
      forall id :: id in allOrders ==> allOrders[id].instrumentId == instrumentId
    }

    /** Remaining quantity and status of every queued order. */
    ghost function Fills(): map<Order, Fill>
      reads this, buyOrders, sellOrders
    {
      States(buyOrders + sellOrders)
    }

    constructor (instrumentId: InstrumentId)
      ensures Valid()
      ensures this.instrumentId == instrumentId
      ensures buyOrders == [] && sellOrders == [] && allOrders == map[] && trades == []
    {
      this.instrumentId := instrumentId;
      buyOrders := [];
      sellOrders := [];
      allOrders := map[];
      trades := [];
    }

    /** Queues the order on its own side and indexes it; the other side is unchanged. */
    method AddOrder(order: Order)
      requires Valid()
      requires order.orderId !in allOrders
      modifies this
      ensures Valid()
      ensures buyOrders == Offer(BUY, old(buyOrders), order) && sellOrders == Offer(SELL, old(sellOrders), order)
      ensures Fills() == old(Fills())[order := order.State()]
      ensures allOrders == old(allOrders)[order.orderId := order]
      ensures trades == old(trades)
    {
      OfferStates(buyOrders, sellOrders, order);
      if order.orderType == BUY {
        EnqueueKeepsQueue(BUY, buyOrders, order);
        EnqueueMembers(BUY, buyOrders, order);
        buyOrders := Enqueue(BUY, buyOrders, order);
      } else {
        EnqueueKeepsQueue(SELL, sellOrders, order);
        EnqueueMembers(SELL, sellOrders, order);
        sellOrders := Enqueue(SELL, sellOrders, order);
      }
      allOrders := allOrders[order.orderId := order];
    }

    /**
     * Unknown id: ORDER_NOT_FOUND.  Already CANCELLED: false and no change.
     * Otherwise the order becomes CANCELLED, leaves its queue, stays indexed,
     * and the answer is true.
     */
    method CancelOrder(orderId: OrderId) returns (r: Result<bool, TradingError>)
      requires Valid()
      modifies this, if orderId in allOrders then {allOrders[orderId]} else {}
      ensures Valid()
      ensures allOrders == old(allOrders) && trades == old(trades)
      ensures orderId !in allOrders ==>
        r == Failure(OrderNotFound(orderId)) && buyOrders == old(buyOrders) && sellOrders == old(sellOrders)
      ensures orderId in allOrders ==> r == Success(old(allOrders[orderId].status) != CANCELLED)
      ensures orderId in allOrders && old(allOrders[orderId].status) == CANCELLED ==>
        buyOrders == old(buyOrders) && sellOrders == old(sellOrders) && allOrders[orderId].status == CANCELLED
      ensures orderId in allOrders && old(allOrders[orderId].status) != CANCELLED ==>
        var o := allOrders[orderId];
        && o.status == CANCELLED
        && buyOrders == Remove(old(buyOrders), o) && sellOrders == Remove(old(sellOrders), o)
        && o !in buyOrders && o !in sellOrders
      ensures orderId in allOrders ==> allOrders[orderId].quantity == old(allOrders[orderId].quantity)
    {
      if orderId !in allOrders {
        return Failure(OrderNotFound(orderId));
      }
      var order := allOrders[orderId];
      if order.status == CANCELLED {
        return Success(false);
      }
      order.SetStatus(CANCELLED);
      if order.orderType == BUY {
        RemoveKeepsQueue(BUY, buyOrders, order);
        RemoveMembers(BUY, buyOrders, order);
        QueueSide(SELL, sellOrders);
        RemoveMembers(SELL, sellOrders, order);
        buyOrders := Remove(buyOrders, order);
      } else {
        RemoveKeepsQueue(SELL, sellOrders, order);
        RemoveMembers(SELL, sellOrders, order);
        QueueSide(BUY, buyOrders);
        RemoveMembers(BUY, buyOrders, order);
        sellOrders := Remove(sellOrders, order);
      }
      return Success(true);
    }

    /**
     * Matches the book while both queues are non-empty: the `Polling` pass of
     * Matching.Run, with trades in creation order.  Trade k gets id
     * `nextTradeId + k` and timestamp `now`; the `trades` field is unchanged.
     */
    method MatchOrders(nextTradeId: nat, now: nat) returns (matched: seq<Trade>)
      requires Valid()
      modifies this, buyOrders, sellOrders
      ensures Valid()
      ensures allOrders == old(allOrders) && trades == old(trades)
      ensures var pass := Run(Polling, instrumentId, old(buyOrders), old(sellOrders), old(Fills()), nextTradeId, now);
        && matched == pass.trades
        && buyOrders == pass.buys
        && sellOrders == pass.sells
        && pass.fills.Keys == old(Fills()).Keys
        && forall o :: o in pass.fills ==> o.State() == pass.fills[o]
    {
      ghost var fills := Fills();
      ghost var keys := fills.Keys;
      ghost var total := Run(Polling, instrumentId, buyOrders, sellOrders, fills, nextTradeId, now);
      ResumeStart(Polling, instrumentId, buyOrders, sellOrders, fills, nextTradeId, now);
      matched := [];
      while buyOrders != [] && sellOrders != []
        invariant Valid()
        invariant allOrders == old(allOrders) && trades == old(trades)
        invariant forall o :: o in keys ==> o in old(buyOrders) || o in old(sellOrders)
        invariant fills.Keys == keys
        invariant forall o :: o in fills ==> o.State() == fills[o]
        invariant Resumes(total, matched, Polling, instrumentId, buyOrders, sellOrders, fills, nextTradeId, now)
        decreases |buyOrders| + |sellOrders|
      {
        assert buyOrders[0] in keys && sellOrders[0] in keys;
        var halt, traded;
        halt, traded, fills := MatchHeads(nextTradeId + |matched|, now, fills, total, matched, nextTradeId);
        matched := matched + traded;
        if halt {
          return;
        }
      }
      ResumeHalt(total, matched, Polling, instrumentId, buyOrders, sellOrders, fills, nextTradeId, now);
    }

    /**
     * One turn of the loop: a stale head (CANCELLED or with nothing left) is
     * polled; two heads that cross and belong to different traders trade the
     * smaller remaining quantity at the sell price, and each one left with 0 is
     * polled and marked FILLED; otherwise the loop stops.  The turn is one step
     * of the `Polling` pass that has made the trades `done`, and every turn that
     * does not stop polls an order.
     */
    method MatchHeads(tradeId: nat, now: nat, ghost fills: map<Order, Fill>,
                      ghost total: Pass, ghost done: seq<Trade>, ghost firstId: nat)
      returns (halt: bool, traded: seq<Trade>, ghost fills': map<Order, Fill>)
      requires Valid() && buyOrders != [] && sellOrders != []
      requires forall o :: o in fills ==> o.State() == fills[o]
      requires tradeId == firstId + |done|
      requires Resumes(total, done, Polling, instrumentId, buyOrders, sellOrders, fills, firstId, now)
      modifies this, buyOrders[0], sellOrders[0]
      ensures Valid() && allOrders == old(allOrders) && trades == old(trades)
      ensures fills'.Keys == fills.Keys
      ensures forall o :: o in fills' ==> o.State() == fills'[o]
      ensures !halt ==> |buyOrders| + |sellOrders| < old(|buyOrders| + |sellOrders|)
      ensures Resumes(total, done + traded, Polling, instrumentId, buyOrders, sellOrders, fills', firstId, now)
      ensures halt ==> traded == [] && total == Pass(done, buyOrders, sellOrders, fills')
    {
      var buyOrder := buyOrders[0];
      var sellOrder := sellOrders[0];
      ghost var buys, sells := buyOrders, sellOrders;
      assert done + [] == done;

      if buyOrder.status == CANCELLED || buyOrder.quantity == 0 {
        ResumeSkip(total, done, Polling, instrumentId, buys, sells, fills, firstId, now, buys[1..], sells);
        buyOrders := buyOrders[1..];
        return false, [], fills;
      }
      if sellOrder.status == CANCELLED || sellOrder.quantity == 0 {
        ResumeSkip(total, done, Polling, instrumentId, buys, sells, fills, firstId, now, buys, sells[1..]);
        sellOrders := sellOrders[1..];
        return false, [], fills;
      }

      if buyOrder.price >= sellOrder.price && buyOrder.traderId != sellOrder.traderId {
        var quantity := Min(buyOrder.quantity, sellOrder.quantity);
        var price := sellOrder.price;
        var trade := Trade(tradeId, buyOrder.orderId, sellOrder.orderId, instrumentId, price, quantity, now);
        traded := [trade];

        ExecuteHeads(quantity);
        fills' := fills[buyOrder := buyOrder.State()][sellOrder := sellOrder.State()];
        forall o | o in fills' ensures o.State() == fills'[o] {
          if o != buyOrder && o != sellOrder {
            assert o.State() == fills[o];
          }
        }
        ResumeTrade(total, done, Polling, instrumentId, buys, sells, fills, firstId, now,
                    quantity, buyOrders, sellOrders, fills', trade);
        return false, traded, fills';
      } else {
        ResumeHalt(total, done, Polling, instrumentId, buys, sells, fills, firstId, now);
        return true, [], fills;
      }
    }

    /**
     * The trade branch of the loop: both heads lose `quantity`; a head left with
     * 0 is polled and marked FILLED, and one left with more keeps its status.
     */
    method ExecuteHeads(quantity: int)
      requires Valid() && buyOrders != [] && sellOrders != []
      requires quantity == Min(buyOrders[0].quantity, sellOrders[0].quantity)
      modifies this, buyOrders[0], sellOrders[0]
      ensures Valid() && allOrders == old(allOrders) && trades == old(trades)
      ensures var b, s := old(buyOrders[0]), old(sellOrders[0]);
        && b.State() == Traded(Polling, old(b.State()), quantity)
        && s.State() == Traded(Polling, old(s.State()), quantity)
        && buyOrders == (if b.quantity == 0 then old(buyOrders)[1..] else old(buyOrders))
        && sellOrders == (if s.quantity == 0 then old(sellOrders)[1..] else old(sellOrders))
    {
      var buyOrder := buyOrders[0];
      var sellOrder := sellOrders[0];
      assert buyOrder.orderType == BUY && sellOrder.orderType == SELL;
      buyOrder.SetQuantity(buyOrder.quantity - quantity);
      sellOrder.SetQuantity(sellOrder.quantity - quantity);
      if buyOrder.quantity == 0 {
        buyOrders := buyOrders[1..];
        buyOrder.SetStatus(FILLED);
      }
      if sellOrder.quantity == 0 {
        sellOrders := sellOrders[1..];
        sellOrder.SetStatus(FILLED);
      }
    }

    /** The head of the buy queue; None (Java's null) when there is no buy order. */
    function GetBestBuyOrder(): (r: Option<Order>)
      reads this
      ensures r.None? <==> buyOrders == []
      ensures r.Some? ==> r.value in buyOrders
    {
      if buyOrders == [] then None else Some(buyOrders[0])
    }

    /** The head of the sell queue; None (Java's null) when there is no sell order. */
    function GetBestSellOrder(): (r: Option<Order>)
      reads this
      ensures r.None? <==> sellOrders == []
      ensures r.Some? ==> r.value in sellOrders
    {
      if sellOrders == [] then None else Some(sellOrders[0])
    }

    /**
     * The best buy order is the highest bid, the earliest among equally priced
     * ones; the best sell order is the lowest ask, the earliest among equally
     * priced ones.
     */
    lemma BestOrdersFirst()
      requires Valid()
      ensures GetBestBuyOrder().Some? ==> forall o :: o in buyOrders ==> BuyFirst(GetBestBuyOrder().value, o)
      ensures GetBestSellOrder().Some? ==> forall o :: o in sellOrders ==> SellFirst(GetBestSellOrder().value, o)
    {
      if buyOrders != [] {
        HeadFirst(BUY, buyOrders);
      }
      if sellOrders != [] {
        HeadFirst(SELL, sellOrders);
      }
    }

    /** A copy of the buy queue: the same orders, each once, all of them buy orders. */
    function GetBuyOrders(): (r: seq<Order>)
      requires Valid()
      reads this
      ensures multiset(r) == multiset(buyOrders)
      ensures forall o :: o in r ==> o.orderType == BUY
      ensures forall i, j :: 0 <= i < j < |r| ==> r[i] != r[j]
    {
      QueueSide(BUY, buyOrders);
      QueueOrdered(BUY, buyOrders);
      buyOrders
    }

    /** A copy of the sell queue: the same orders, each once, all of them sell orders. */
    function GetSellOrders(): (r: seq<Order>)
      requires Valid()
      reads this
      ensures multiset(r) == multiset(sellOrders)
      ensures forall o :: o in r ==> o.orderType == SELL
      ensures forall i, j :: 0 <= i < j < |r| ==> r[i] != r[j]
    {
      QueueSide(SELL, sellOrders);
      QueueOrdered(SELL, sellOrders);
      sellOrders
    }
  }
}
