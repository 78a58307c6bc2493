/**
 * The market price of an instrument.  Two rules appear in the source:
 *
 *   - the calculators (MidPriceCalculator and MarketPriceCalculator, identical
 *     bodies) answer 0 unless both sides of the book have a best order, and the
 *     mid of the two best prices otherwise;
 *   - the services' `updateMarketPrice` (TradingServiceImpl and TradingService)
 *     answer the mid with both sides, the one side's price with one side, and 0
 *     with none.
 *
 * The mid is `(buy + sell).divide(2, HALF_UP)`, which keeps the scale of the
 * sum.  Prices are integer ticks of that scale, so the division is by 2 in ticks,
 * with an exact half rounded away from zero.
 */
module MarketPrices {
  import opened Wrappers
  import opened Model
  import opened InMemoryOrderBooks

  /** The sum of two prices halved, HALF_UP: an odd sum is moved one tick away from zero first. */
  function HalfUpMid(buyPrice: int, sellPrice: int): (r: int)
    ensures (buyPrice + sellPrice) % 2 == 0 ==> 2 * r == buyPrice + sellPrice
    ensures (buyPrice + sellPrice) % 2 == 1 && buyPrice + sellPrice > 0 ==> 2 * r == buyPrice + sellPrice + 1
    ensures (buyPrice + sellPrice) % 2 == 1 && buyPrice + sellPrice < 0 ==> 2 * r == buyPrice + sellPrice - 1
  {
    var sum := buyPrice + sellPrice;
    if sum >= 0 then (sum + 1) / 2 else -((-sum + 1) / 2)
  }

  /** The mid does not depend on which price is the bid. */
  lemma HalfUpMidSymmetric(a: int, b: int)
    ensures HalfUpMid(a, b) == HalfUpMid(b, a)
  {
  }

  /** The mid lies between the two prices. */
  lemma HalfUpMidBetween(a: int, b: int)
    ensures a <= b ==> a <= HalfUpMid(a, b) <= b
    ensures b <= a ==> b <= HalfUpMid(a, b) <= a
  {
    var r := HalfUpMid(a, b);
    assert 2 * r - (a + b) <= 1 && (a + b) - 2 * r <= 1;
  }

  /** The mid of a price with itself is that price. */
  lemma HalfUpMidSame(a: int)
    ensures HalfUpMid(a, a) == a
  {
  }

  /**
   * Worked values: the two service tests (110 and 100 give 105, 80 and 100 give
   * 90), and the two directions of rounding a half.
   */
  lemma HalfUpMidExamples()
    ensures HalfUpMid(110, 100) == 105
    ensures HalfUpMid(80, 100) == 90
    ensures HalfUpMid(101, 100) == 101
    ensures HalfUpMid(-101, 100) == -1
  {
  }

  /**
   * `calculateMarketPrice` of both calculators: always present; 0 when either
   * best order is missing, the mid of the two best prices otherwise.  It only
   * reads the book.
   */
  function CalculateMarketPrice(book: InMemoryOrderBook): (r: Option<int>)
    reads book
    ensures r.Some?
    ensures book.BestBuyOrder().None? || book.BestSellOrder().None? ==> r == Some(0)
  {
    var bestBuy := book.BestBuyOrder();
    var bestSell := book.BestSellOrder();
    if bestBuy.None? || bestSell.None? then Some(0)
    else Some(HalfUpMid(bestBuy.value.price, bestSell.value.price))
  }

  /** With both sides present, the calculated price lies between the best bid and the best ask. */
  lemma CalculateMarketPriceBetween(book: InMemoryOrderBook)
    requires book.buyOrders != [] && book.sellOrders != []
    ensures var b, s, r := book.buyOrders[0].price, book.sellOrders[0].price, CalculateMarketPrice(book).value;
      && (b <= s ==> b <= r <= s)
      && (s <= b ==> s <= r <= b)
      && 2 * r - (b + s) <= 1 && (b + s) - 2 * r <= 1
  {
    HalfUpMidBetween(book.buyOrders[0].price, book.sellOrders[0].price);
  }

  /**
   * `updateMarketPrice` of both services, from the best buy and best sell
   * orders (null when a side is empty).
   */
  function ServicePrice(bestBuy: Option<Order>, bestSell: Option<Order>): (r: int)
    ensures bestBuy.None? && bestSell.None? ==> r == 0
    ensures bestBuy.Some? && bestSell.None? ==> r == bestBuy.value.price
    ensures bestBuy.None? && bestSell.Some? ==> r == bestSell.value.price
  {
    if bestBuy.Some? && bestSell.Some? then HalfUpMid(bestBuy.value.price, bestSell.value.price)
    else if bestBuy.Some? then bestBuy.value.price
    else if bestSell.Some? then bestSell.value.price
    else 0
  }

  /**
   * The services and the calculator agree on a book with both sides, and
   * disagree on a book with one side whose best price is not 0: the calculator
   * answers 0, the services that side's price.
   */
  lemma ServicePriceVersusCalculator(book: InMemoryOrderBook)
    ensures book.buyOrders != [] && book.sellOrders != [] ==>
      ServicePrice(book.BestBuyOrder(), book.BestSellOrder()) == CalculateMarketPrice(book).value
    ensures book.buyOrders == [] && book.sellOrders != [] && book.sellOrders[0].price != 0 ==>
      ServicePrice(book.BestBuyOrder(), book.BestSellOrder()) != CalculateMarketPrice(book).value
    ensures book.buyOrders != [] && book.sellOrders == [] && book.buyOrders[0].price != 0 ==>
      ServicePrice(book.BestBuyOrder(), book.BestSellOrder()) != CalculateMarketPrice(book).value
  {
  }

  /** The service price with both sides lies between the two best prices, in either order. */
  lemma ServicePriceBetween(bestBuy: Order, bestSell: Order)
    ensures var r := ServicePrice(Some(bestBuy), Some(bestSell));
      && r == ServicePrice(Some(bestSell), Some(bestBuy))
      && (bestBuy.price <= bestSell.price ==> bestBuy.price <= r <= bestSell.price)
      && (bestSell.price <= bestBuy.price ==> bestSell.price <= r <= bestBuy.price)
  {
    HalfUpMidSymmetric(bestBuy.price, bestSell.price);
    HalfUpMidBetween(bestBuy.price, bestSell.price);
  }
}
