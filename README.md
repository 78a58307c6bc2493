# TradingSystem order books, matching and market price in Dafny

This project models the core of the TradingSystem service. That core is the per-instrument order book with its price-time matching loop, the market-price rule, and the trading service that routes orders to books.

The repository keeps two generations of the code side by side, and each is modelled as written:

- `InMemoryOrderBook`, matched by `DefaultTradeMatcher` or `TradeMatcher`, and priced by `MidPriceCalculator` / `MarketPriceCalculator`;
- `OrderBookImpl`, the self-contained book with its own matching loop, used by `TradingServiceImpl`;
- the older `OrderBook` class, used by the class `TradingService`. In the source, `TradingService` sits in the package whose `OrderBook` is an interface, so its `new OrderBook(...)` and null checks do not compile as written. The model binds it to the older `OrderBook` class, whose API its calls match.

How the pieces fit:

- **Orders** (`Model.Order`) are objects. Java shares one order between a book's queue, its index and the caller, so a change made by matching or cancelling is seen through all three. Prices are integer ticks at one fixed scale. Quantities are Java `int`s, which may be 0 or negative.
- **Queues** are sequences kept sorted under the side's comparator (`PriceTime`):
  - buys by price descending, then timestamp ascending;
  - sells by price ascending, then timestamp ascending.

  The head of a queue is what `peek` returns.
- **The matching loop** is one specification function, `Matching.Run`, which takes an `Engine`:
  - `Lazy` for the two matchers over an `InMemoryOrderBook`: it loops while the best bid reaches the best ask and removes stale heads;
  - `Polling` for `OrderBookImpl.matchOrders`: it loops while both sides are non-empty, polls stale heads, and sets FILLED only at 0;
  - `Legacy` for the older `OrderBook.matchOrders`: it has no stale check and no trader check, and it keeps a trade history.

  Every loop in the code is a Dafny `while` loop proved to perform exactly that pass. `MatchingProperties` proves what every pass guarantees: queues lose only their fronts, the pass stops only where the loop stops, trade ids and pairing are correct, per-side conservation holds, and, when no quantity starts negative, no quantity rises.
- **The market price**:
  - the calculators give the HALF_UP mid, or 0 when a side is missing;
  - the services give the mid, the single side's price, or 0.
- **The services** keep maps from instrument id to book and to instrument. They refresh the instrument's cached price after placing and after cancelling.

Trade ids (`UUID.randomUUID()`) and timestamps (`LocalDateTime.now()`) are parameters. A pass numbers its trades `nextTradeId, nextTradeId + 1, …` and stamps them all with `now`.

## Model

| member | source | states |
|---|---|---|
| Model.Order.constructor | src/main/java/com/example/trading_system/model/Order.java:37-46 | a new order is OPEN, carries the given quantity, price and ids, and neither quantity nor price is validated |
| Model.Order.SetQuantity | src/main/java/com/example/trading_system/model/Order.java:72-74 | sets the quantity and leaves the status alone (all other fields are `const`) |
| Model.Order.SetStatus | src/main/java/com/example/trading_system/model/Order.java:80-82 | sets the status and leaves the quantity alone |
| Model.Order.Execute | src/test/java/com/example/trading_system/service/InMemoryOrderBookTest.java:86-89 | executing n units lowers the quantity by n; the order is FILLED exactly when nothing is left, PARTIALLY_FILLED otherwise |
| Model.Instrument.constructor | src/main/java/com/example/trading_system/model/Instrument.java:25-29 | a new instrument has market price 0 |
| Model.Instrument.SetMarketPrice | src/main/java/com/example/trading_system/model/Instrument.java:43-45 | the cached price becomes the given one |
| PriceTime.Enqueue | src/main/java/com/example/trading_system/service/InMemoryOrderBook.java:44-48 | offering to a queue adds exactly one entry |
| PriceTime.Remove | src/main/java/com/example/trading_system/service/InMemoryOrderBook.java:113-120 | removing drops one entry if the order is queued and none otherwise |
| PriceTime.Offer | src/main/java/com/example/trading_system/service/InMemoryOrderBook.java:44-48 | an order grows only the queue of its own side; the other queue is unchanged |
| PriceTime.Head | src/main/java/com/example/trading_system/service/InMemoryOrderBook.java:88-96 | `peek`: absent exactly when the queue is empty, otherwise a queued order |
| PriceTime.OfferStates | src/main/java/com/example/trading_system/service/InMemoryOrderBook.java:42-50 | adding an order adds exactly its own state to the states of the queued orders |
| PriceTime.FirstTransitive | src/main/java/com/example/trading_system/service/InMemoryOrderBook.java:31-36 | both comparators (price, then timestamp) are transitive |
| PriceTime.FirstTotal | src/main/java/com/example/trading_system/service/InMemoryOrderBook.java:31-36 | both comparators are total: of two orders, one comes first |
| PriceTime.HeadFirst | src/main/java/com/example/trading_system/service/InMemoryOrderBook.java:88-96 | the head of a well-formed queue comes first against every queued order |
| PriceTime.QueueOrdered | src/main/java/com/example/trading_system/service/InMemoryOrderBook.java:31-36 | a queue is sorted by its comparator and holds no order twice |
| PriceTime.QueueSide | src/main/java/com/example/trading_system/service/InMemoryOrderBook.java:44-48 | every order in a side's queue is of that side |
| PriceTime.EnqueueMembers | src/main/java/com/example/trading_system/service/InMemoryOrderBook.java:44-48 | after `offer`, the queue holds exactly the old orders plus the new one |
| PriceTime.EnqueuePermutes | src/main/java/com/example/trading_system/service/InMemoryOrderBook.java:44-48 | `offer` is a permutation of old queue plus the new order |
| PriceTime.EnqueueKeepsQueue | src/main/java/com/example/trading_system/service/InMemoryOrderBook.java:31-36 | `offer` of a new order of the right side keeps the queue sorted and duplicate-free |
| PriceTime.RemoveMembers | src/main/java/com/example/trading_system/service/InMemoryOrderBook.java:113-120 | after `remove`, the queue holds exactly the other orders, and removing an absent order changes nothing |
| PriceTime.RemovePermutes | src/main/java/com/example/trading_system/service/InMemoryOrderBook.java:113-120 | `remove` takes out one occurrence and nothing else, as multisets |
| PriceTime.RemoveKeepsQueue | src/main/java/com/example/trading_system/service/InMemoryOrderBook.java:113-120 | `remove` keeps the queue sorted and duplicate-free |
| MarketPrices.HalfUpMid | src/main/java/com/example/trading_system/service/MidPriceCalculator.java:21 | (buy + sell) / 2 at the sum's scale, an odd sum rounded half away from zero |
| MarketPrices.HalfUpMidSymmetric | src/main/java/com/example/trading_system/service/MidPriceCalculator.java:21 | the mid does not depend on the order of the two prices |
| MarketPrices.HalfUpMidBetween | src/main/java/com/example/trading_system/service/MidPriceCalculator.java:21 | the mid lies between the two prices |
| MarketPrices.HalfUpMidSame | src/main/java/com/example/trading_system/service/MidPriceCalculator.java:21 | the mid of a price with itself is that price |
| MarketPrices.HalfUpMidExamples | src/test/java/com/example/trading_system/service/TradingServiceTest.java:75-76 | 110/100 gives 105, 80/100 gives 90, 101/100 rounds up to 101, -101/100 rounds to -1 |
| MarketPrices.CalculateMarketPrice | src/main/java/com/example/trading_system/service/MidPriceCalculator.java:11-22 | always present; 0 when either best order is missing; reads the book only |
| MarketPrices.CalculateMarketPriceBetween | src/main/java/com/example/trading_system/service/MarketPriceCalculator.java:11-21 | with both sides present, the price lies between best bid and best ask, within half a tick of their mean |
| MarketPrices.ServicePrice | src/main/java/com/example/trading_system/service/TradingServiceImpl.java:85-96 | 0 with no side, the single side's price with one side, the HALF_UP mid with both |
| MarketPrices.ServicePriceVersusCalculator | src/main/java/com/example/trading_system/service/TradingServiceImpl.java:88-95 | services and calculator agree on a two-sided book and disagree on a one-sided book whose price is not 0 |
| MarketPrices.ServicePriceBetween | src/main/java/com/example/trading_system/service/TradingService.java:99-100 | with both sides, the service price is symmetric and lies between the two best prices |
| InMemoryOrderBooks.InMemoryOrderBook.constructor | src/main/java/com/example/trading_system/service/InMemoryOrderBook.java:27-39 | a new book is empty and well formed |
| InMemoryOrderBooks.InMemoryOrderBook.AddOrder | src/main/java/com/example/trading_system/service/InMemoryOrderBook.java:42-50 | the order joins exactly the queue of its side, the other queue is unchanged, and it is indexed by id |
| InMemoryOrderBooks.InMemoryOrderBook.CancelOrder | src/main/java/com/example/trading_system/service/InMemoryOrderBook.java:52-68 | unknown id: ORDER_NOT_FOUND "Order not found: id" and no change; already CANCELLED: no change; otherwise CANCELLED, out of its queue, still indexed |
| InMemoryOrderBooks.InMemoryOrderBook.HasMatchingOrdersIff | src/main/java/com/example/trading_system/service/InMemoryOrderBook.java:70-76 | the book can match iff some queued bid is at or above some queued ask |
| InMemoryOrderBooks.InMemoryOrderBook.BestBuyOrder | src/main/java/com/example/trading_system/service/InMemoryOrderBook.java:88-91 | empty exactly when there is no buy order, otherwise a queued buy order |
| InMemoryOrderBooks.InMemoryOrderBook.BestSellOrder | src/main/java/com/example/trading_system/service/InMemoryOrderBook.java:93-96 | empty exactly when there is no sell order, otherwise a queued sell order |
| InMemoryOrderBooks.InMemoryOrderBook.BestOrdersFirst | src/main/java/com/example/trading_system/service/InMemoryOrderBook.java:31-36 | the best bid is the highest, earliest among equals; the best ask is the lowest, earliest among equals |
| InMemoryOrderBooks.InMemoryOrderBook.GetBuyOrders | src/main/java/com/example/trading_system/service/InMemoryOrderBook.java:103-106 | the copy holds exactly the queued buy orders, each once |
| InMemoryOrderBooks.InMemoryOrderBook.GetSellOrders | src/main/java/com/example/trading_system/service/InMemoryOrderBook.java:98-101 | the copy holds exactly the queued sell orders, each once |
| InMemoryOrderBooks.InMemoryOrderBook.RemoveOrder | src/main/java/com/example/trading_system/service/InMemoryOrderBook.java:113-120 | the order leaves its own queue only; the index is unchanged |
| DefaultTradeMatcher.Match | src/main/java/com/example/trading_system/service/DefaultTradeMatcher.java:13-59 | the loop performs exactly the Lazy pass: its trades in order, the queues it leaves, and the final state of every queued order |
| DefaultTradeMatcher.MatchHeads | src/main/java/com/example/trading_system/service/DefaultTradeMatcher.java:17-55 | one turn: skip a stale head, trade two crossing heads of different traders, or halt; each turn that goes on shortens the queues |
| TradeMatchers.ShouldSkipOrder | src/main/java/com/example/trading_system/service/TradeMatcher.java:65-73 | true iff the order is CANCELLED or has quantity 0, and then it has left its queue |
| TradeMatchers.CanMatchHalts | src/main/java/com/example/trading_system/service/TradeMatcher.java:75-89 | `canMatch` holds iff the bid is at or above the ask and the traders differ; between two live heads the Lazy and Polling loops stop exactly where it is false, i.e. where the bid is below the ask or both orders share a trader |
| TradeMatchers.CreateTrade | src/main/java/com/example/trading_system/service/TradeMatcher.java:91-101 | both order ids and the instrument are recorded; the quantity is the smaller remaining one, the price the sell price |
| TradeMatchers.UpdateOrders | src/main/java/com/example/trading_system/service/TradeMatcher.java:103-120 | both heads execute the same quantity, and each one left with 0 leaves its queue |
| TradeMatchers.Match | src/main/java/com/example/trading_system/service/TradeMatcher.java:17-63 | the logging loop performs exactly the Lazy pass, with trades in creation order |
| TradeMatchers.MatchTurn | src/main/java/com/example/trading_system/service/TradeMatcher.java:22-57 | one turn: by short-circuit at most one stale order is skipped; a pair that cannot match stops the loop; otherwise one trade |
| MatchingProperties.RunQueues | src/main/java/com/example/trading_system/service/DefaultTradeMatcher.java:16-56 | a pass only takes orders off the queue fronts, and it stops only where the loop condition fails |
| MatchingProperties.RunUntouched | src/main/java/com/example/trading_system/service/DefaultTradeMatcher.java:43-52 | a pass changes the state of queued orders only |
| MatchingProperties.RunTradeIds | src/main/java/com/example/trading_system/service/DefaultTradeMatcher.java:36-40 | trade k has id nextTradeId + k, the book's instrument and the pass's time |
| MatchingProperties.RunTradePairs | src/main/java/com/example/trading_system/service/DefaultTradeMatcher.java:30-39 | each trade pairs a queued bid and a queued ask it crosses, at the ask's price; in all but the older loop the traders differ |
| MatchingProperties.RunVolumes | src/main/java/com/example/trading_system/service/DefaultTradeMatcher.java:32-44 | when no quantity starts negative: no quantity rises or turns negative, and trade quantities are positive, except in the older loop where they may be 0 |
| MatchingProperties.RunConserves | src/main/java/com/example/trading_system/service/DefaultTradeMatcher.java:32-44 | per side, the fall in remaining quantity equals the traded volume |
| MatchingProperties.OutstandingUpdate | src/main/java/com/example/trading_system/service/DefaultTradeMatcher.java:43-44 | executing one order changes the side's remaining total by that order's change only |
| OrderBookImpls.OrderBookImpl.constructor | src/main/java/com/example/trading_system/service/OrderBookImpl.java:28-38 | a new book is empty, with no trades |
| OrderBookImpls.OrderBookImpl.AddOrder | src/main/java/com/example/trading_system/service/OrderBookImpl.java:40-47 | enqueued on its own side only, indexed by id, trade list unchanged |
| OrderBookImpls.OrderBookImpl.CancelOrder | src/main/java/com/example/tradingSystem/service/OrderBookImpl.java:55-71 | unknown id: ORDER_NOT_FOUND; a live order: true, CANCELLED, out of its queue, still indexed; repeat: false and no change |
| OrderBookImpls.OrderBookImpl.MatchOrders | src/main/java/com/example/trading_system/service/OrderBookImpl.java:67-116 | the loop performs exactly the Polling pass; the `trades` field stays as it was |
| OrderBookImpls.OrderBookImpl.MatchHeads | src/main/java/com/example/tradingSystem/service/OrderBookImpl.java:75-119 | one turn: poll a stale head, trade two crossing heads of different traders, or break |
| OrderBookImpls.OrderBookImpl.ExecuteHeads | src/main/java/com/example/trading_system/service/OrderBookImpl.java:97-109 | both heads lose the quantity; one left with 0 is polled and FILLED, one left with more keeps its status |
| OrderBookImpls.OrderBookImpl.GetBestBuyOrder | src/main/java/com/example/trading_system/service/OrderBookImpl.java:122-124 | null exactly when there is no buy order, otherwise a queued buy order |
| OrderBookImpls.OrderBookImpl.GetBestSellOrder | src/main/java/com/example/tradingSystem/service/OrderBookImpl.java:136-138 | null exactly when there is no sell order, otherwise a queued sell order |
| OrderBookImpls.OrderBookImpl.BestOrdersFirst | src/main/java/com/example/tradingSystem/service/OrderBookImpl.java:28-44 | the best bid is the highest, earliest among equals; the best ask is the lowest, earliest among equals |
| OrderBookImpls.OrderBookImpl.GetBuyOrders | src/main/java/com/example/trading_system/service/OrderBookImpl.java:137-139 | the copy holds exactly the queued buy orders, each once |
| OrderBookImpls.OrderBookImpl.GetSellOrders | src/main/java/com/example/tradingSystem/service/OrderBookImpl.java:150-152 | the copy holds exactly the queued sell orders, each once |
| OrderBooks.OrderBook.constructor | src/main/java/com/example/tradingSystem/service/OrderBook.java:25-41 | a new book is empty, with an empty history |
| OrderBooks.OrderBook.AddOrder | src/main/java/com/example/tradingSystem/service/OrderBook.java:47-54 | enqueued on its own side only and indexed by id; the index still holds exactly the queued orders |
| OrderBooks.OrderBook.CancelOrder | src/main/java/com/example/tradingSystem/service/OrderBook.java:61-73 | true iff the id is indexed; then the order is CANCELLED and leaves its queue and the index, so a repeat answers false |
| OrderBooks.OrderBook.MatchOrders | src/main/java/com/example/tradingSystem/service/OrderBook.java:80-120 | the loop performs exactly the Legacy pass; every trade is also appended to the history; the index keeps only orders still queued |
| OrderBooks.OrderBook.MatchHeads | src/main/java/com/example/tradingSystem/service/OrderBook.java:82-117 | one turn: two crossing heads trade whoever placed them, otherwise the loop breaks |
| OrderBooks.OrderBook.ExecuteHeads | src/main/java/com/example/tradingSystem/service/OrderBook.java:97-113 | both heads lose the quantity; each becomes FILLED and leaves queue and index at 0, PARTIALLY_FILLED otherwise |
| OrderBooks.OrderBook.SettleBuyHead | src/main/java/com/example/tradingSystem/service/OrderBook.java:100-106 | the buy head is FILLED and leaves queue and index at 0, otherwise PARTIALLY_FILLED |
| OrderBooks.OrderBook.SettleSellHead | src/main/java/com/example/tradingSystem/service/OrderBook.java:107-113 | the sell head is FILLED and leaves queue and index at 0, otherwise PARTIALLY_FILLED |
| OrderBooks.OrderBook.GetBestBuyOrder | src/main/java/com/example/tradingSystem/service/OrderBook.java:126-128 | null exactly when there is no buy order, otherwise a queued buy order |
| OrderBooks.OrderBook.GetBestSellOrder | src/main/java/com/example/tradingSystem/service/OrderBook.java:134-136 | null exactly when there is no sell order, otherwise a queued sell order |
| OrderBooks.OrderBook.BestOrdersFirst | src/main/java/com/example/tradingSystem/service/OrderBook.java:28-38 | the best bid is the highest, earliest among equals; the best ask is the lowest, earliest among equals |
| OrderBooks.OrderBook.GetBuyOrders | src/main/java/com/example/tradingSystem/service/OrderBook.java:141-143 | the copy holds exactly the queued buy orders, each once |
| OrderBooks.OrderBook.GetSellOrders | src/main/java/com/example/tradingSystem/service/OrderBook.java:148-150 | the copy holds exactly the queued sell orders, each once |
| TradingServiceImpls.TradingServiceImpl.constructor | src/main/java/com/example/trading_system/service/TradingServiceImpl.java:23-26 | no instrument and no book |
| TradingServiceImpls.TradingServiceImpl.RegisterInstrument | src/main/java/com/example/trading_system/service/TradingServiceImpl.java:28-31 | the instrument entry is replaced; an existing book is kept, otherwise a fresh empty one is created |
| TradingServiceImpls.TradingServiceImpl.PlaceOrder | src/main/java/com/example/trading_system/service/TradingServiceImpl.java:33-47 | unknown instrument: INSTRUMENT_NOT_FOUND and no change; otherwise the trades of the Polling pass after adding the order, and the price after add, refreshed again only if something traded; it may change only the book, the instrument, the new order and the queued orders |
| TradingServiceImpls.TradingServiceImpl.PlaceOnBook | src/main/java/com/example/trading_system/service/TradingServiceImpl.java:40-46 | add, refresh, match, refresh if traded, on one book |
| TradingServiceImpls.TradingServiceImpl.AddAndRefresh | src/main/java/com/example/trading_system/service/TradingServiceImpl.java:40-41 | the order joins its side and the price is the service price of the new heads |
| TradingServiceImpls.TradingServiceImpl.MatchAndRefresh | src/main/java/com/example/trading_system/service/TradingServiceImpl.java:42-45 | the Polling pass runs, and the price is refreshed only when it traded |
| TradingServiceImpls.TradingServiceImpl.CancelOrder | src/main/java/com/example/trading_system/service/TradingServiceImpl.java:49-55 | unknown instrument: false and no change; unknown order: ORDER_NOT_FOUND with queues and price unchanged; a live order: true, exactly that order leaves its queue, still indexed and CANCELLED with its quantity kept; a repeat: false with queues unchanged; after an answer the price is refreshed; it may change only the book, the instrument and that order |
| TradingServiceImpls.TradingServiceImpl.CancelOnBook | src/main/java/com/example/trading_system/service/TradingServiceImpl.java:52-54 | the book's cancel then a refresh: true removes exactly that order from its queue, false and ORDER_NOT_FOUND leave the queues alone, and an unknown order id fails before the refresh with the price unchanged; the order's quantity is kept |
| TradingServiceImpls.TradingServiceImpl.GetMarketPrice | src/main/java/com/example/trading_system/service/TradingServiceImpl.java:57-64 | the cached price of a known instrument, INSTRUMENT_NOT_FOUND otherwise |
| TradingServiceImpls.TradingServiceImpl.GetOrderBook | src/main/java/com/example/trading_system/service/TradingServiceImpl.java:66-74 | the instrument's book, INSTRUMENT_NOT_FOUND otherwise |
| TradingServiceImpls.TradingServiceImpl.GetAllInstruments | src/main/java/com/example/trading_system/service/TradingServiceImpl.java:100-102 | exactly the registered instruments |
| TradingServiceImpls.TradingServiceImpl.GetOrdersByTrader | src/main/java/com/example/trading_system/service/TradingServiceImpl.java:104-112 | exactly the indexed orders of any status, across all books, whose trader matches |
| TradingServiceImpls.TradingServiceImpl.UpdateMarketPrice | src/main/java/com/example/trading_system/service/TradingServiceImpl.java:81-98 | with both book and instrument known, the cached price becomes the service price of the two heads; otherwise nothing changes |
| TradingServiceImpls.TradingServiceImpl.RefreshPrice | src/main/java/com/example/trading_system/service/TradingServiceImpl.java:85-97 | the cached price becomes the service price of the two heads; no order changes |
| TradingServices.TradingService.constructor | src/main/java/com/example/trading_system/service/TradingService.java:20-23 | no instrument and no book |
| TradingServices.TradingService.RegisterInstrument | src/main/java/com/example/trading_system/service/TradingService.java:29-32 | the instrument entry is replaced; an existing book is kept, otherwise a fresh empty one is created |
| TradingServices.TradingService.PlaceOrder | src/main/java/com/example/trading_system/service/TradingService.java:39-51 | unknown instrument: "Instrument not found: id" and no change; otherwise the trades of the Legacy pass after adding the order, appended to the history, and the refreshed price |
| TradingServices.TradingService.PlaceOnBook | src/main/java/com/example/trading_system/service/TradingService.java:44-50 | add, refresh, match, refresh if traded, on one book |
| TradingServices.TradingService.AddAndRefresh | src/main/java/com/example/trading_system/service/TradingService.java:44-45 | the order joins its side and the price is the service price of the new heads |
| TradingServices.TradingService.MatchAndRefresh | src/main/java/com/example/trading_system/service/TradingService.java:46-49 | the Legacy pass runs, its trades join the history, and the price is refreshed only when it traded |
| TradingServices.TradingService.CancelOrder | src/main/java/com/example/trading_system/service/TradingService.java:59-65 | unknown instrument: false; otherwise true iff the order was indexed, which then is CANCELLED with its quantity kept, removed from its queue and unindexed; the price is refreshed either way; it may change only the book, the instrument and that order |
| TradingServices.TradingService.CancelOnBook | src/main/java/com/example/trading_system/service/TradingService.java:62-64 | the book's cancel then a refresh: true exactly when the order was indexed, which then is CANCELLED with its quantity kept and leaves its queue and the index; otherwise the queues are unchanged |
| TradingServices.TradingService.GetMarketPrice | src/main/java/com/example/trading_system/service/TradingService.java:72-76 | the cached price of a known instrument, null otherwise |
| TradingServices.TradingService.GetOrderBook | src/main/java/com/example/trading_system/service/TradingService.java:83-85 | the instrument's book, null otherwise |
| TradingServices.TradingService.GetAllInstruments | src/main/java/com/example/trading_system/service/TradingService.java:114-116 | exactly the registered instruments |
| TradingServices.TradingService.UpdateMarketPrice | src/main/java/com/example/trading_system/service/TradingService.java:92-109 | with both book and instrument known, the cached price becomes the service price of the two heads; otherwise nothing changes |
| TradingServices.TradingService.RefreshPrice | src/main/java/com/example/trading_system/service/TradingService.java:96-108 | the cached price becomes the service price of the two heads; no order changes |
| Scenarios.PricePriority | src/test/java/com/example/trading_system/service/InMemoryOrderBookTest.java:112-124 | a later bid of 101 is queued ahead of a bid of 100 and takes the only ask, in every loop |
| Scenarios.EqualBidsFilled | src/test/java/com/example/trading_system/service/InMemoryOrderBookTest.java:93-109 | one ask of 10 fills two bids of 5 in two trades, and all three end FILLED |
| Scenarios.PartialFill | src/test/java/com/example/trading_system/service/InMemoryOrderBookTest.java:76-90 | 15 against 10 trades 10; the bid keeps 5, PARTIALLY_FILLED where orders are executed and OPEN in OrderBookImpl |
| Scenarios.SameTrader | src/test/java/com/example/trading_system/service/InMemoryOrderBookTest.java:48-57 | a crossing pair of one trader does not trade in the newer loops, but does in the older one |
| Scenarios.StaleBidSkipped | src/test/java/com/example/trading_system/service/InMemoryOrderBookTest.java:195-204 | an empty bid at the head, or one whose status was set to CANCELLED on the shared order outside the book, is discarded without a trade, and the ask stays OPEN and queued |
| Scenarios.LegacyTradesEmptyBid | src/main/java/com/example/tradingSystem/service/OrderBook.java:82-102 | the older loop trades a bid with nothing left, for quantity 0, and marks it FILLED |
| Scenarios.FullMatchClearsPrice | src/test/java/com/example/trading_system/service/TradingServiceImplTest.java:65-74 | an ask then a matching bid of 4 trade out, and the cached price becomes 0 |
| Scenarios.NoCrossMidPrice | src/test/java/com/example/trading_system/service/TradingServiceImplTest.java:102-112 | ask 100 and bid 80 do not trade, and the cached price is 90 |
| Scenarios.OneSidedPrice | src/test/java/com/example/trading_system/service/TradingServiceImplTest.java:84-91 | a lone ask of 100 leaves the services' price at 100, while the calculators' rule gives 0 for an InMemoryOrderBook holding the same queues |

## Left out

- MatchingProperties.RunVolumes: only covers passes where no quantity starts negative. `Order` does not validate its quantity, and with a negative quantity the loops trade a negative amount (`Math.min`) and raise the other order's remaining quantity.
- Logging through SLF4J in `TradeMatcher` is left out, because it has no effect on state.
- Thread safety is left out. This covers `PriorityBlockingQueue`, `ConcurrentHashMap` and `CopyOnWriteArrayList` in `InMemoryOrderBook`, which are modelled as plain sequences and maps.
- `UUID.randomUUID()` and `LocalDateTime.now()` are foreign. Ids are parameters, and order ids are assumed fresh: adding requires an id the book has not indexed.
- One clock reading `now` serves a whole matching pass. In Java, each trade reads the clock again.
- BigDecimal is modelled as integer ticks at one fixed scale. Mixed scales, and a division whose scale differs from the sum's, are not modelled.
- Java `int` overflow on quantities is not modelled; quantities are unbounded integers.
- Java gives no order between two orders with equal price and equal timestamp. The queues place a later-offered one behind an earlier one. No contract depends on this tie order: the one scenario with two equal-priced orders, `Scenarios.EqualBidsFilled`, requires the earlier one to have a strictly smaller timestamp.
- `getBuyOrders`/`getSellOrders` copy a heap, whose iteration order is not sorted. Their contracts therefore state only the contents, each order once.
- `TradingServiceImpl.GetOrdersByTrader` returns a set. The Java list's order follows hash-map iteration and is not modelled.
- Instruments are registered by value: `Instrument`'s own id comes from `UUID.randomUUID()` in Java, and here it is a constructor argument.
- The services hold the `OwnOrders` invariant: every order in a book is for that book's instrument. This holds because `placeOrder` routes by the order's instrument id.
- `Order.execute` and `Order.isFilled` are called by `DefaultTradeMatcher` but are not defined in `Order.java`. `Model.Order.Execute` follows the behaviour the order book tests assert.
- The controllers, exception handlers, DTOs and configuration classes are not part of this model, because they are request plumbing. `TradingException`'s codes appear only as `ErrorCode` values.
- src/main/java/com/example/tradingSystem/model/Order.java is not part of this model. Every book uses the `trading_system` order class.
- A unit test expectation disagrees with the code, and the code is followed. `TradingServiceImplTest` (lines 84-100) expects price 0 for a one-sided book, but both services cache that side's price (`Scenarios.OneSidedPrice`).
