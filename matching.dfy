/**
 * The price-time matching loop, as a function of the two queues and of the
 * remaining quantity and status of every queued order.  The source has three
 * variants of the loop, told apart by `Engine`:
 *
 *   Lazy    DefaultTradeMatcher.match and TradeMatcher.match over an
 *           InMemoryOrderBook: loop while the heads cross; a stale head
 *           (CANCELLED or quantity 0) is removed; a same-trader pair halts;
 *           orders are executed (PARTIALLY_FILLED / FILLED).
 *   Polling OrderBookImpl.matchOrders (both copies): loop while both sides are
 *           non-empty; a stale head is polled; a pair that does not cross or
 *           has one trader halts; quantities are set, and only an order that
 *           reaches 0 changes status (to FILLED).
 *   Legacy  the older OrderBook.matchOrders: no stale check and no trader
 *           check; a pair that does not cross halts; status becomes
 *           PARTIALLY_FILLED or FILLED.
 *
 * Every trade is priced at the sell order's price for the smaller of the two
 * remaining quantities; an order left with quantity 0 leaves its queue.
 */
module Matching {
  import opened Model
  import opened PriceTime

  datatype Engine = Lazy | Polling | Legacy

  /** The trades of one pass, the queues after it and the new state of every order. */
  datatype Pass = Pass(trades: seq<Trade>, buys: seq<Order>, sells: seq<Order>, fills: map<Order, Fill>)

  /** An order that the Lazy and Polling loops discard without trading. */
  predicate Stale(f: Fill) {
    f.status == CANCELLED || f.quantity == 0
  }

  function Min(a: int, b: int): int {
    if a <= b then a else b
  }

  /** The state of an order after `n` of it has traded. */
  function Traded(engine: Engine, f: Fill, n: int): Fill {
    var q := f.quantity - n;
    if engine == Polling then Fill(q, if q == 0 then FILLED else f.status)
    else Fill(q, ExecutedStatus(q))
  }

  ghost predicate Covers(buys: seq<Order>, sells: seq<Order>, fills: map<Order, Fill>) {
    (forall o :: o in buys ==> o in fills) && (forall o :: o in sells ==> o in fills)
  }

  /** The loop.  Trade `k` of the pass gets id `nextTradeId + k` and timestamp `now`. */
  ghost function Run(engine: Engine, instrumentId: InstrumentId, buys: seq<Order>, sells: seq<Order>,
                     fills: map<Order, Fill>, nextTradeId: nat, now: nat): Pass
    requires Covers(buys, sells, fills)
    decreases |buys| + |sells|, 1
  {
    if buys == [] || sells == [] then Pass([], buys, sells, fills)
    else Turn(engine, instrumentId, buys, sells, fills, nextTradeId, now)
  }

  /** One turn of the loop on two non-empty queues, and the rest of the pass after it. */
  ghost function Turn(engine: Engine, instrumentId: InstrumentId, buys: seq<Order>, sells: seq<Order>,
                      fills: map<Order, Fill>, nextTradeId: nat, now: nat): Pass
    requires Covers(buys, sells, fills) && buys != [] && sells != []
    decreases |buys| + |sells|, 0
  {
    var b, s := buys[0], sells[0];
    if engine == Lazy && b.price < s.price then Pass([], buys, sells, fills)
    else if engine != Legacy && Stale(fills[b]) then
      Run(engine, instrumentId, buys[1..], sells, fills, nextTradeId, now)
    else if engine != Legacy && Stale(fills[s]) then
      Run(engine, instrumentId, buys, sells[1..], fills, nextTradeId, now)
    else if b.price < s.price || (engine != Legacy && b.traderId == s.traderId) then
      Pass([], buys, sells, fills)
    else
      var n := Min(fills[b].quantity, fills[s].quantity);
      var trade := Trade(nextTradeId, b.orderId, s.orderId, instrumentId, s.price, n, now);
      var fb, fs := Traded(engine, fills[b], n), Traded(engine, fills[s], n);
      var rest := Run(engine, instrumentId,
                      if fb.quantity == 0 then buys[1..] else buys,
                      if fs.quantity == 0 then sells[1..] else sells,
                      fills[b := fb][s := fs], nextTradeId + 1, now);
      rest.(trades := [trade] + rest.trades)
  }

  /**
   * The pass run right after `order`, in state `state`, has been offered to its
   * side (a service's `placeOrder`: add, then match).
   */
  ghost function Placed(engine: Engine, instrumentId: InstrumentId, buys: seq<Order>, sells: seq<Order>,
                        fills: map<Order, Fill>, order: Order, state: Fill, nextTradeId: nat, now: nat): Pass
    requires Covers(buys, sells, fills)
  {
    EnqueueMembers(BUY, buys, order);
    EnqueueMembers(SELL, sells, order);
    Run(engine, instrumentId, Offer(BUY, buys, order), Offer(SELL, sells, order), fills[order := state], nextTradeId, now)
  }

  /** One step of the pass in which a stale buy head is discarded. */
  lemma SkipBuyStep(engine: Engine, instrumentId: InstrumentId, buys: seq<Order>, sells: seq<Order>,
                    fills: map<Order, Fill>, nextTradeId: nat, now: nat)
    requires Covers(buys, sells, fills) && buys != [] && sells != []
    requires engine == Lazy ==> buys[0].price >= sells[0].price
    requires engine != Legacy && Stale(fills[buys[0]])
    ensures Covers(buys[1..], sells, fills)
    ensures Run(engine, instrumentId, buys, sells, fills, nextTradeId, now)
         == Run(engine, instrumentId, buys[1..], sells, fills, nextTradeId, now)
  {
  }

  /** One step of the pass in which a stale sell head is discarded. */
  lemma SkipSellStep(engine: Engine, instrumentId: InstrumentId, buys: seq<Order>, sells: seq<Order>,
                     fills: map<Order, Fill>, nextTradeId: nat, now: nat)
    requires Covers(buys, sells, fills) && buys != [] && sells != []
    requires engine == Lazy ==> buys[0].price >= sells[0].price
    requires engine != Legacy && !Stale(fills[buys[0]]) && Stale(fills[sells[0]])
    ensures Covers(buys, sells[1..], fills)
    ensures Run(engine, instrumentId, buys, sells, fills, nextTradeId, now)
         == Run(engine, instrumentId, buys, sells[1..], fills, nextTradeId, now)
  {
  }

  /** One step of the pass that trades the two heads, stated for the queues and states it leaves. */
  lemma TradeStep(engine: Engine, instrumentId: InstrumentId, buys: seq<Order>, sells: seq<Order>,
                  fills: map<Order, Fill>, nextTradeId: nat, now: nat,
                  n: int, buys': seq<Order>, sells': seq<Order>, fills': map<Order, Fill>)
    requires Covers(buys, sells, fills) && buys != [] && sells != []
    requires buys[0].price >= sells[0].price
    requires engine != Legacy ==> !Stale(fills[buys[0]]) && !Stale(fills[sells[0]]) && buys[0].traderId != sells[0].traderId
    requires n == Min(fills[buys[0]].quantity, fills[sells[0]].quantity)
    requires fills' == fills[buys[0] := Traded(engine, fills[buys[0]], n)][sells[0] := Traded(engine, fills[sells[0]], n)]
    requires buys' == if fills'[buys[0]].quantity == 0 then buys[1..] else buys
    requires sells' == if fills'[sells[0]].quantity == 0 then sells[1..] else sells
    ensures Covers(buys', sells', fills')
    ensures Run(engine, instrumentId, buys, sells, fills, nextTradeId, now)
         == var rest := Run(engine, instrumentId, buys', sells', fills', nextTradeId + 1, now);
            rest.(trades := [Trade(nextTradeId, buys[0].orderId, sells[0].orderId, instrumentId, sells[0].price, n, now)] + rest.trades)
  {
  }

  /**
   * The loop stops here: a side is empty, the Lazy loop sees heads that do not
   * cross, or two heads the loop does not skip cannot trade.
   */
  ghost predicate Halted(engine: Engine, buys: seq<Order>, sells: seq<Order>, fills: map<Order, Fill>)
    requires Covers(buys, sells, fills)
  {
    || buys == [] || sells == []
    || (engine == Lazy && buys[0].price < sells[0].price)
    || ((engine == Legacy || (!Stale(fills[buys[0]]) && !Stale(fills[sells[0]])))
        && (buys[0].price < sells[0].price || (engine != Legacy && buys[0].traderId == sells[0].traderId)))
  }

  /** A pass that stops at once makes no trade and changes nothing. */
  lemma HaltStep(engine: Engine, instrumentId: InstrumentId, buys: seq<Order>, sells: seq<Order>,
                 fills: map<Order, Fill>, nextTradeId: nat, now: nat)
    requires Covers(buys, sells, fills)
    requires Halted(engine, buys, sells, fills)
    ensures Run(engine, instrumentId, buys, sells, fills, nextTradeId, now) == Pass([], buys, sells, fills)
  {
  }

  /**
   * `total` is a pass that has made the trades `done` and goes on from the
   * queues and states given.
   */
  ghost predicate Resumes(total: Pass, done: seq<Trade>, engine: Engine, instrumentId: InstrumentId,
                          buys: seq<Order>, sells: seq<Order>, fills: map<Order, Fill>, nextTradeId: nat, now: nat)
  {
    && Covers(buys, sells, fills)
    && var rest := Run(engine, instrumentId, buys, sells, fills, nextTradeId + |done|, now);
       total == rest.(trades := done + rest.trades)
  }

  lemma ResumeStart(engine: Engine, instrumentId: InstrumentId, buys: seq<Order>, sells: seq<Order>,
                    fills: map<Order, Fill>, nextTradeId: nat, now: nat)
    requires Covers(buys, sells, fills)
    ensures Resumes(Run(engine, instrumentId, buys, sells, fills, nextTradeId, now), [],
                    engine, instrumentId, buys, sells, fills, nextTradeId, now)
  {
    var rest := Run(engine, instrumentId, buys, sells, fills, nextTradeId, now);
    assert [] + rest.trades == rest.trades;
  }

  lemma ResumeSkip(total: Pass, done: seq<Trade>, engine: Engine, instrumentId: InstrumentId,
                   buys: seq<Order>, sells: seq<Order>, fills: map<Order, Fill>, nextTradeId: nat, now: nat,
                   buys': seq<Order>, sells': seq<Order>)
    requires Resumes(total, done, engine, instrumentId, buys, sells, fills, nextTradeId, now)
    requires buys != [] && sells != []
    requires engine == Lazy ==> buys[0].price >= sells[0].price
    requires engine != Legacy
    requires (Stale(fills[buys[0]]) && buys' == buys[1..] && sells' == sells)
          || (!Stale(fills[buys[0]]) && Stale(fills[sells[0]]) && buys' == buys && sells' == sells[1..])
    ensures Resumes(total, done, engine, instrumentId, buys', sells', fills, nextTradeId, now)
  {
    if Stale(fills[buys[0]]) {
      SkipBuyStep(engine, instrumentId, buys, sells, fills, nextTradeId + |done|, now);
    } else {
      SkipSellStep(engine, instrumentId, buys, sells, fills, nextTradeId + |done|, now);
    }
  }

  lemma ResumeTrade(total: Pass, done: seq<Trade>, engine: Engine, instrumentId: InstrumentId,
                    buys: seq<Order>, sells: seq<Order>, fills: map<Order, Fill>, nextTradeId: nat, now: nat,
                    n: int, buys': seq<Order>, sells': seq<Order>, fills': map<Order, Fill>, t: Trade)
    requires Resumes(total, done, engine, instrumentId, buys, sells, fills, nextTradeId, now)
    requires buys != [] && sells != []
    requires buys[0].price >= sells[0].price
    requires engine != Legacy ==> !Stale(fills[buys[0]]) && !Stale(fills[sells[0]]) && buys[0].traderId != sells[0].traderId
    requires n == Min(fills[buys[0]].quantity, fills[sells[0]].quantity)
    requires fills' == fills[buys[0] := Traded(engine, fills[buys[0]], n)][sells[0] := Traded(engine, fills[sells[0]], n)]
    requires buys' == if fills'[buys[0]].quantity == 0 then buys[1..] else buys
    requires sells' == if fills'[sells[0]].quantity == 0 then sells[1..] else sells
    requires t == Trade(nextTradeId + |done|, buys[0].orderId, sells[0].orderId, instrumentId, sells[0].price, n, now)
    ensures Resumes(total, done + [t], engine, instrumentId, buys', sells', fills', nextTradeId, now)
  {
    TradeStep(engine, instrumentId, buys, sells, fills, nextTradeId + |done|, now, n, buys', sells', fills');
    var rest := Run(engine, instrumentId, buys', sells', fills', nextTradeId + |done + [t]|, now);
    assert done + ([t] + rest.trades) == (done + [t]) + rest.trades;
  }

  lemma ResumeHalt(total: Pass, done: seq<Trade>, engine: Engine, instrumentId: InstrumentId,
                   buys: seq<Order>, sells: seq<Order>, fills: map<Order, Fill>, nextTradeId: nat, now: nat)
    requires Resumes(total, done, engine, instrumentId, buys, sells, fills, nextTradeId, now)
    requires Halted(engine, buys, sells, fills)
    ensures total == Pass(done, buys, sells, fills)
  {
    HaltStep(engine, instrumentId, buys, sells, fills, nextTradeId + |done|, now);
    assert done + [] == done;
  }

  lemma AppendAssoc<T>(a: seq<T>, b: seq<T>, c: seq<T>)
    ensures a + (b + c) == (a + b) + c
  {
  }
}
