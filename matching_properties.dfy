/**
 * What every matching pass guarantees, whichever of the three loops runs it:
 * the shape of the queues and trades it leaves, that it only stops where the
 * loop condition fails, that every trade pairs a crossing buy and sell at the
 * sell price, and that traded volume is exactly what the two sides lose.
 */
module MatchingProperties {
  import opened Wrappers
  import opened Model
  import opened PriceTime
  import opened Matching
  import opened MarketPrices

  /** `t` trades buy order `b` against sell order `s` at the sell price, the bid crossing the ask. */
  predicate Pairs(engine: Engine, t: Trade, b: Order, s: Order) {
    && t.buyOrderId == b.orderId && t.sellOrderId == s.orderId
    && t.price == s.price && s.price <= b.price
    && (engine != Legacy ==> b.traderId != s.traderId)
  }

  /** `r` is what is left of the queue `q` after orders have been taken off its front. */
  ghost predicate Suffix(r: seq<Order>, q: seq<Order>) {
    |r| <= |q| && r == q[|q| - |r|..]
  }

  /** Taking the front off a queue, or leaving it, keeps what is left of it a suffix of the original. */
  lemma SuffixStep(q: seq<Order>, q': seq<Order>, r: seq<Order>)
    requires q' == q || (q != [] && q' == q[1..])
    requires Suffix(r, q')
    ensures Suffix(r, q)
  {
    if q' != q {
      assert q[1..][|q'| - |r|..] == q[|q| - |r|..];
    }
  }

  /**
   * The queues left by a pass are what remains of the queues it started from
   * after taking orders off their fronts, and the pass stops only where the
   * loop would stop.
   */
  lemma {:induction false} RunQueues(engine: Engine, instrumentId: InstrumentId, buys: seq<Order>, sells: seq<Order>,
                                     fills: map<Order, Fill>, nextTradeId: nat, now: nat)
    requires Covers(buys, sells, fills)
    ensures var p := Run(engine, instrumentId, buys, sells, fills, nextTradeId, now);
      && Suffix(p.buys, buys) && Suffix(p.sells, sells)
      && Covers(p.buys, p.sells, p.fills)
      && Halted(engine, p.buys, p.sells, p.fills)
    decreases |buys| + |sells|
  {
    if buys == [] || sells == [] {
      assert buys[|buys|..] == [] && sells[|sells|..] == [];
      return;
    }
    var b, s := buys[0], sells[0];
    if engine == Lazy && b.price < s.price {
      HaltStep(engine, instrumentId, buys, sells, fills, nextTradeId, now);
      assert buys[0..] == buys && sells[0..] == sells;
    } else if engine != Legacy && Stale(fills[b]) {
      SkipBuyStep(engine, instrumentId, buys, sells, fills, nextTradeId, now);
      RunQueues(engine, instrumentId, buys[1..], sells, fills, nextTradeId, now);
      var p := Run(engine, instrumentId, buys[1..], sells, fills, nextTradeId, now);
      SuffixStep(buys, buys[1..], p.buys);
    } else if engine != Legacy && Stale(fills[s]) {
      SkipSellStep(engine, instrumentId, buys, sells, fills, nextTradeId, now);
      RunQueues(engine, instrumentId, buys, sells[1..], fills, nextTradeId, now);
      var p := Run(engine, instrumentId, buys, sells[1..], fills, nextTradeId, now);
      SuffixStep(sells, sells[1..], p.sells);
    } else if b.price < s.price || (engine != Legacy && b.traderId == s.traderId) {
      HaltStep(engine, instrumentId, buys, sells, fills, nextTradeId, now);
      assert buys[0..] == buys && sells[0..] == sells;
    } else {
      var n := Min(fills[b].quantity, fills[s].quantity);
      var fills' := fills[b := Traded(engine, fills[b], n)][s := Traded(engine, fills[s], n)];
      var buys' := if fills'[b].quantity == 0 then buys[1..] else buys;
      var sells' := if fills'[s].quantity == 0 then sells[1..] else sells;
      TradeStep(engine, instrumentId, buys, sells, fills, nextTradeId, now, n, buys', sells', fills');
      RunQueues(engine, instrumentId, buys', sells', fills', nextTradeId + 1, now);
      var rest := Run(engine, instrumentId, buys', sells', fills', nextTradeId + 1, now);
      SuffixStep(buys, buys', rest.buys);
      SuffixStep(sells, sells', rest.sells);
    }
  }

  /** A pass changes the state of queued orders only: every other order keeps its state. */
  lemma {:induction false} RunUntouched(engine: Engine, instrumentId: InstrumentId, buys: seq<Order>, sells: seq<Order>,
                                        fills: map<Order, Fill>, nextTradeId: nat, now: nat)
    requires Covers(buys, sells, fills)
    ensures var p := Run(engine, instrumentId, buys, sells, fills, nextTradeId, now);
      && p.fills.Keys == fills.Keys
      && (forall o :: o in fills && o !in buys && o !in sells ==> p.fills[o] == fills[o])
    decreases |buys| + |sells|
  {
    if buys == [] || sells == [] {
      return;
    }
    var b, s := buys[0], sells[0];
    if engine == Lazy && b.price < s.price {
      HaltStep(engine, instrumentId, buys, sells, fills, nextTradeId, now);
    } else if engine != Legacy && Stale(fills[b]) {
      SkipBuyStep(engine, instrumentId, buys, sells, fills, nextTradeId, now);
      RunUntouched(engine, instrumentId, buys[1..], sells, fills, nextTradeId, now);
    } else if engine != Legacy && Stale(fills[s]) {
      SkipSellStep(engine, instrumentId, buys, sells, fills, nextTradeId, now);
      RunUntouched(engine, instrumentId, buys, sells[1..], fills, nextTradeId, now);
    } else if b.price < s.price || (engine != Legacy && b.traderId == s.traderId) {
      HaltStep(engine, instrumentId, buys, sells, fills, nextTradeId, now);
    } else {
      var n := Min(fills[b].quantity, fills[s].quantity);
      var fills' := fills[b := Traded(engine, fills[b], n)][s := Traded(engine, fills[s], n)];
      var buys' := if fills'[b].quantity == 0 then buys[1..] else buys;
      var sells' := if fills'[s].quantity == 0 then sells[1..] else sells;
      TradeStep(engine, instrumentId, buys, sells, fills, nextTradeId, now, n, buys', sells', fills');
      RunUntouched(engine, instrumentId, buys', sells', fills', nextTradeId + 1, now);
    }
  }

  /** Trade `k` of a pass has id `nextTradeId + k`, and every trade is for the book's instrument at the pass's time. */
  lemma {:induction false} RunTradeIds(engine: Engine, instrumentId: InstrumentId, buys: seq<Order>, sells: seq<Order>,
                                       fills: map<Order, Fill>, nextTradeId: nat, now: nat)
    requires Covers(buys, sells, fills)
    ensures var p := Run(engine, instrumentId, buys, sells, fills, nextTradeId, now);
      forall k :: 0 <= k < |p.trades| ==>
        p.trades[k].tradeId == nextTradeId + k && p.trades[k].instrumentId == instrumentId && p.trades[k].timestamp == now
    decreases |buys| + |sells|
  {
    if buys == [] || sells == [] {
      return;
    }
    var b, s := buys[0], sells[0];
    if engine == Lazy && b.price < s.price {
      HaltStep(engine, instrumentId, buys, sells, fills, nextTradeId, now);
    } else if engine != Legacy && Stale(fills[b]) {
      SkipBuyStep(engine, instrumentId, buys, sells, fills, nextTradeId, now);
      RunTradeIds(engine, instrumentId, buys[1..], sells, fills, nextTradeId, now);
    } else if engine != Legacy && Stale(fills[s]) {
      SkipSellStep(engine, instrumentId, buys, sells, fills, nextTradeId, now);
      RunTradeIds(engine, instrumentId, buys, sells[1..], fills, nextTradeId, now);
    } else if b.price < s.price || (engine != Legacy && b.traderId == s.traderId) {
      HaltStep(engine, instrumentId, buys, sells, fills, nextTradeId, now);
    } else {
      var n := Min(fills[b].quantity, fills[s].quantity);
      var fills' := fills[b := Traded(engine, fills[b], n)][s := Traded(engine, fills[s], n)];
      var buys' := if fills'[b].quantity == 0 then buys[1..] else buys;
      var sells' := if fills'[s].quantity == 0 then sells[1..] else sells;
      var trade := Trade(nextTradeId, b.orderId, s.orderId, instrumentId, s.price, n, now);
      TradeStep(engine, instrumentId, buys, sells, fills, nextTradeId, now, n, buys', sells', fills');
      RunTradeIds(engine, instrumentId, buys', sells', fills', nextTradeId + 1, now);
      var rest := Run(engine, instrumentId, buys', sells', fills', nextTradeId + 1, now);
      forall k | 0 <= k < |[trade] + rest.trades|
        ensures ([trade] + rest.trades)[k].tradeId == nextTradeId + k
      {
        if k > 0 {
          assert ([trade] + rest.trades)[k] == rest.trades[k - 1];
        }
      }
    }
  }

  /**
   * Every trade of a pass pairs a queued buy with a queued sell that it
   * crosses, at the sell price, and (except in the older loop) of another
   * trader.
   */
  lemma {:induction false} RunTradePairs(engine: Engine, instrumentId: InstrumentId, buys: seq<Order>, sells: seq<Order>,
                                         fills: map<Order, Fill>, nextTradeId: nat, now: nat)
    requires Covers(buys, sells, fills)
    ensures var p := Run(engine, instrumentId, buys, sells, fills, nextTradeId, now);
      forall t :: t in p.trades ==> exists b, s :: b in buys && s in sells && Pairs(engine, t, b, s)
    decreases |buys| + |sells|
  {
    if buys == [] || sells == [] {
      return;
    }
    var b, s := buys[0], sells[0];
    if engine == Lazy && b.price < s.price {
      HaltStep(engine, instrumentId, buys, sells, fills, nextTradeId, now);
    } else if engine != Legacy && Stale(fills[b]) {
      SkipBuyStep(engine, instrumentId, buys, sells, fills, nextTradeId, now);
      RunTradePairs(engine, instrumentId, buys[1..], sells, fills, nextTradeId, now);
      var p := Run(engine, instrumentId, buys[1..], sells, fills, nextTradeId, now);
      forall t | t in p.trades ensures exists b0, s0 :: b0 in buys && s0 in sells && Pairs(engine, t, b0, s0) {
        var b0, s0 :| b0 in buys[1..] && s0 in sells && Pairs(engine, t, b0, s0);
        assert b0 in buys;
      }
    } else if engine != Legacy && Stale(fills[s]) {
      SkipSellStep(engine, instrumentId, buys, sells, fills, nextTradeId, now);
      RunTradePairs(engine, instrumentId, buys, sells[1..], fills, nextTradeId, now);
      var p := Run(engine, instrumentId, buys, sells[1..], fills, nextTradeId, now);
      forall t | t in p.trades ensures exists b0, s0 :: b0 in buys && s0 in sells && Pairs(engine, t, b0, s0) {
        var b0, s0 :| b0 in buys && s0 in sells[1..] && Pairs(engine, t, b0, s0);
        assert s0 in sells;
      }
    } else if b.price < s.price || (engine != Legacy && b.traderId == s.traderId) {
      HaltStep(engine, instrumentId, buys, sells, fills, nextTradeId, now);
    } else {
      var n := Min(fills[b].quantity, fills[s].quantity);
      var fills' := fills[b := Traded(engine, fills[b], n)][s := Traded(engine, fills[s], n)];
      var buys' := if fills'[b].quantity == 0 then buys[1..] else buys;
      var sells' := if fills'[s].quantity == 0 then sells[1..] else sells;
      var trade := Trade(nextTradeId, b.orderId, s.orderId, instrumentId, s.price, n, now);
      TradeStep(engine, instrumentId, buys, sells, fills, nextTradeId, now, n, buys', sells', fills');
      RunTradePairs(engine, instrumentId, buys', sells', fills', nextTradeId + 1, now);
      var rest := Run(engine, instrumentId, buys', sells', fills', nextTradeId + 1, now);
      assert Pairs(engine, trade, b, s);
      forall t | t in [trade] + rest.trades
        ensures exists b0, s0 :: b0 in buys && s0 in sells && Pairs(engine, t, b0, s0)
      {
        if t != trade {
          assert t in rest.trades;
          var b0, s0 :| b0 in buys' && s0 in sells' && Pairs(engine, t, b0, s0);
          assert b0 in buys && s0 in sells;
        }
      }
    }
  }

  /** No remaining quantity is negative. */
  ghost predicate NonNegative(fills: map<Order, Fill>) {
    forall o :: o in fills ==> fills[o].quantity >= 0
  }

  /**
   * With no negative quantity to start from, a pass never makes one, never
   * raises a remaining quantity, and trades a positive quantity each time (the
   * Legacy loop, which does not skip an order with nothing left, may trade 0).
   */
  lemma {:induction false} RunVolumes(engine: Engine, instrumentId: InstrumentId, buys: seq<Order>, sells: seq<Order>,
                                      fills: map<Order, Fill>, nextTradeId: nat, now: nat)
    requires Covers(buys, sells, fills) && NonNegative(fills)
    ensures var p := Run(engine, instrumentId, buys, sells, fills, nextTradeId, now);
      && p.fills.Keys == fills.Keys
      && NonNegative(p.fills)
      && (forall o :: o in fills ==> p.fills[o].quantity <= fills[o].quantity)
      && (forall t :: t in p.trades ==> t.quantity >= 0 && (engine != Legacy ==> t.quantity > 0))
    decreases |buys| + |sells|
  {
    if buys == [] || sells == [] {
      return;
    }
    var b, s := buys[0], sells[0];
    if engine == Lazy && b.price < s.price {
      HaltStep(engine, instrumentId, buys, sells, fills, nextTradeId, now);
    } else if engine != Legacy && Stale(fills[b]) {
      SkipBuyStep(engine, instrumentId, buys, sells, fills, nextTradeId, now);
      RunVolumes(engine, instrumentId, buys[1..], sells, fills, nextTradeId, now);
    } else if engine != Legacy && Stale(fills[s]) {
      SkipSellStep(engine, instrumentId, buys, sells, fills, nextTradeId, now);
      RunVolumes(engine, instrumentId, buys, sells[1..], fills, nextTradeId, now);
    } else if b.price < s.price || (engine != Legacy && b.traderId == s.traderId) {
      HaltStep(engine, instrumentId, buys, sells, fills, nextTradeId, now);
    } else {
      var n := Min(fills[b].quantity, fills[s].quantity);
      var fills' := fills[b := Traded(engine, fills[b], n)][s := Traded(engine, fills[s], n)];
      var buys' := if fills'[b].quantity == 0 then buys[1..] else buys;
      var sells' := if fills'[s].quantity == 0 then sells[1..] else sells;
      TradeStep(engine, instrumentId, buys, sells, fills, nextTradeId, now, n, buys', sells', fills');
      assert 0 <= n && (engine != Legacy ==> 0 < n);
      assert NonNegative(fills') && forall o :: o in fills ==> fills'[o].quantity <= fills[o].quantity;
      RunVolumes(engine, instrumentId, buys', sells', fills', nextTradeId + 1, now);
    }
  }

  /** Total quantity of a list of trades. */
  function Volume(trades: seq<Trade>): int {
    if trades == [] then 0 else trades[0].quantity + Volume(trades[1..])
  }

  /** Total remaining quantity of the orders `os`. */
  ghost function Outstanding(os: seq<Order>, fills: map<Order, Fill>): int
    requires forall o :: o in os ==> o in fills
  {
    if os == [] then 0 else fills[os[0]].quantity + Outstanding(os[1..], fills)
  }

  predicate Distinct(os: seq<Order>) {
    forall i, j :: 0 <= i < j < |os| ==> os[i] != os[j]
  }

  /** Changing the state of one order changes the total by its change in quantity if it is listed, and not at all otherwise. */
  lemma {:induction false} OutstandingUpdate(os: seq<Order>, fills: map<Order, Fill>, o: Order, f: Fill)
    requires forall x :: x in os ==> x in fills
    requires Distinct(os)
    ensures Outstanding(os, fills[o := f]) == Outstanding(os, fills) + (if o in os then f.quantity - (if o in fills then fills[o].quantity else 0) else 0)
  {
    if os != [] {
      assert Distinct(os[1..]) by {
        forall i, j | 0 <= i < j < |os[1..]| ensures os[1..][i] != os[1..][j] {
          assert os[1..][i] == os[i + 1] && os[1..][j] == os[j + 1];
        }
      }
      OutstandingUpdate(os[1..], fills, o, f);
      if os[0] == o {
        assert o !in os[1..] by {
          forall j | 0 <= j < |os[1..]| ensures os[1..][j] != o {
            assert os[1..][j] == os[j + 1];
          }
        }
      }
    }
  }

  /**
   * Conservation, side by side: whatever list `os` of distinct orders of one
   * side covers that side's queue, the remaining quantity of those orders falls
   * by exactly the volume the pass trades.
   */
  lemma {:induction false} RunConserves(engine: Engine, instrumentId: InstrumentId, buys: seq<Order>, sells: seq<Order>,
                                        fills: map<Order, Fill>, nextTradeId: nat, now: nat,
                                        side: OrderType, os: seq<Order>)
    requires Covers(buys, sells, fills)
    requires (forall o :: o in buys ==> o.orderType == BUY) && (forall o :: o in sells ==> o.orderType == SELL)
    requires Distinct(os) && forall o :: o in os ==> o in fills && o.orderType == side
    requires side == BUY ==> forall o :: o in buys ==> o in os
    requires side == SELL ==> forall o :: o in sells ==> o in os
    ensures var p := Run(engine, instrumentId, buys, sells, fills, nextTradeId, now);
      && (forall o :: o in os ==> o in p.fills)
      && Outstanding(os, fills) - Outstanding(os, p.fills) == Volume(p.trades)
    decreases |buys| + |sells|
  {
    if buys == [] || sells == [] {
      return;
    }
    var b, s := buys[0], sells[0];
    if engine == Lazy && b.price < s.price {
      HaltStep(engine, instrumentId, buys, sells, fills, nextTradeId, now);
    } else if engine != Legacy && Stale(fills[b]) {
      SkipBuyStep(engine, instrumentId, buys, sells, fills, nextTradeId, now);
      RunConserves(engine, instrumentId, buys[1..], sells, fills, nextTradeId, now, side, os);
    } else if engine != Legacy && Stale(fills[s]) {
      SkipSellStep(engine, instrumentId, buys, sells, fills, nextTradeId, now);
      RunConserves(engine, instrumentId, buys, sells[1..], fills, nextTradeId, now, side, os);
    } else if b.price < s.price || (engine != Legacy && b.traderId == s.traderId) {
      HaltStep(engine, instrumentId, buys, sells, fills, nextTradeId, now);
    } else {
      var n := Min(fills[b].quantity, fills[s].quantity);
      var fills1 := fills[b := Traded(engine, fills[b], n)];
      var fills' := fills1[s := Traded(engine, fills[s], n)];
      var buys' := if fills'[b].quantity == 0 then buys[1..] else buys;
      var sells' := if fills'[s].quantity == 0 then sells[1..] else sells;
      var trade := Trade(nextTradeId, b.orderId, s.orderId, instrumentId, s.price, n, now);
      TradeStep(engine, instrumentId, buys, sells, fills, nextTradeId, now, n, buys', sells', fills');
      OutstandingUpdate(os, fills, b, Traded(engine, fills[b], n));
      OutstandingUpdate(os, fills1, s, Traded(engine, fills[s], n));
      assert Outstanding(os, fills) - Outstanding(os, fills') == n;
      RunConserves(engine, instrumentId, buys', sells', fills', nextTradeId + 1, now, side, os);
      var rest := Run(engine, instrumentId, buys', sells', fills', nextTradeId + 1, now);
      assert ([trade] + rest.trades)[1..] == rest.trades;
    }
  }
}
