/** When an upside sale can take the asset that triggered it below the mean. */
module UpsideLaws {
  import opened Sums
  import opened Portfolio
  import opened Rebalancing
  import opened ConservationLaws
  import opened DownsideLaws
  import opened FundingLaws

  /** A solvent ledger in which s is worth more than the upside threshold allows. */
  ghost predicate PastThreshold(
    config: RebalanceConfig, assets: seq<Symbol>, l: Ledger, prices: map<Symbol, real>, timestamp: real, s: Symbol)
  {
    && Priced(assets, prices) && l.Solvent() && s in assets && s in l.positions
    && Snapshot(assets, l, prices, timestamp).Deviation(s) > config.upsideThreshold
  }

  /** Value of s after the upside rebalance. */
  function ValueAfter(
    config: RebalanceConfig, assets: seq<Symbol>, l: Ledger, prices: map<Symbol, real>, timestamp: real,
    s: Symbol): real
    requires s in assets
  {
    var actions := UpsideActions(config, assets, Snapshot(assets, l, prices, timestamp), s);
    Execute(config.tradingFee, l, actions).ledger.Value(prices, s)
  }

  // ----- the value after the sale

  /** Every purchase after the sale is of another asset. */
  lemma OthersAreBought(config: RebalanceConfig, assets: seq<Symbol>, st: PortfolioState, s: Symbol)
    returns (buys: seq<RebalanceAction>)
    requires s in st.assets && UpsideActions(config, assets, st, s) != []
    ensures UpsideActions(config, assets, st, s) == [UpsideSell(config, st, s)] + buys
    ensures UpsideSell(config, st, s).valueUsdt >= config.minOrderValue
    ensures forall i :: 0 <= i < |buys| ==> buys[i].symbol != s
  {
    hide UpsideSell, ToRedistribute, PerAsset, Orders, Others;
    var sell := UpsideSell(config, st, s);
    var others := Others(assets, s);
    OthersDiffer(assets, s);
    buys := [];
    if |others| > 0 && ToRedistribute(config, sell.valueUsdt) > 0.0 {
      buys := Orders(config.minOrderValue, st, BUY, others, Same(PerAsset(config, sell.valueUsdt, |others|)));
      OrdersForTargets(config.minOrderValue, st, BUY, others, Same(PerAsset(config, sell.valueUsdt, |others|)));
      forall i | 0 <= i < |buys|
        ensures buys[i].symbol != s
      {
        assert buys[i].symbol in others;
      }
    } else {
      assert [sell] + buys == [sell];
    }
  }

  lemma OthersDiffer(assets: seq<Symbol>, s: Symbol)
    ensures forall a :: a in Others(assets, s) ==> a != s
  {
    assert forall a :: a in Others(assets, s) ==> IsNot(s)(a);
  }

  /** Each order is for one of the targets. */
  ghost predicate AllFor(orders: seq<RebalanceAction>, targets: seq<Symbol>)
  {
    forall i :: 0 <= i < |orders| ==> orders[i].symbol in targets
  }

  lemma AllForSnoc(orders: seq<RebalanceAction>, targets: seq<Symbol>, n: nat, a: RebalanceAction)
    requires n < |targets| && AllFor(orders, targets[..n]) && a.symbol == targets[n]
    ensures AllFor(orders, targets) && AllFor(orders + [a], targets)
  {
  }

  lemma {:induction false} OrdersForTargets(
    minimum: real, st: PortfolioState, side: Side, targets: seq<Symbol>, value: Symbol -> real)
    ensures AllFor(Orders(minimum, st, side, targets, value), targets)
  {
    if |targets| == 0 {
    } else {
      hide AllFor;
      var n := |targets| - 1;
      var before := Orders(minimum, st, side, targets[..n], value);
      OrdersForTargets(minimum, st, side, targets[..n], value);
      AllForSnoc(before, targets, n, RebalanceAction(0.0, REDISTRIBUTE, targets[n], side, 0.0, 0.0, 0.0));
      if Orderable(st, targets[n]) {
        AllForSnoc(before, targets, n, Order(st, REDISTRIBUTE, side, targets[n], value(targets[n])));
      }
    }
  }

  /** What is left of a value after selling a fraction of it. */
  function Rest(value: real, fraction: real): real
  {
    value * (1.0 - fraction)
  }

  lemma SoldFraction(quantity: real, fraction: real, price: real, value: real)
    requires value == quantity * price
    ensures value - (quantity * fraction) * price == Rest(value, fraction)
  {
  }

  /** After the sale the asset keeps exactly the unsold fraction; without one, everything. */
  lemma ValueAfterIs(
    config: RebalanceConfig, assets: seq<Symbol>, l: Ledger, prices: map<Symbol, real>, timestamp: real, s: Symbol)
    requires Priced(assets, prices) && l.Solvent() && s in assets && s in l.positions && config.sellPercentage <= 1.0
    ensures ValueAfter(config, assets, l, prices, timestamp, s)
         == if UpsideActions(config, assets, Snapshot(assets, l, prices, timestamp), s) == [] then l.Value(prices, s)
            else Rest(l.Value(prices, s), config.sellPercentage)
  {
    hide Mean, Ledger.TotalValue, UpsideActions, Rest, UpsideSell, Ledger.Solvent, Priced, Execute, Held;
    var st := Snapshot(assets, l, prices, timestamp);
    var actions := UpsideActions(config, assets, st, s);
    if actions == [] {
      ExecuteNothing(config.tradingFee, l);
    } else {
      var sell := UpsideSell(config, st, s);
      var buys := OthersAreBought(config, assets, st, s);
      UpsideSellHeld(config, assets, l, prices, timestamp, s);
      SellMovesValue(config, assets, l, prices, timestamp, s);
      ExecuteConcat(config.tradingFee, l, [sell], buys);
      UntouchedValue(config.tradingFee, Execute(config.tradingFee, l, [sell]).ledger, prices, buys, s);
    }
  }

  lemma ExecuteNothing(fee: real, l: Ledger)
    ensures Execute(fee, l, []).ledger == l
  {
  }

  /** The sale alone. */
  lemma SellMovesValue(
    config: RebalanceConfig, assets: seq<Symbol>, l: Ledger, prices: map<Symbol, real>, timestamp: real, s: Symbol)
    requires Priced(assets, prices) && s in assets
    requires Held(l, UpsideSell(config, Snapshot(assets, l, prices, timestamp), s))
    ensures Execute(config.tradingFee, l,
                    [UpsideSell(config, Snapshot(assets, l, prices, timestamp), s)]).ledger.Value(prices, s)
         == Rest(l.Value(prices, s), config.sellPercentage)
  {
    hide Mean, Ledger.TotalValue, Ledger.Value, Attempt, Held, UpsideSell, Rest;
    var sell := UpsideSell(config, Snapshot(assets, l, prices, timestamp), s);
    SellFields(config, assets, l, prices, timestamp, s);
    SaleExecutes(config.tradingFee, l, sell);
    TradeMovesValue(config.tradingFee, prices, l, sell);
    assert [sell][..0] == [];
  }

  lemma SellFields(
    config: RebalanceConfig, assets: seq<Symbol>, l: Ledger, prices: map<Symbol, real>, timestamp: real, s: Symbol)
    requires Priced(assets, prices) && s in assets
    ensures var sell := UpsideSell(config, Snapshot(assets, l, prices, timestamp), s);
            && sell.symbol == s && sell.side == SELL && sell.price == prices[s]
            && sell.valueUsdt == sell.quantity * sell.price
            && l.Value(prices, s) - sell.valueUsdt == Rest(l.Value(prices, s), config.sellPercentage)
  {
    hide Mean, Ledger.TotalValue, Rest;
    var sell := UpsideSell(config, Snapshot(assets, l, prices, timestamp), s);
    assert sell.valueUsdt == (l.Position(s) * config.sellPercentage) * prices[s];
    assert l.Value(prices, s) == l.Position(s) * prices[s];
    SoldFraction(l.Position(s), config.sellPercentage, prices[s], l.Value(prices, s));
  }

  // ----- never below the mean

  /** The unsold fraction of an asset just beyond the threshold is still worth the mean. */
  predicate KeepsMean(config: RebalanceConfig)
  {
    (1.0 - config.sellPercentage) * (1.0 + config.upsideThreshold) >= 1.0
  }

  lemma DeviationMeans(st: PortfolioState, s: Symbol, threshold: real)
    requires s in st.assets && st.meanAssetValue > 0.0
    ensures st.Deviation(s) > threshold <==> st.assets[s].valueUsdt > (1.0 + threshold) * st.meanAssetValue
  {
    var d := st.Deviation(s);
    var m := st.meanAssetValue;
    assert d * m == st.assets[s].valueUsdt - m;
    if d > threshold {
      Larger(d, threshold, m);
    } else {
      AtMost(d, threshold, m);
    }
  }

  lemma Positive(a: real, b: real)
    requires a > 0.0 && b > 0.0
    ensures a * b > 0.0
  {
  }

  lemma Larger(x: real, y: real, m: real)
    requires x > y && m > 0.0
    ensures x * m > y * m
  {
    assert (x - y) * m > 0.0;
  }

  lemma AtMost(x: real, y: real, m: real)
    requires x <= y && m >= 0.0
    ensures x * m <= y * m
  {
    assert (y - x) * m >= 0.0;
  }

  /** value > (1 + threshold) * mean leaves at least the mean after the sale. */
  lemma RestAboveMean(value: real, mean: real, fraction: real, threshold: real)
    requires mean > 0.0 && value > (1.0 + threshold) * mean && 0.0 <= fraction <= 1.0
    requires (1.0 - fraction) * (1.0 + threshold) >= 1.0
    ensures Rest(value, fraction) >= mean && value >= mean
  {
    hide Rest;
    RestScales(mean, 1.0 + threshold, value, fraction);
    PositiveFactor(1.0 - fraction, 1.0 + threshold);
    Positive(1.0 + threshold, mean);
    RestIsLess(value, fraction);
  }

  lemma RestScales(mean: real, k: real, value: real, fraction: real)
    requires mean > 0.0 && value > k * mean && fraction <= 1.0 && (1.0 - fraction) * k >= 1.0
    ensures Rest(value, fraction) >= mean
  {
    var keep := 1.0 - fraction;
    AtMost(k * mean, value, keep);
    AtMost(1.0, keep * k, mean);
    Regroup(k, mean, keep);
  }

  lemma Regroup(k: real, mean: real, keep: real)
    ensures (k * mean) * keep == (keep * k) * mean
  {
  }

  lemma PositiveFactor(x: real, y: real)
    requires x >= 0.0 && x * y >= 1.0
    ensures y > 0.0
  {
    if y <= 0.0 {
      AtMost(y, 0.0, x);
    }
  }

  lemma RestIsLess(value: real, fraction: real)
    requires value >= 0.0 && fraction >= 0.0
    ensures Rest(value, fraction) <= value
  {
    AtMost(1.0 - fraction, 1.0, value);
  }

  lemma MeanNonNegative(assets: seq<Symbol>, l: Ledger, prices: map<Symbol, real>)
    requires Priced(assets, prices) && l.Solvent()
    ensures Mean(assets, l, prices) >= 0.0
  {
    hide Ledger.Value;
    forall s | s in assets
      ensures l.Values(prices)(s) >= 0.0
    {
      HoldingNonNegative(assets, l, prices, s);
    }
    SumMonotone(assets, _ => 0.0, l.Values(prices));
    SumConstant<Symbol>(assets, _ => 0.0, 0.0);
  }

  lemma HoldingNonNegative(assets: seq<Symbol>, l: Ledger, prices: map<Symbol, real>, s: Symbol)
    requires Priced(assets, prices) && l.Solvent() && s in assets
    ensures l.Value(prices, s) >= 0.0
  {
    ValueNonNegative(l, prices, s);
  }

  lemma RestNonNegative(value: real, fraction: real)
    requires value >= 0.0 && fraction <= 1.0
    ensures Rest(value, fraction) >= 0.0
  {
  }

  /** With such parameters selling the fraction never takes an asset past the threshold below the mean. */
  lemma UpsideStaysAboveMean(
    config: RebalanceConfig, assets: seq<Symbol>, l: Ledger, prices: map<Symbol, real>, timestamp: real, s: Symbol)
    requires PastThreshold(config, assets, l, prices, timestamp, s)
    requires 0.0 <= config.sellPercentage <= 1.0 && KeepsMean(config)
    ensures ValueAfter(config, assets, l, prices, timestamp, s) >= Snapshot(assets, l, prices, timestamp).meanAssetValue
  {
    hide Mean, Ledger.TotalValue, Ledger.Value, UpsideActions, Rest, ValueAfter, PortfolioState.Deviation,
      Ledger.Solvent;
    var st := Snapshot(assets, l, prices, timestamp);
    ValueAfterIs(config, assets, l, prices, timestamp, s);
    MeanNonNegative(assets, l, prices);
    HoldingNonNegative(assets, l, prices, s);
    if st.meanAssetValue > 0.0 {
      DeviationMeans(st, s, config.upsideThreshold);
      RestAboveMean(l.Value(prices, s), st.meanAssetValue, config.sellPercentage, config.upsideThreshold);
    } else {
      RestNonNegative(l.Value(prices, s), config.sellPercentage);
    }
  }

  /** An upside trigger is past the threshold. */
  lemma {:induction false} TriggerIsPastThreshold(
    config: RebalanceConfig, last: map<Symbol, real>, st: PortfolioState, i: nat)
    requires i <= |st.symbols| && st.WellFormed()
    ensures var t := FirstTrigger(config, last, st, i);
            t.Some? && t.value.direction == Upside ==> st.Deviation(t.value.symbol) > config.upsideThreshold
    decreases |st.symbols| - i
  {
    if i < |st.symbols| && TriggerOf(config, last, st, st.symbols[i]).None? {
      TriggerIsPastThreshold(config, last, st, i + 1);
    }
  }
}
