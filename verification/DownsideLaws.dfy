/** A downside rebalance moves every asset it touches towards the mean and never past it. */
module DownsideLaws {
  import opened Sums
  import opened Portfolio
  import opened Rebalancing
  import opened ConservationLaws

  // ----- the deficit is covered by the excess of the outperformers

  lemma MeanTimesCount(assets: seq<Symbol>, l: Ledger, prices: map<Symbol, real>)
    requires |assets| > 0
    ensures |assets| as real * Mean(assets, l, prices) == Sum(assets, l.Values(prices))
  {
  }

  /** Deviations from the mean cancel out. */
  lemma ExcessesCancel(assets: seq<Symbol>, l: Ledger, prices: map<Symbol, real>, timestamp: real)
    requires |assets| > 0
    ensures Sum(assets, Excess(Snapshot(assets, l, prices, timestamp))) == 0.0
  {
    hide *;
    ExcessOf(assets, l, prices, timestamp);
    SumShift(assets, l.Values(prices), Excess(Snapshot(assets, l, prices, timestamp)), Mean(assets, l, prices));
    MeanTimesCount(assets, l, prices);
  }

  lemma ExcessOf(assets: seq<Symbol>, l: Ledger, prices: map<Symbol, real>, timestamp: real)
    ensures forall s :: s in assets ==>
              Excess(Snapshot(assets, l, prices, timestamp))(s) == l.Values(prices)(s) - Mean(assets, l, prices)
  {
    hide Mean, Ledger.Value;
  }

  /** The outperformers' total excess is at least the trigger's deficit. */
  lemma ExcessCoversDeficit(assets: seq<Symbol>, l: Ledger, prices: map<Symbol, real>, timestamp: real, s: Symbol)
    requires Distinct(assets) && s in assets
    ensures var st := Snapshot(assets, l, prices, timestamp);
            Sum(Outperformers(st, s), Excess(st)) >= Deficit(st, s)
  {
    var st := Snapshot(assets, l, prices, timestamp);
    var excess := Excess(st);
    var without := (a: Symbol) => if a == s then 0.0 else excess(a);
    var positive := Masked(IsOutperformer(st, s), excess);
    SumFilter(assets, IsOutperformer(st, s), excess);
    ExcessesCancel(assets, l, prices, timestamp);
    SumChangeOne(assets, excess, without, s);
    SumMonotone(assets, without, positive);
  }

  // ----- every support sale is within the seller's own excess

  /** The part of d that falls to e when d is split in proportion over a total. */
  function Portion(d: real, total: real, e: real): real
    requires total > 0.0
  {
    (d / total) * e
  }

  lemma RatioBound(x: real, t: real)
    requires 0.0 <= x <= t && t > 0.0
    ensures 0.0 <= x / t <= 1.0 && (x / t) * t == x
  {
  }

  lemma CrossRatio(d: real, e: real, t: real, k: real, r: real)
    requires k * t == d && r * t == e
    ensures d * r == k * e
  {
    calc {
      d * r;
      (k * t) * r;
      k * (r * t);
      k * e;
    }
  }

  lemma FractionBound(k: real, e: real)
    requires 0.0 <= k <= 1.0 && e >= 0.0
    ensures 0.0 <= k * e <= e
  {
  }

  lemma PortionBound(d: real, e: real, total: real)
    requires 0.0 < e <= total && 0.0 <= d <= total
    ensures 0.0 <= Portion(d, total, e) <= e
    ensures d * Min(e / total, 1.0) == Portion(d, total, e)
  {
    var k, r := d / total, e / total;
    RatioBound(d, total);
    RatioBound(e, total);
    assert Portion(d, total, e) == k * e;
    CrossRatio(d, e, total, k, r);
    FractionBound(k, e);
  }

  lemma SupportIsPortion(st: PortfolioState, d: real, total: real, a: Symbol)
    requires a in st.assets && 0.0 < Excess(st)(a) <= total && 0.0 <= d <= total
    ensures SupportValue(st, d, total)(a) == Min(Portion(d, total, Excess(st)(a)), st.assets[a].valueUsdt * 0.25)
  {
    hide Portion;
    PortionBound(d, Excess(st)(a), total);
  }

  lemma SupportBound(st: PortfolioState, d: real, total: real, a: Symbol)
    requires a in st.assets && st.assets[a].valueUsdt >= 0.0
    requires 0.0 < Excess(st)(a) <= total && 0.0 <= d <= total
    ensures var value := SupportValue(st, d, total)(a);
            && 0.0 <= value <= Excess(st)(a)
            && value <= Portion(d, total, Excess(st)(a))
            && value <= st.assets[a].valueUsdt * 0.25
  {
    hide Portion, SupportValue, Excess;
    SupportIsPortion(st, d, total, a);
    PortionBound(d, Excess(st)(a), total);
  }

  lemma ValueNonNegative(l: Ledger, prices: map<Symbol, real>, s: Symbol)
    requires l.Solvent() && s in prices && prices[s] > 0.0
    ensures l.Value(prices, s) >= 0.0
  {
  }

  /** Each support sale is within the seller's excess, its quarter cap and its share of the deficit. */
  lemma SupportBounds(
    assets: seq<Symbol>, l: Ledger, prices: map<Symbol, real>, timestamp: real, s: Symbol, a: Symbol)
    requires Distinct(assets) && Priced(assets, prices) && l.Solvent() && s in assets
    requires a in Outperformers(Snapshot(assets, l, prices, timestamp), s)
    requires Deficit(Snapshot(assets, l, prices, timestamp), s) > 0.0
    ensures var st := Snapshot(assets, l, prices, timestamp);
            var total := Sum(Outperformers(st, s), Excess(st));
            var value := SupportValue(st, Deficit(st, s), total)(a);
            && total > 0.0
            && 0.0 <= value <= Excess(st)(a)
            && value <= Portion(Deficit(st, s), total, Excess(st)(a))
            && value <= l.Value(prices, a) * 0.25
  {
    hide Mean, Ledger.TotalValue, Ledger.Value, Excess, SupportValue, Portion;
    var st := Snapshot(assets, l, prices, timestamp);
    ExcessCoversDeficit(assets, l, prices, timestamp, s);
    SumAtLeastTerm(Outperformers(st, s), Excess(st), a);
    ValueNonNegative(l, prices, a);
    SupportBound(st, Deficit(st, s), Sum(Outperformers(st, s), Excess(st)), a);
  }

  lemma {:induction false} SumPortions(xs: seq<Symbol>, f: Symbol -> real, d: real, total: real)
    requires total > 0.0
    ensures Sum(xs, x => Portion(d, total, f(x))) == Portion(d, total, Sum(xs, f))
  {
    if |xs| == 0 {
    } else {
      SumPortions(xs[..|xs| - 1], f, d, total);
    }
  }

  /** Together the support sales raise at most the deficit. */
  lemma SupportWithinDeficit(
    assets: seq<Symbol>, l: Ledger, prices: map<Symbol, real>, timestamp: real, s: Symbol)
    requires Distinct(assets) && Priced(assets, prices) && l.Solvent() && s in assets
    requires Deficit(Snapshot(assets, l, prices, timestamp), s) > 0.0
    ensures var st := Snapshot(assets, l, prices, timestamp);
            var sources := Outperformers(st, s);
            Sum(sources, SupportValue(st, Deficit(st, s), Sum(sources, Excess(st)))) <= Deficit(st, s)
  {
    var st := Snapshot(assets, l, prices, timestamp);
    var sources := Outperformers(st, s);
    var total := Sum(sources, Excess(st));
    var d := Deficit(st, s);
    var value := SupportValue(st, d, total);
    hide *;
    ExcessCoversDeficit(assets, l, prices, timestamp, s);
    var share := x => if total > 0.0 then Portion(d, total, Excess(st)(x)) else 0.0;
    forall a | a in sources
      ensures value(a) <= share(a)
    {
      SupportBounds(assets, l, prices, timestamp, s, a);
    }
    SumMonotone(sources, value, share);
    SumPortions(sources, Excess(st), d, total);
    SumCongruent(sources, share, x => Portion(d, total, Excess(st)(x)));
    WholePortion(d, total);
  }

  lemma WholePortion(d: real, total: real)
    requires total > 0.0
    ensures Portion(d, total, total) == d
  {
  }

  // ----- executing moves towards the mean

  /** The action moves its asset's value towards the mean, at most up to it. */
  ghost predicate TowardsMean(l: Ledger, prices: map<Symbol, real>, mean: real, a: RebalanceAction)
  {
    match a.side
    case BUY => 0.0 <= a.valueUsdt <= mean - l.Value(prices, a.symbol)
    case SELL => 0.0 <= a.valueUsdt <= l.Value(prices, a.symbol) - mean
    case UNKNOWN => false
  }

  ghost predicate OncePerAsset(actions: seq<RebalanceAction>)
  {
    forall i, j :: 0 <= i < j < |actions| ==> actions[i].symbol != actions[j].symbol
  }

  ghost predicate Contracting(
    assets: seq<Symbol>, l: Ledger, prices: map<Symbol, real>, mean: real, actions: seq<RebalanceAction>)
  {
    && AllFair(assets, prices, actions)
    && OncePerAsset(actions)
    && forall i :: 0 <= i < |actions| ==> TowardsMean(l, prices, mean, actions[i])
  }

  function Gap(l: Ledger, prices: map<Symbol, real>, mean: real): Symbol -> real
  {
    s => Abs(l.Value(prices, s) - mean)
  }

  /** Distance of the portfolio from equal weights, summed over the assets. */
  function Distance(assets: seq<Symbol>, l: Ledger, prices: map<Symbol, real>, mean: real): real
  {
    Sum(assets, Gap(l, prices, mean))
  }

  /** Value of the actions that were carried out. */
  function ExecutedVolume(actions: seq<RebalanceAction>, executed: seq<bool>): real
    requires |actions| == |executed|
  {
    if |actions| == 0 then 0.0
    else
      var n := |actions| - 1;
      ExecutedVolume(actions[..n], executed[..n]) + if executed[n] then actions[n].valueUsdt else 0.0
  }

  /** Positions that no action names are untouched. */
  lemma {:induction false} UntouchedPosition(fee: real, l: Ledger, actions: seq<RebalanceAction>, s: Symbol)
    requires forall i :: 0 <= i < |actions| ==> actions[i].symbol != s
    ensures Execute(fee, l, actions).ledger.Position(s) == l.Position(s)
  {
    if |actions| == 0 {
    } else {
      UntouchedPosition(fee, l, actions[..|actions| - 1], s);
    }
  }

  /** v lies between u and m, on u's side of m. */
  predicate Approaches(u: real, v: real, m: real)
  {
    if u <= m then u <= v <= m else m <= v <= u
  }

  /** Whatever subset of contracting actions is refused, no asset passes the mean, and the
      distance to equal weights falls by exactly the executed volume. */
  lemma {:induction false} ExecutionContracts(
    fee: real, assets: seq<Symbol>, l: Ledger, prices: map<Symbol, real>, mean: real, actions: seq<RebalanceAction>)
    requires Distinct(assets) && Contracting(assets, l, prices, mean, actions)
    ensures var run := Execute(fee, l, actions);
            && Distance(assets, run.ledger, prices, mean)
               == Distance(assets, l, prices, mean) - ExecutedVolume(actions, run.executed)
            && forall s :: s in assets ==> Approaches(l.Value(prices, s), run.ledger.Value(prices, s), mean)
  {
    if |actions| == 0 {
    } else {
      var n := |actions| - 1;
      var a := actions[n];
      ExecutionContracts(fee, assets, l, prices, mean, actions[..n]);
      var before := Execute(fee, l, actions[..n]).ledger;
      UntouchedValue(fee, l, prices, actions[..n], a.symbol);
      assert Execute(fee, l, actions).executed[..n] == Execute(fee, l, actions[..n]).executed;
      TradeContracts(fee, assets, before, prices, mean, a) by {
        hide Ledger.Value, Execute;
        assert Fair(assets, prices, a) && TowardsMean(l, prices, mean, a);
      }
      hide Ledger.Value, Attempt, Distance, TowardsMean, Fair;
    }
  }

  /** One contracting trade. */
  lemma TradeContracts(
    fee: real, assets: seq<Symbol>, l: Ledger, prices: map<Symbol, real>, mean: real, a: RebalanceAction)
    requires Distinct(assets) && Fair(assets, prices, a) && TowardsMean(l, prices, mean, a)
    ensures match Attempt(fee, l, a)
            case Success(out) =>
              && Distance(assets, out.0, prices, mean) == Distance(assets, l, prices, mean) - a.valueUsdt
              && Approaches(l.Value(prices, a.symbol), out.0.Value(prices, a.symbol), mean)
              && forall s :: s != a.symbol ==> out.0.Value(prices, s) == l.Value(prices, s)
            case Failure(_) => true
  {
    hide Attempt, Ledger.Value;
    TradeMovesValue(fee, prices, l, a);
    var r := Attempt(fee, l, a);
    if r.Success? {
      SumChangeOne(assets, Gap(l, prices, mean), Gap(r.value.0, prices, mean), a.symbol);
    }
  }

  lemma UntouchedValue(fee: real, l: Ledger, prices: map<Symbol, real>, actions: seq<RebalanceAction>, s: Symbol)
    requires forall i :: 0 <= i < |actions| ==> actions[i].symbol != s
    ensures Execute(fee, l, actions).ledger.Value(prices, s) == l.Value(prices, s)
  {
    UntouchedPosition(fee, l, actions, s);
  }

  // ----- the generated downside actions contract

  lemma {:induction false} OrdersShape(
    minimum: real, st: PortfolioState, side: Side, targets: seq<Symbol>, value: Symbol -> real)
    requires Distinct(targets)
    ensures var orders := Orders(minimum, st, side, targets, value);
            && OncePerAsset(orders)
            && forall i :: 0 <= i < |orders| ==>
                 orders[i].symbol in targets && orders[i].side == side && orders[i].valueUsdt == value(orders[i].symbol)
  {
    if |targets| == 0 {
    } else {
      OrdersShape(minimum, st, side, targets[..|targets| - 1], value);
    }
  }

  lemma {:induction false} OrdersVolume(
    minimum: real, st: PortfolioState, side: Side, targets: seq<Symbol>, value: Symbol -> real)
    requires forall s :: s in targets ==> value(s) >= 0.0
    ensures 0.0 <= TotalVolume(Orders(minimum, st, side, targets, value)) <= Sum(targets, value)
  {
    if |targets| == 0 {
    } else {
      var n := |targets| - 1;
      OrdersVolume(minimum, st, side, targets[..n], value);
      assert targets[n] in targets;
      if Orderable(st, targets[n]) && value(targets[n]) >= minimum {
        SumSnoc(Orders(minimum, st, side, targets[..n], value),
                Order(st, REDISTRIBUTE, side, targets[n], value(targets[n])), Volume());
      }
    }
  }

  /** Both guards against having nothing to sell are unreachable: with non-negative cash, an
      uncovered deficit leaves at least one outperformer, and their excess covers the deficit. */
  lemma GuardsUnreachable(
    config: RebalanceConfig, assets: seq<Symbol>, l: Ledger, prices: map<Symbol, real>, timestamp: real, s: Symbol)
    requires Distinct(assets) && Priced(assets, prices) && s in assets && l.usdt >= 0.0
    ensures var st := Snapshot(assets, l, prices, timestamp);
            st.usdtBalance < Deficit(st, s) && config.minOrderValue <= Deficit(st, s) ==>
              && |Outperformers(st, s)| > 0
              && Sum(Outperformers(st, s), Excess(st)) >= Deficit(st, s) > 0.0
              && SupportOrders(config, st, s) <= DownsideActions(config, st, s)
  {
    hide Mean, Ledger.TotalValue, Excess, Orders, SupportValue, NetProceeds, IsOutperformer;
    ExcessCoversDeficit(assets, l, prices, timestamp, s);
  }

  /** The support sales sell each outperformer at most its excess and at most a quarter, and raise
      at most the deficit. */
  lemma SupportOrdersBounded(
    config: RebalanceConfig, assets: seq<Symbol>, l: Ledger, prices: map<Symbol, real>, timestamp: real, s: Symbol)
    requires Distinct(assets) && Priced(assets, prices) && l.Solvent() && s in assets
    requires Deficit(Snapshot(assets, l, prices, timestamp), s) > 0.0
    ensures var st := Snapshot(assets, l, prices, timestamp);
            var sells := SupportOrders(config, st, s);
            && OncePerAsset(sells)
            && 0.0 <= TotalVolume(sells) <= Deficit(st, s)
            && forall i :: 0 <= i < |sells| ==>
                 && sells[i].symbol != s && sells[i].symbol in assets && sells[i].side == SELL
                 && 0.0 <= sells[i].valueUsdt <= l.Value(prices, sells[i].symbol) - st.meanAssetValue
                 && sells[i].valueUsdt <= l.Value(prices, sells[i].symbol) * 0.25
  {
    var st := Snapshot(assets, l, prices, timestamp);
    var sources := Outperformers(st, s);
    var value := SupportValue(st, Deficit(st, s), Sum(sources, Excess(st)));
    hide Mean, Ledger.TotalValue, Ledger.Value, SupportValue, Orders, TotalVolume, Portion, ToRedistribute;
    FilterDistinct(assets, IsOutperformer(st, s));
    OrdersShape(config.minOrderValue, st, SELL, sources, value);
    forall a | a in sources
      ensures 0.0 <= value(a) <= l.Value(prices, a) - st.meanAssetValue && value(a) <= l.Value(prices, a) * 0.25
    {
      SupportBounds(assets, l, prices, timestamp, s, a);
    }
    OrdersVolume(config.minOrderValue, st, SELL, sources, value);
    SupportWithinDeficit(assets, l, prices, timestamp, s);
  }

  /** The fee never turns proceeds into more than was sold. */
  lemma NetProceedsBound(config: RebalanceConfig, sells: seq<RebalanceAction>)
    requires 0.0 <= config.tradingFee <= 1.0 && TotalVolume(sells) >= 0.0
    ensures 0.0 <= NetProceeds(config, sells) <= TotalVolume(sells)
  {
  }

  /** Every downside plan contracts towards the mean. */
  lemma DownsideContracts(
    config: RebalanceConfig, assets: seq<Symbol>, l: Ledger, prices: map<Symbol, real>, timestamp: real, s: Symbol)
    requires Distinct(assets) && Priced(assets, prices) && l.Solvent() && s in assets
    requires 0.0 <= config.tradingFee <= 1.0 && config.minOrderValue >= 0.0
    ensures var st := Snapshot(assets, l, prices, timestamp);
            Contracting(assets, l, prices, st.meanAssetValue, DownsideActions(config, st, s))
  {
    var st := Snapshot(assets, l, prices, timestamp);
    var actions := DownsideActions(config, st, s);
    DownsideActionsAreFair(config, assets, l, prices, timestamp, s);
    hide Mean, Ledger.TotalValue, Ledger.Value, Excess, SupportValue, NetProceeds, Orders, Fair, TotalVolume;
    if Deficit(st, s) >= config.minOrderValue && st.usdtBalance < Deficit(st, s) {
      var sells := SupportOrders(config, st, s);
      SupportOrdersBounded(config, assets, l, prices, timestamp, s);
      NetProceedsBound(config, sells);
    }
  }

  /** A downside rebalance never overshoots: whichever of its actions are refused, no asset passes the
      mean, and the distance to equal weights falls by exactly the value traded. */
  lemma DownsideNeverOvershoots(
    config: RebalanceConfig, assets: seq<Symbol>, l: Ledger, prices: map<Symbol, real>, timestamp: real, s: Symbol)
    requires Distinct(assets) && Priced(assets, prices) && l.Solvent() && s in assets
    requires 0.0 <= config.tradingFee <= 1.0 && config.minOrderValue >= 0.0
    ensures var st := Snapshot(assets, l, prices, timestamp);
            var mean := st.meanAssetValue;
            var actions := DownsideActions(config, st, s);
            var run := Execute(config.tradingFee, l, actions);
            && (forall a :: a in assets ==> Approaches(l.Value(prices, a), run.ledger.Value(prices, a), mean))
            && Distance(assets, run.ledger, prices, mean)
               == Distance(assets, l, prices, mean) - ExecutedVolume(actions, run.executed)
  {
    var st := Snapshot(assets, l, prices, timestamp);
    DownsideContracts(config, assets, l, prices, timestamp, s);
    ExecutionContracts(config.tradingFee, assets, l, prices, st.meanAssetValue, DownsideActions(config, st, s));
  }
}
