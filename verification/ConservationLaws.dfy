/** What trades and rebalances do to total value: they cost exactly their fees. */
module ConservationLaws {
  import opened Sums
  import opened Portfolio
  import opened Rebalancing

  /** The action trades a managed asset at its current price and declares its true value. */
  ghost predicate Fair(assets: seq<Symbol>, prices: map<Symbol, real>, a: RebalanceAction)
  {
    && a.symbol in assets && a.symbol in prices
    && a.price == prices[a.symbol]
    && a.valueUsdt == a.quantity * a.price
  }

  ghost predicate AllFair(assets: seq<Symbol>, prices: map<Symbol, real>, actions: seq<RebalanceAction>)
  {
    forall i :: 0 <= i < |actions| ==> Fair(assets, prices, actions[i])
  }

  /** Every action is worth at least the given amount. */
  ghost predicate AtLeast(actions: seq<RebalanceAction>, minimum: real)
  {
    forall i :: 0 <= i < |actions| ==> actions[i].valueUsdt >= minimum
  }

  /** Quantity an action adds to the position it trades. */
  function Change(a: RebalanceAction): real
  {
    if a.side == BUY then a.quantity else -a.quantity
  }

  /** An executed trade touches one position and moves its value plus the fee in cash. */
  lemma TradeEffect(fee: real, l: Ledger, a: RebalanceAction)
    requires a.valueUsdt == a.quantity * a.price
    ensures match Attempt(fee, l, a)
            case Success(out) =>
              && out.0.positions == l.positions[a.symbol := l.Position(a.symbol) + Change(a)]
              && out.0.lastRebalance == l.lastRebalance[a.symbol := a.timestamp]
              && out.0.usdt == l.usdt - (if a.side == BUY then a.valueUsdt else -a.valueUsdt) - a.valueUsdt * fee
            case Failure(_) => true
  {
  }

  lemma ChangedValue(q: real, d: real, p: real)
    ensures (q + d) * p == q * p + d * p
    ensures d * p == -((-d) * p)
  {
  }

  /** Value an action adds to the asset it trades. */
  function ValueChange(a: RebalanceAction): real
  {
    if a.side == BUY then a.valueUsdt else -a.valueUsdt
  }

  /** A successful trade at the current price moves one asset's value by the declared amount. */
  lemma TradeMovesValue(fee: real, prices: map<Symbol, real>, l: Ledger, a: RebalanceAction)
    requires a.symbol in prices && a.price == prices[a.symbol] && a.valueUsdt == a.quantity * a.price
    ensures match Attempt(fee, l, a)
            case Success(out) =>
              && out.0.Value(prices, a.symbol) == l.Value(prices, a.symbol) + ValueChange(a)
              && (forall s :: s != a.symbol ==> out.0.Position(s) == l.Position(s))
              && (forall s :: s != a.symbol ==> out.0.Value(prices, s) == l.Value(prices, s))
              && out.0.usdt == l.usdt - ValueChange(a) - a.valueUsdt * fee
            case Failure(_) => true
  {
    hide Attempt;
    TradeEffect(fee, l, a);
    ChangedValue(l.Position(a.symbol), Change(a), a.price);
  }

  /** A successful trade at the current price lowers total value by exactly its fee. */
  lemma TradeCostsItsFee(fee: real, assets: seq<Symbol>, prices: map<Symbol, real>, l: Ledger, a: RebalanceAction)
    requires Distinct(assets) && Fair(assets, prices, a)
    ensures match Attempt(fee, l, a)
            case Success(out) =>
              out.0.TotalValue(assets, prices) == l.TotalValue(assets, prices) - a.valueUsdt * fee
            case Failure(_) => true
  {
    hide Attempt, Ledger.Value;
    var r := Attempt(fee, l, a);
    TradeMovesValue(fee, prices, l, a);
    if r.Success? {
      SumChangeOne(assets, l.Values(prices), r.value.0.Values(prices), a.symbol);
    }
  }

  /** Whatever subset of the actions is refused, total value falls by exactly the fees counted. */
  lemma {:induction false} ExecutionCostsItsFees(
    fee: real, assets: seq<Symbol>, prices: map<Symbol, real>, l: Ledger, actions: seq<RebalanceAction>)
    requires Distinct(assets) && AllFair(assets, prices, actions)
    ensures Execute(fee, l, actions).ledger.TotalValue(assets, prices)
         == l.TotalValue(assets, prices) - Execute(fee, l, actions).fees
  {
    hide Ledger.TotalValue, Attempt, Fair;
    if |actions| == 0 {
    } else {
      var n := |actions| - 1;
      ExecutionCostsItsFees(fee, assets, prices, l, actions[..n]);
      TradeCostsItsFee(fee, assets, prices, Execute(fee, l, actions[..n]).ledger, actions[n]);
    }
  }

  lemma {:induction false} FeesAreNonNegative(fee: real, l: Ledger, actions: seq<RebalanceAction>)
    requires fee >= 0.0 && AtLeast(actions, 0.0)
    ensures Execute(fee, l, actions).fees >= 0.0
  {
    if |actions| == 0 {
    } else {
      var n := |actions| - 1;
      FeesAreNonNegative(fee, l, actions[..n]);
      assert actions[n].valueUsdt * fee >= 0.0;
    }
  }

  // ----- the generated actions are fair and never below the minimum order

  lemma SnapshotIsTradable(assets: seq<Symbol>, l: Ledger, prices: map<Symbol, real>, timestamp: real)
    requires Priced(assets, prices)
    ensures Tradable(Snapshot(assets, l, prices, timestamp))
    ensures Snapshot(assets, l, prices, timestamp).symbols == assets
  {
  }

  lemma KnownSymbol(assets: seq<Symbol>, l: Ledger, prices: map<Symbol, real>, timestamp: real, s: Symbol)
    requires s in assets
    ensures s in Snapshot(assets, l, prices, timestamp).assets
  {
  }

  lemma OrderIsFair(
    assets: seq<Symbol>, l: Ledger, prices: map<Symbol, real>, timestamp: real, kind: ActionType, side: Side,
    s: Symbol, value: real)
    requires Priced(assets, prices) && s in assets
    ensures var a := Order(Snapshot(assets, l, prices, timestamp), kind, side, s, value);
            Fair(assets, prices, a) && a.symbol == s && a.side == side && a.valueUsdt == value
  {
  }

  lemma {:induction false} OrdersAreFair(
    minimum: real, assets: seq<Symbol>, l: Ledger, prices: map<Symbol, real>, timestamp: real, side: Side,
    targets: seq<Symbol>, value: Symbol -> real)
    requires Priced(assets, prices)
    ensures var orders := Orders(minimum, Snapshot(assets, l, prices, timestamp), side, targets, value);
            AllFair(assets, prices, orders) && AtLeast(orders, minimum)
  {
    if |targets| == 0 {
    } else {
      var n := |targets| - 1;
      OrdersAreFair(minimum, assets, l, prices, timestamp, side, targets[..n], value);
      if targets[n] in assets {
        OrderIsFair(assets, l, prices, timestamp, REDISTRIBUTE, side, targets[n], value(targets[n]));
      }
    }
  }

  lemma ActionsAreFair(
    config: RebalanceConfig, assets: seq<Symbol>, l: Ledger, prices: map<Symbol, real>, timestamp: real, t: Trigger)
    requires Priced(assets, prices) && t.symbol in assets
    ensures var actions := Actions(config, assets, Snapshot(assets, l, prices, timestamp), t);
            AllFair(assets, prices, actions) && AtLeast(actions, config.minOrderValue)
  {
    match t.direction
    case Upside => UpsideActionsAreFair(config, assets, l, prices, timestamp, t.symbol);
    case Downside => DownsideActionsAreFair(config, assets, l, prices, timestamp, t.symbol);
  }

  lemma UpsideActionsAreFair(
    config: RebalanceConfig, assets: seq<Symbol>, l: Ledger, prices: map<Symbol, real>, timestamp: real, s: Symbol)
    requires Priced(assets, prices) && s in assets
    ensures var actions := UpsideActions(config, assets, Snapshot(assets, l, prices, timestamp), s);
            AllFair(assets, prices, actions) && AtLeast(actions, config.minOrderValue)
  {
    hide PerAsset, ToRedistribute, Mean, Ledger.Value;
    var st := Snapshot(assets, l, prices, timestamp);
    var sell := UpsideSell(config, st, s);
    var others := Others(assets, s);
    assert Fair(assets, prices, sell);
    if |others| > 0 {
      OrdersAreFair(config.minOrderValue, assets, l, prices, timestamp, BUY, others,
                    Same(PerAsset(config, sell.valueUsdt, |others|)));
    }
  }

  lemma DownsideActionsAreFair(
    config: RebalanceConfig, assets: seq<Symbol>, l: Ledger, prices: map<Symbol, real>, timestamp: real, s: Symbol)
    requires Priced(assets, prices) && s in assets
    ensures var actions := DownsideActions(config, Snapshot(assets, l, prices, timestamp), s);
            AllFair(assets, prices, actions) && AtLeast(actions, config.minOrderValue)
  {
    var st := Snapshot(assets, l, prices, timestamp);
    var sources := Outperformers(st, s);
    var value := SupportValue(st, Deficit(st, s), Sum(sources, Excess(st)));
    OrdersAreFair(config.minOrderValue, assets, l, prices, timestamp, SELL, sources, value);
    OrderIsFair(assets, l, prices, timestamp, BUY_DOWNSIDE, BUY, s, Deficit(st, s));
    OrderIsFair(assets, l, prices, timestamp, BUY_DOWNSIDE, BUY, s,
                NetProceeds(config, Orders(config.minOrderValue, st, SELL, sources, value)));
  }

  /** Conservation per event: the portfolio is worth exactly the fees less, whichever actions failed. */
  lemma EventCostsItsFees(
    config: RebalanceConfig, assets: seq<Symbol>, l: Ledger, prices: map<Symbol, real>, timestamp: real,
    t: Option<Trigger>)
    requires Distinct(assets) && Priced(assets, prices) && (t.Some? ==> t.value.symbol in assets)
    ensures var st := Snapshot(assets, l, prices, timestamp);
            var (m, event) := Rebalanced(config, assets, l, st, prices, t);
            event.Some? ==>
              && event.value.after == Snapshot(assets, m, prices, timestamp)
              && event.value.after.totalValue == event.value.before.totalValue - event.value.feesPaid
              && (config.tradingFee >= 0.0 && config.minOrderValue >= 0.0 ==> event.value.feesPaid >= 0.0)
  {
    if t.Some? {
      var actions := Actions(config, assets, Snapshot(assets, l, prices, timestamp), t.value);
      ActionsAreFair(config, assets, l, prices, timestamp, t.value);
      ExecutionCostsItsFees(config.tradingFee, assets, prices, l, actions);
      if config.tradingFee >= 0.0 && config.minOrderValue >= 0.0 {
        FeesAreNonNegative(config.tradingFee, l, actions);
      }
    }
  }

  // ----- value changes between recorded states

  /** What the holdings of one recorded state gain when prices move to those of another. */
  function HoldingGain(before: PortfolioState, after: PortfolioState): Symbol -> real
  {
    s => if s in before.assets && s in after.assets
         then before.assets[s].quantity * (after.assets[s].currentPrice - before.assets[s].currentPrice)
         else 0.0
  }

  /** Sum over consecutive recorded states of held quantity times price change. */
  function PriceGain(history: seq<PortfolioState>): real
  {
    if |history| < 2 then 0.0
    else
      var n := |history| - 1;
      PriceGain(history[..n]) + Sum(history[n - 1].symbols, HoldingGain(history[n - 1], history[n]))
  }

  lemma MovedPrice(q: real, p0: real, p1: real)
    ensures q * p1 == q * p0 + q * (p1 - p0)
  {
  }

  lemma HoldingRepriced(
    assets: seq<Symbol>, l: Ledger, p0: map<Symbol, real>, t0: real, p1: map<Symbol, real>, t1: real, s: Symbol)
    requires s in assets
    ensures l.Value(p1, s)
         == l.Value(p0, s) + HoldingGain(Snapshot(assets, l, p0, t0), Snapshot(assets, l, p1, t1))(s)
  {
    hide Mean, Ledger.TotalValue;
    HoldingGainIs(assets, l, p0, t0, p1, t1, s);
    MovedPrice(l.Position(s), Lookup(p0, s, 0.0), Lookup(p1, s, 0.0));
  }

  lemma HoldingGainIs(
    assets: seq<Symbol>, l: Ledger, p0: map<Symbol, real>, t0: real, p1: map<Symbol, real>, t1: real, s: Symbol)
    requires s in assets
    ensures HoldingGain(Snapshot(assets, l, p0, t0), Snapshot(assets, l, p1, t1))(s)
         == l.Position(s) * (Lookup(p1, s, 0.0) - Lookup(p0, s, 0.0))
  {
    hide Mean, Ledger.TotalValue, Ledger.Value;
  }

  /** With unchanged holdings, total value moves by exactly the gain on the holdings. */
  lemma RepricingGains(
    assets: seq<Symbol>, l: Ledger, p0: map<Symbol, real>, t0: real, p1: map<Symbol, real>, t1: real)
    ensures Snapshot(assets, l, p1, t1).totalValue
         == Snapshot(assets, l, p0, t0).totalValue
            + Sum(assets, HoldingGain(Snapshot(assets, l, p0, t0), Snapshot(assets, l, p1, t1)))
  {
    hide Mean, Ledger.Value, HoldingGain;
    var s0, s1 := Snapshot(assets, l, p0, t0), Snapshot(assets, l, p1, t1);
    GainSums(assets, l, p0, p1, HoldingGain(s0, s1)) by {
      forall s | s in assets
        ensures l.Value(p1, s) == l.Value(p0, s) + HoldingGain(s0, s1)(s)
      {
        HoldingRepriced(assets, l, p0, t0, p1, t1, s);
      }
    }
  }

  lemma GainSums(assets: seq<Symbol>, l: Ledger, p0: map<Symbol, real>, p1: map<Symbol, real>, gain: Symbol -> real)
    requires forall s :: s in assets ==> l.Value(p1, s) == l.Value(p0, s) + gain(s)
    ensures l.AssetsValue(assets, p1) == l.AssetsValue(assets, p0) + Sum(assets, gain)
  {
    hide Ledger.Value;
    SumLinear(assets, l.Values(p0), gain, l.Values(p1), 1.0);
  }

  /** At unchanged prices there is no gain, however the holdings change. */
  lemma SamePricesNoGain(
    assets: seq<Symbol>, l: Ledger, m: Ledger, prices: map<Symbol, real>, t0: real, t1: real)
    ensures Sum(assets, HoldingGain(Snapshot(assets, l, prices, t0), Snapshot(assets, m, prices, t1))) == 0.0
  {
    hide Mean, Ledger.TotalValue, Ledger.Value;
    var gain := HoldingGain(Snapshot(assets, l, prices, t0), Snapshot(assets, m, prices, t1));
    forall s | s in assets
      ensures gain(s) == 0.0
    {
      NoPriceMove(assets, l, m, prices, t0, t1, s);
    }
    SumConstant(assets, gain, 0.0);
  }

  lemma NoPriceMove(
    assets: seq<Symbol>, l: Ledger, m: Ledger, prices: map<Symbol, real>, t0: real, t1: real, s: Symbol)
    requires s in assets
    ensures HoldingGain(Snapshot(assets, l, prices, t0), Snapshot(assets, m, prices, t1))(s) == 0.0
  {
    hide Mean, Ledger.TotalValue, Ledger.Value;
  }
}
