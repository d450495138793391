/** Which downside rebalances set the cooldown of the asset that triggered them. */
module CooldownLaws {
  import opened Sums
  import opened Portfolio
  import opened Rebalancing
  import opened ConservationLaws
  import opened DownsideLaws
  import opened FundingLaws
  import opened RunSafety
  import opened TwoAssetExample

  /** The purchase of s against its deficit is placed and paid for: out of the cash when that covers the deficit,
      otherwise out of what the support sales bring in. */
  predicate BuysTrigger(config: RebalanceConfig, l: Ledger, st: PortfolioState, s: Symbol)
    requires s in st.assets
  {
    var deficit := Deficit(st, s);
    && config.minOrderValue <= deficit
    && if deficit <= l.usdt then l.usdt >= Cost(deficit, config.tradingFee)
       else
         var net := NetProceeds(config, SupportOrders(config, st, s));
         net > config.minOrderValue && l.usdt >= net * config.tradingFee
  }

  /** A solvent ledger that knows every asset, at positive prices. */
  ghost predicate SoundLedger(assets: seq<Symbol>, l: Ledger, prices: map<Symbol, real>)
  {
    && Distinct(assets) && Priced(assets, prices) && l.Solvent()
    && forall a :: a in assets ==> a in l.positions
  }

  /** No support sale is of the asset they support. */
  lemma SellersAreOthers(
    config: RebalanceConfig, assets: seq<Symbol>, l: Ledger, prices: map<Symbol, real>, timestamp: real, s: Symbol)
    requires Distinct(assets) && Priced(assets, prices) && l.Solvent() && s in assets
    requires Deficit(Snapshot(assets, l, prices, timestamp), s) > 0.0
    ensures var sells := SupportOrders(config, Snapshot(assets, l, prices, timestamp), s);
            forall i :: 0 <= i < |sells| ==> sells[i].symbol != s && sells[i].side == SELL
  {
    hide Snapshot, Deficit, SupportOrders, TotalVolume, Ledger.Value, OncePerAsset;
    SupportOrdersBounded(config, assets, l, prices, timestamp, s);
  }

  /** A purchase of s after sales of other assets. */
  lemma PurchaseAfterSales(
    config: RebalanceConfig, l: Ledger, sells: seq<RebalanceAction>, buy: RebalanceAction, s: Symbol)
    requires FundedBySales(config, l, sells + [buy], sells)
    requires buy.symbol == s && forall i :: 0 <= i < |sells| ==> sells[i].symbol != s
    ensures TradedIn(sells + [buy], Execute(config.tradingFee, l, sells + [buy]).executed, s)
       <==> l.usdt >= NetProceeds(config, sells) * config.tradingFee
  {
    hide Execute, NetProceeds;
    var actions := sells + [buy];
    assert actions[|sells|].symbol == s;
    assert forall i :: 0 <= i < |sells| ==> actions[i] == sells[i];
  }

  lemma NoneTrades(actions: seq<RebalanceAction>, executed: seq<bool>, s: Symbol)
    requires |actions| == |executed| && forall i :: 0 <= i < |actions| ==> actions[i].symbol != s
    ensures !TradedIn(actions, executed, s)
  {
  }

  lemma OneTraded(a: RebalanceAction, executed: bool, s: Symbol)
    requires a.symbol == s
    ensures TradedIn([a], [executed], s) <==> executed
  {
    assert [a][0].symbol == s;
  }

  /** The trigger is traded exactly when its purchase is placed and paid for: a covered deficit. */
  lemma CoveredTrades(
    config: RebalanceConfig, assets: seq<Symbol>, l: Ledger, prices: map<Symbol, real>, timestamp: real, s: Symbol)
    requires Priced(assets, prices) && s in assets
    requires config.minOrderValue <= Deficit(Snapshot(assets, l, prices, timestamp), s) <= l.usdt
    ensures var st := Snapshot(assets, l, prices, timestamp);
            var actions := DownsideActions(config, st, s);
            var run := Execute(config.tradingFee, l, actions);
            && |actions| == 1
            && run.executed == [l.usdt >= Cost(Deficit(st, s), config.tradingFee)]
            && (TradedIn(actions, run.executed, s) <==> BuysTrigger(config, l, st, s))
  {
    hide Deficit, Cost, Attempt, SupportOrders, NetProceeds, Outperformers, Excess, Mean, Execute, Ledger.TotalValue,
      Ledger.Value;
    var st := Snapshot(assets, l, prices, timestamp);
    var deficit := Deficit(st, s);
    var buy := Order(st, BUY_DOWNSIDE, BUY, s, deficit);
    OrderIsFair(assets, l, prices, timestamp, BUY_DOWNSIDE, BUY, s, deficit);
    OnePurchase(config.tradingFee, l, buy);
    assert DownsideActions(config, st, s) == [buy];
    OneTraded(buy, l.usdt >= Cost(deficit, config.tradingFee), s);
  }

  /** The same for an uncovered deficit. */
  lemma UncoveredTrades(
    config: RebalanceConfig, assets: seq<Symbol>, l: Ledger, prices: map<Symbol, real>, timestamp: real, s: Symbol)
    requires SoundLedger(assets, l, prices) && s in assets
    requires config.minOrderValue <= Deficit(Snapshot(assets, l, prices, timestamp), s)
    requires l.usdt < Deficit(Snapshot(assets, l, prices, timestamp), s)
    ensures var st := Snapshot(assets, l, prices, timestamp);
            var actions := DownsideActions(config, st, s);
            && Tradable(st)
            && (TradedIn(actions, Execute(config.tradingFee, l, actions).executed, s)
                <==> BuysTrigger(config, l, st, s))
  {
    hide *;
    var st := Snapshot(assets, l, prices, timestamp);
    SoundLedgerMeans(assets, l, prices);
    SnapshotIsTradable(assets, l, prices, timestamp);
    KnownSymbol(assets, l, prices, timestamp, s);
    BuysUncovered(config, l, st, s);
    var sells := SupportOrders(config, st, s);
    var buy := DownsidePlan(config, assets, l, prices, timestamp, s);
    SellersAreOthers(config, assets, l, prices, timestamp, s);
    DownsideSaleFunding(config, assets, l, prices, timestamp, s);
    if NetProceeds(config, sells) > config.minOrderValue {
      PurchaseAfterSales(config, l, sells, buy, s);
    } else {
      NoneTrades(sells, Execute(config.tradingFee, l, sells).executed, s);
    }
  }

  lemma SoundLedgerMeans(assets: seq<Symbol>, l: Ledger, prices: map<Symbol, real>)
    requires SoundLedger(assets, l, prices)
    ensures Distinct(assets) && Priced(assets, prices) && l.Solvent() && l.usdt >= 0.0
    ensures forall a :: a in assets ==> a in l.positions
  {
  }

  lemma BuysUncovered(config: RebalanceConfig, l: Ledger, st: PortfolioState, s: Symbol)
    requires s in st.assets && config.minOrderValue <= Deficit(st, s) && l.usdt < Deficit(st, s)
    ensures var net := NetProceeds(config, SupportOrders(config, st, s));
            BuysTrigger(config, l, st, s) <==> net > config.minOrderValue && l.usdt >= net * config.tradingFee
  {
    hide Deficit, NetProceeds, SupportOrders;
  }

  /** For every solvent ledger, a downside rebalance trades the asset that triggered it, and so sets its cooldown,
      exactly when the purchase is placed and paid for; otherwise the asset's stamp stays as it was. */
  lemma DownsideStampsExactly(
    config: RebalanceConfig, assets: seq<Symbol>, l: Ledger, prices: map<Symbol, real>, timestamp: real, s: Symbol)
    requires SoundLedger(assets, l, prices) && s in assets
    ensures Tradable(Snapshot(assets, l, prices, timestamp)) && s in Snapshot(assets, l, prices, timestamp).assets
    ensures var st := Snapshot(assets, l, prices, timestamp);
            var actions := DownsideActions(config, st, s);
            var run := Execute(config.tradingFee, l, actions);
            && (TradedIn(actions, run.executed, s) <==> BuysTrigger(config, l, st, s))
            && StampIs(l.lastRebalance, run.ledger.lastRebalance, s, BuysTrigger(config, l, st, s), timestamp)
  {
    hide *;
    var st := Snapshot(assets, l, prices, timestamp);
    SoundLedgerMeans(assets, l, prices);
    SnapshotIsTradable(assets, l, prices, timestamp);
    KnownSymbol(assets, l, prices, timestamp, s);
    TooSmall(config, l, st, s);
    var actions := DownsideActions(config, st, s);
    if config.minOrderValue <= Deficit(st, s) <= l.usdt {
      CoveredTrades(config, assets, l, prices, timestamp, s);
    } else if config.minOrderValue <= Deficit(st, s) {
      UncoveredTrades(config, assets, l, prices, timestamp, s);
    } else {
      NoneTrades(actions, Execute(config.tradingFee, l, actions).executed, s);
    }
    DownsideTimestamp(config, assets, l, prices, timestamp, s);
    ExecutionStamps(config.tradingFee, l, actions, timestamp, s);
  }

  lemma TooSmall(config: RebalanceConfig, l: Ledger, st: PortfolioState, s: Symbol)
    requires Tradable(st) && s in st.assets
    ensures Deficit(st, s) < config.minOrderValue ==>
      DownsideActions(config, st, s) == [] && !BuysTrigger(config, l, st, s)
  {
  }

  lemma DownsideTimestamp(
    config: RebalanceConfig, assets: seq<Symbol>, l: Ledger, prices: map<Symbol, real>, timestamp: real, s: Symbol)
    requires Priced(assets, prices) && s in assets
    ensures Tradable(Snapshot(assets, l, prices, timestamp)) && s in Snapshot(assets, l, prices, timestamp).assets
    ensures AllAt(DownsideActions(config, Snapshot(assets, l, prices, timestamp), s), timestamp)
  {
    hide Mean, Ledger.TotalValue, Ledger.Value, DownsideActions;
    ActionsTimestamp(config, assets, Snapshot(assets, l, prices, timestamp), Trigger(s, 0.0, Downside));
  }

  lemma FirstIsSale(config: RebalanceConfig, assets: seq<Symbol>, st: PortfolioState, s: Symbol)
    requires s in st.assets && UpsideActions(config, assets, st, s) != []
    ensures UpsideActions(config, assets, st, s)[0].symbol == s
  {
    hide ToRedistribute, PerAsset, Orders, Others;
  }

  /** An upside rebalance sets the cooldown of the asset that triggered it whenever it does anything. */
  lemma UpsideStamps(
    config: RebalanceConfig, assets: seq<Symbol>, l: Ledger, prices: map<Symbol, real>, timestamp: real, s: Symbol)
    requires SoundLedger(assets, l, prices) && s in assets
    requires config.sellPercentage <= 1.0 && 0.0 <= config.tradingFee <= 1.0 && config.minOrderValue >= 0.0
    ensures s in Snapshot(assets, l, prices, timestamp).assets
    ensures var actions := UpsideActions(config, assets, Snapshot(assets, l, prices, timestamp), s);
            StampIs(l.lastRebalance, Execute(config.tradingFee, l, actions).ledger.lastRebalance, s, actions != [],
                    timestamp)
  {
    hide *;
    var st := Snapshot(assets, l, prices, timestamp);
    SoundLedgerMeans(assets, l, prices);
    SnapshotIsTradable(assets, l, prices, timestamp);
    KnownSymbol(assets, l, prices, timestamp, s);
    var actions := UpsideActions(config, assets, st, s);
    UpsideTimestamp(config, assets, l, prices, timestamp, s);
    ExecutionStamps(config.tradingFee, l, actions, timestamp, s);
    if actions == [] {
      NoneTrades(actions, Execute(config.tradingFee, l, actions).executed, s);
    } else {
      UpsideFunding(config, assets, l, prices, timestamp, s);
      FirstIsSale(config, assets, st, s);
      FirstTrades(actions, Execute(config.tradingFee, l, actions).executed, s);
    }
  }

  lemma FirstTrades(actions: seq<RebalanceAction>, executed: seq<bool>, s: Symbol)
    requires |actions| == |executed| > 0 && actions[0].symbol == s && executed[0]
    ensures TradedIn(actions, executed, s)
  {
  }

  lemma UpsideTimestamp(
    config: RebalanceConfig, assets: seq<Symbol>, l: Ledger, prices: map<Symbol, real>, timestamp: real, s: Symbol)
    requires Priced(assets, prices) && s in assets
    ensures s in Snapshot(assets, l, prices, timestamp).assets
    ensures AllAt(UpsideActions(config, assets, Snapshot(assets, l, prices, timestamp), s), timestamp)
  {
    hide Mean, Ledger.TotalValue, Ledger.Value, UpsideActions;
    ActionsTimestamp(config, assets, Snapshot(assets, l, prices, timestamp), Trigger(s, 0.0, Upside));
  }

  /** Whether acting on the trigger sets its own cooldown. */
  predicate StampsTrigger(config: RebalanceConfig, assets: seq<Symbol>, l: Ledger, st: PortfolioState, t: Trigger)
    requires t.symbol in st.assets
  {
    match t.direction
    case Upside => UpsideActions(config, assets, st, t.symbol) != []
    case Downside => BuysTrigger(config, l, st, t.symbol)
  }

  /** A rebalance stamps the asset that triggered it exactly then. */
  lemma RebalanceStampsExactly(
    config: RebalanceConfig, assets: seq<Symbol>, l: Ledger, prices: map<Symbol, real>, timestamp: real, t: Trigger)
    requires SoundLedger(assets, l, prices) && t.symbol in assets
    requires config.sellPercentage <= 1.0 && 0.0 <= config.tradingFee <= 1.0 && config.minOrderValue >= 0.0
    ensures Tradable(Snapshot(assets, l, prices, timestamp))
      && t.symbol in Snapshot(assets, l, prices, timestamp).assets
    ensures var st := Snapshot(assets, l, prices, timestamp);
            StampIs(l.lastRebalance, Rebalanced(config, assets, l, st, prices, Some(t)).0.lastRebalance, t.symbol,
                    StampsTrigger(config, assets, l, st, t), timestamp)
  {
    hide *;
    DownsideStampsExactly(config, assets, l, prices, timestamp, t.symbol);
    UpsideStamps(config, assets, l, prices, timestamp, t.symbol);
    RebalancedIs(config, assets, l, Snapshot(assets, l, prices, timestamp), prices, t);
  }

  lemma RebalancedIs(
    config: RebalanceConfig, assets: seq<Symbol>, l: Ledger, st: PortfolioState, prices: map<Symbol, real>, t: Trigger)
    requires Tradable(st) && t.symbol in st.assets
    ensures Rebalanced(config, assets, l, st, prices, Some(t)).0
         == if t.direction == Upside
           then Execute(config.tradingFee, l, UpsideActions(config, assets, st, t.symbol)).ledger
            else Execute(config.tradingFee, l, DownsideActions(config, st, t.symbol)).ledger
    ensures StampsTrigger(config, assets, l, st, t)
       <==> if t.direction == Upside then UpsideActions(config, assets, st, t.symbol) != []
            else BuysTrigger(config, l, st, t.symbol)
  {
    hide UpsideActions, DownsideActions, BuysTrigger, Snapshot;
    assert Execute(config.tradingFee, l, []).ledger == l;
  }

  // ----- the ways to miss it

  /** Cash for the deficit but not for the fee on it: the event has one action, which is refused, and nothing at all
      changes. */
  lemma FeeUncovered(
    config: RebalanceConfig, assets: seq<Symbol>, l: Ledger, prices: map<Symbol, real>, timestamp: real, s: Symbol)
    requires Priced(assets, prices) && s in assets
    requires var deficit := Deficit(Snapshot(assets, l, prices, timestamp), s);
             config.minOrderValue <= deficit <= l.usdt < Cost(deficit, config.tradingFee)
    ensures var run := Execute(config.tradingFee, l,
                               DownsideActions(config, Snapshot(assets, l, prices, timestamp), s));
            run.executed == [false] && run.ledger == l && run.fees == 0.0
  {
    hide Deficit, Cost, Attempt, Snapshot, DownsideActions, BuysTrigger;
    SnapshotIsTradable(assets, l, prices, timestamp);
    KnownSymbol(assets, l, prices, timestamp, s);
    CoveredTrades(config, assets, l, prices, timestamp, s);
    RefusedAlone(config.tradingFee, l, DownsideActions(config, Snapshot(assets, l, prices, timestamp), s));
  }

  lemma RefusedAlone(fee: real, l: Ledger, actions: seq<RebalanceAction>)
    requires |actions| == 1 && Execute(fee, l, actions).executed == [false]
    ensures Execute(fee, l, actions).ledger == l && Execute(fee, l, actions).fees == 0.0
  {
    hide Attempt;
    assert Execute(fee, l, actions[..0]) == Execution(l, 0.0, []);
    assert !Execute(fee, l, actions).executed[0];
  }

  /** A state that does it: A lacks 100 of the mean, and 100 in cash cannot pay for 100 of A and the fee. */
  lemma FeeUncoveredExample(config: RebalanceConfig)
    requires config.tradingFee == 0.001 && config.minOrderValue == 15.0
    ensures var l := LEDGER.(usdt := 100.0);
            var st := Snapshot(ASSETS, l, PRICES, 0.0);
            && SoundLedger(ASSETS, l, PRICES) && Tradable(st) && "A" in st.assets && !BuysTrigger(config, l, st, "A")
            && Execute(config.tradingFee, l, DownsideActions(config, st, "A")).executed == [false]
            && Execute(config.tradingFee, l, DownsideActions(config, st, "A")).ledger == l
  {
    StateIs();
    var l := LEDGER.(usdt := 100.0);
    assert l.Solvent();
    SameHoldings(l);
    SnapshotIsTradable(ASSETS, l, PRICES, 0.0);
    KnownSymbol(ASSETS, l, PRICES, 0.0, "A");
    SourcesAre();
    hide Snapshot, Mean, Execute, DownsideActions, State;
    FeeUncovered(config, ASSETS, l, PRICES, 0.0, "A");
  }

  /** Cash plays no part in values. */
  lemma SameHoldings(l: Ledger)
    requires l.positions == LEDGER.positions
    ensures "A" in Snapshot(ASSETS, l, PRICES, 0.0).assets && "A" in State().assets
    ensures Deficit(Snapshot(ASSETS, l, PRICES, 0.0), "A") == Deficit(State(), "A")
  {
    StateIs();
    SumCongruent(ASSETS, l.Values(PRICES), LEDGER.Values(PRICES));
  }
}
