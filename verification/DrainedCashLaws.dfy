/** What a portfolio without cash does about an underperforming asset. */
module DrainedCashLaws {
  import opened Sums
  import opened Portfolio
  import opened Rebalancing
  import opened DownsideLaws
  import opened FundingLaws
  import opened RunSafety
  import opened CooldownLaws
  import opened TwoAssetExample

  lemma PositiveFee(value: real, fee: real)
    ensures value > 0.0 && fee > 0.0 ==> value * fee > 0.0
  {
  }

  /** Whether the support sales raise enough to place a purchase. */
  predicate PurchasePlaced(config: RebalanceConfig, st: PortfolioState, s: Symbol)
    requires s in st.assets
  {
    NetProceeds(config, SupportOrders(config, st, s)) > config.minOrderValue
  }

  ghost predicate Drained(
    config: RebalanceConfig, assets: seq<Symbol>, l: Ledger, prices: map<Symbol, real>, timestamp: real, s: Symbol)
  {
    && Distinct(assets) && Priced(assets, prices) && l.Solvent() && s in assets
    && (forall a :: a in assets ==> a in l.positions)
    && l.usdt == 0.0 && config.tradingFee > 0.0
    && 0.0 < config.minOrderValue <= Deficit(Snapshot(assets, l, prices, timestamp), s)
  }

  /** What is executed without cash: every support sale, and not the purchase. */
  ghost predicate OnlySalesExecute(config: RebalanceConfig, l: Ledger, st: PortfolioState, s: Symbol)
    requires Tradable(st) && s in st.assets
  {
    var actions := DownsideActions(config, st, s);
    var run := Execute(config.tradingFee, l, actions);
    && (forall i :: 0 <= i < |actions| ==> (run.executed[i] <==> actions[i].side == SELL))
    && (forall i :: 0 <= i < |actions| ==> (actions[i].side == BUY <==> actions[i].symbol == s))
    && ((exists i :: 0 <= i < |actions| && actions[i].side == BUY) <==> PurchasePlaced(config, st, s))
  }

  /** With no cash left, a positive fee makes the sell-funded purchase fail whenever it is placed: the event only
      sells. */
  lemma DrainedCashOnlySells(
    config: RebalanceConfig, assets: seq<Symbol>, l: Ledger, prices: map<Symbol, real>, timestamp: real, s: Symbol)
    requires Drained(config, assets, l, prices, timestamp, s)
    ensures OnlySalesExecute(config, l, Snapshot(assets, l, prices, timestamp), s)
  {
    DrainedIs(config, assets, l, prices, timestamp, s);
    hide *;
    var st := Snapshot(assets, l, prices, timestamp);
    var sells := SupportOrders(config, st, s);
    DownsideSaleFunding(config, assets, l, prices, timestamp, s);
    SellersAreOthers(config, assets, l, prices, timestamp, s);
    BuyerIs(config, assets, l, prices, timestamp, s);
    PlanExecutes(config, l, st, s);
  }

  lemma DrainedIs(
    config: RebalanceConfig, assets: seq<Symbol>, l: Ledger, prices: map<Symbol, real>, timestamp: real, s: Symbol)
    requires Drained(config, assets, l, prices, timestamp, s)
    ensures Distinct(assets) && Priced(assets, prices) && l.Solvent() && s in assets
    ensures forall a :: a in assets ==> a in l.positions
    ensures 0.0 == l.usdt < Deficit(Snapshot(assets, l, prices, timestamp), s) && config.tradingFee > 0.0
    ensures 0.0 < config.minOrderValue <= Deficit(Snapshot(assets, l, prices, timestamp), s)
    ensures Tradable(Snapshot(assets, l, prices, timestamp)) && s in Snapshot(assets, l, prices, timestamp).assets
  {
    hide Ledger.Solvent, Mean, Ledger.TotalValue, Ledger.Value;
  }

  /** Any action after the support sales buys s. */
  lemma BuyerIs(
    config: RebalanceConfig, assets: seq<Symbol>, l: Ledger, prices: map<Symbol, real>, timestamp: real, s: Symbol)
    requires Drained(config, assets, l, prices, timestamp, s)
    ensures var st := Snapshot(assets, l, prices, timestamp);
            var (sells, actions) := (SupportOrders(config, st, s), DownsideActions(config, st, s));
            && (PurchasePlaced(config, st, s) <==> |actions| == |sells| + 1)
            && sells <= actions
            && (|actions| > |sells| ==> actions[|sells|].side == BUY && actions[|sells|].symbol == s)
  {
    hide Mean, Ledger.TotalValue, Ledger.Value, Excess, NetProceeds, SupportOrders, Outperformers;
    GuardsUnreachable(config, assets, l, prices, timestamp, s);
  }

  lemma PlanExecutes(config: RebalanceConfig, l: Ledger, st: PortfolioState, s: Symbol)
    requires Tradable(st) && s in st.assets && l.usdt == 0.0 && config.tradingFee > 0.0 && config.minOrderValue > 0.0
    requires var (sells, actions) := (SupportOrders(config, st, s), DownsideActions(config, st, s));
             && FundedBySales(config, l, actions, sells) && sells <= actions
             && (forall i :: 0 <= i < |sells| ==> sells[i].symbol != s && sells[i].side == SELL)
             && (PurchasePlaced(config, st, s) <==> |actions| == |sells| + 1)
             && (|actions| > |sells| ==> actions[|sells|].side == BUY && actions[|sells|].symbol == s)
    ensures OnlySalesExecute(config, l, st, s)
  {
    hide Execute, NetProceeds, SupportOrders, DownsideActions;
    var (sells, actions) := (SupportOrders(config, st, s), DownsideActions(config, st, s));
    var run := Execute(config.tradingFee, l, actions);
    PositiveFee(NetProceeds(config, sells), config.tradingFee);
    assert forall i :: 0 <= i < |sells| ==> run.executed[i] == run.executed[..|sells|][i];
    assert forall i :: 0 <= i < |sells| ==> actions[i] == sells[i];
    if |actions| > |sells| {
      assert actions[|sells|].side == BUY;
    }
  }

  /** So the rebalance sets no cooldown for the asset that triggered it. */
  lemma DrainedCashSetsNoCooldown(
    config: RebalanceConfig, assets: seq<Symbol>, l: Ledger, prices: map<Symbol, real>, timestamp: real, s: Symbol)
    requires Drained(config, assets, l, prices, timestamp, s)
    ensures var st := Snapshot(assets, l, prices, timestamp);
            var after := Execute(config.tradingFee, l, DownsideActions(config, st, s)).ledger.lastRebalance;
            (s in after <==> s in l.lastRebalance) && (s in after ==> after[s] == l.lastRebalance[s])
  {
    hide *;
    DrainedIs(config, assets, l, prices, timestamp, s);
    LedgerIsSound(assets, l, prices);
    DownsideStampsExactly(config, assets, l, prices, timestamp, s);
    DrainedBuysNothing(config, l, Snapshot(assets, l, prices, timestamp), s);
    Unstamped(l.lastRebalance,
              Execute(config.tradingFee, l, DownsideActions(config, Snapshot(assets, l, prices, timestamp), s))
                .ledger.lastRebalance, s, timestamp);
  }

  lemma LedgerIsSound(assets: seq<Symbol>, l: Ledger, prices: map<Symbol, real>)
    requires Distinct(assets) && Priced(assets, prices) && l.Solvent() && forall a :: a in assets ==> a in l.positions
    ensures SoundLedger(assets, l, prices)
  {
  }

  lemma DrainedBuysNothing(config: RebalanceConfig, l: Ledger, st: PortfolioState, s: Symbol)
    requires s in st.assets && l.usdt == 0.0 && config.tradingFee > 0.0 && 0.0 < config.minOrderValue <= Deficit(st, s)
    ensures !BuysTrigger(config, l, st, s)
  {
    hide Deficit, NetProceeds, SupportOrders;
    PositiveFee(NetProceeds(config, SupportOrders(config, st, s)), config.tradingFee);
  }

  lemma Unstamped(before: map<Symbol, real>, after: map<Symbol, real>, s: Symbol, now: real)
    requires StampIs(before, after, s, false, now)
    ensures (s in after <==> s in before) && (s in after ==> after[s] == before[s])
  {
  }

  /** Such a portfolio exists: A lacks 100 of the mean, a quarter of B is sold for 75, and the purchase for the net
      74.925 is placed and refused. */
  lemma DrainedCashExample(config: RebalanceConfig)
    requires config.tradingFee == 0.001 && config.minOrderValue == 15.0
    ensures Drained(config, ASSETS, LEDGER, PRICES, 0.0, "A") && PurchasePlaced(config, State(), "A")
    ensures Execute(config.tradingFee, LEDGER, DownsideActions(config, State(), "A")).executed == [true, false]
  {
    StateIs();
    SourcesAre();
    SaleIs(config);
    assert PurchasePlaced(config, State(), "A");
    hide SupportOrders, Outperformers, Excess, SupportValue, Execute, Mean, Ledger.Value, Ledger.TotalValue;
    DrainedCashOnlySells(config, ASSETS, LEDGER, PRICES, 0.0, "A");
    BuyerIs(config, ASSETS, LEDGER, PRICES, 0.0, "A");
  }
}
