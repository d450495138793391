/** A concrete portfolio: 100 of A and 300 of B at price 1 and no cash, so the mean is 200. */
module TwoAssetExample {
  import opened Sums
  import opened Portfolio
  import opened Rebalancing

  const ASSETS: seq<Symbol> := ["A", "B"]
  const PRICES: map<Symbol, real> := map["A" := 1.0, "B" := 1.0]
  const LEDGER := Ledger(map["A" := 100.0, "B" := 300.0], 0.0, map[])

  function State(): PortfolioState
  {
    Snapshot(ASSETS, LEDGER, PRICES, 0.0)
  }

  lemma SumOfOne<T>(x: T, f: T -> real)
    ensures Sum([x], f) == f(x)
  {
    assert [x][..0] == [];
  }

  lemma StateIs()
    ensures Distinct(ASSETS) && Priced(ASSETS, PRICES) && LEDGER.Solvent() && Tradable(State())
    ensures State().meanAssetValue == 200.0 && State().symbols == ASSETS && State().timestamp == 0.0
    ensures State().assets["A"].valueUsdt == 100.0 && State().assets["B"].valueUsdt == 300.0
    ensures State().assets["A"].currentPrice == 1.0 && State().assets["B"].currentPrice == 1.0
  {
    SumOfOne("A", LEDGER.Values(PRICES));
    assert ASSETS[..1] == ["A"];
    assert Sum(ASSETS, LEDGER.Values(PRICES)) == 400.0;
    assert "A" != "B";
  }

  /** B is the only outperformer, with an excess equal to the deficit of A. */
  lemma SourcesAre()
    ensures Outperformers(State(), "A") == ["B"] && Deficit(State(), "A") == 100.0
    ensures Sum(["B"], Excess(State())) == 100.0
    ensures SupportValue(State(), 100.0, 100.0)("B") == 75.0
  {
    StateIs();
    hide Snapshot, State, Mean;
    SumOfOne("B", Excess(State()));
    var p := IsOutperformer(State(), "A");
    assert ASSETS[..1] == ["A"] && ["A"][..0] == [];
    assert Filter(["A"], p) == [];
    assert Filter(ASSETS, p) == ["B"];
  }

  /** The only support sale: a quarter of B, unless the minimum order is above 75. */
  lemma SaleIs(config: RebalanceConfig)
    requires config.minOrderValue <= 75.0
    ensures var sells := SupportOrders(config, State(), "A");
            |sells| == 1 && sells[0].symbol == "B" && sells[0].side == SELL && TotalVolume(sells) == 75.0
  {
    StateIs();
    SourcesAre();
    hide Snapshot, State, Mean, SupportValue, Excess, Outperformers;
    var value := SupportValue(State(), 100.0, 100.0);
    assert ["B"][..0] == [];
    assert Orders(config.minOrderValue, State(), SELL, ["B"], value) == [Order(State(), REDISTRIBUTE, SELL, "B", 75.0)];
    SumOfOne(Order(State(), REDISTRIBUTE, SELL, "B", 75.0), Volume());
  }
}
