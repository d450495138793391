/** What a rebalance orders, in holdings, prices and configuration alone. */
module OrderAmounts {
  import opened Sums
  import opened Portfolio
  import opened Rebalancing
  import opened ConservationLaws
  import opened DownsideLaws
  import opened FundingLaws

  /** An order for the given value of an asset at its current price. */
  ghost predicate IsOrder(
    a: RebalanceAction, s: Symbol, side: Side, value: real, prices: map<Symbol, real>, timestamp: real)
  {
    && a.symbol == s && a.side == side && a.valueUsdt == value && a.timestamp == timestamp
    && s in prices && a.price == prices[s] && a.quantity * a.price == value
  }

  // ----- upside

  /** Every asset but number k, in order, bought once for the same value. */
  ghost predicate OthersBought(
    buys: seq<RebalanceAction>, assets: seq<Symbol>, k: nat, share: real, prices: map<Symbol, real>, timestamp: real)
  {
    && |buys| + 1 == |assets|
    && forall i :: 0 <= i < |buys| ==>
         IsOrder(buys[i], assets[if i < k then i else i + 1], BUY, share, prices, timestamp)
  }

  lemma OthersAre(assets: seq<Symbol>, k: nat)
    requires Distinct(assets) && k < |assets|
    ensures Others(assets, assets[k]) == assets[..k] + assets[k + 1..]
  {
    hide Filter;
    var p := IsNot(assets[k]);
    assert assets == assets[..k] + ([assets[k]] + assets[k + 1..]);
    FilterConcat(assets[..k], [assets[k]] + assets[k + 1..], p);
    FilterConcat([assets[k]], assets[k + 1..], p);
    FilterKeepsAll(assets[..k], p);
    FilterKeepsAll(assets[k + 1..], p);
    NotItself(assets[k]);
  }

  lemma NotItself(s: Symbol)
    ensures Filter([s], IsNot(s)) == []
  {
    assert [s][..0] == [];
  }

  lemma OrderIs(
    assets: seq<Symbol>, l: Ledger, prices: map<Symbol, real>, timestamp: real, kind: ActionType, side: Side,
    s: Symbol, value: real)
    requires Priced(assets, prices) && s in assets
    ensures IsOrder(Order(Snapshot(assets, l, prices, timestamp), kind, side, s, value), s, side, value, prices,
                    timestamp)
  {
    hide Mean, Ledger.TotalValue, Ledger.Value;
  }

  /** One order of this value for each target, in order. */
  ghost predicate OrdersOf(
    orders: seq<RebalanceAction>, targets: seq<Symbol>, side: Side, value: real, prices: map<Symbol, real>,
    timestamp: real)
  {
    && |orders| == |targets|
    && forall i :: 0 <= i < |orders| ==> IsOrder(orders[i], targets[i], side, value, prices, timestamp)
  }

  lemma OrdersOfSnoc(
    orders: seq<RebalanceAction>, a: RebalanceAction, targets: seq<Symbol>, side: Side, value: real,
    prices: map<Symbol, real>, timestamp: real)
    requires |targets| > 0 && OrdersOf(orders, targets[..|targets| - 1], side, value, prices, timestamp)
    requires IsOrder(a, targets[|targets| - 1], side, value, prices, timestamp)
    ensures OrdersOf(orders + [a], targets, side, value, prices, timestamp)
    ensures TotalVolume(orders + [a]) == TotalVolume(orders) + value
  {
    SumSnoc(orders, a, Volume());
  }

  function Total(n: nat, value: real): real
  {
    n as real * value
  }

  /** Orders of one value of at least the minimum are all placed. */
  lemma {:induction false} AllOrdered(
    minimum: real, assets: seq<Symbol>, l: Ledger, prices: map<Symbol, real>, timestamp: real, side: Side,
    targets: seq<Symbol>, value: real)
    requires Priced(assets, prices) && value >= minimum && forall s :: s in targets ==> s in assets
    ensures var orders := Orders(minimum, Snapshot(assets, l, prices, timestamp), side, targets, Same(value));
            && OrdersOf(orders, targets, side, value, prices, timestamp)
            && TotalVolume(orders) == Total(|targets|, value)
  {
    var st := Snapshot(assets, l, prices, timestamp);
    if |targets| == 0 {
    } else {
      hide Mean, Ledger.TotalValue, Ledger.Value, IsOrder, OrdersOf, Total, TotalVolume;
      var n := |targets| - 1;
      assert targets[n] in assets;
      AllOrdered(minimum, assets, l, prices, timestamp, side, targets[..n], value);
      OrderIs(assets, l, prices, timestamp, REDISTRIBUTE, side, targets[n], value);
      OrdersOfSnoc(Orders(minimum, st, side, targets[..n], Same(value)),
                   Order(st, REDISTRIBUTE, side, targets[n], value), targets, side, value, prices, timestamp);
      OneMoreTimes(n, value);
    }
  }

  lemma OneMoreTimes(n: nat, value: real)
    ensures Total(n + 1, value) == Total(n, value) + value
  {
  }

  /** Orders below the minimum are all left out. */
  lemma {:induction false} NoneOrdered(minimum: real, st: PortfolioState, side: Side, targets: seq<Symbol>, value: real)
    requires value < minimum
    ensures Orders(minimum, st, side, targets, Same(value)) == []
  {
    if |targets| == 0 {
    } else {
      NoneOrdered(minimum, st, side, targets[..|targets| - 1], value);
    }
  }

  /** What a sale leaves to redistribute: all but the fee and the reserve. */
  lemma RedistributedIs(config: RebalanceConfig, sold: real, amount: real)
    requires amount == (1.0 - config.usdtReserve) * (1.0 - config.tradingFee) * sold
    ensures ToRedistribute(config, sold) == amount
  {
    var net := sold - sold * config.tradingFee;
    assert net == (1.0 - config.tradingFee) * sold;
    LessFraction(net, config.usdtReserve);
    Reassociated(1.0 - config.usdtReserve, 1.0 - config.tradingFee, sold);
  }

  lemma LessFraction(x: real, r: real)
    ensures x - x * r == (1.0 - r) * x
  {
  }

  lemma Reassociated(a: real, b: real, c: real)
    ensures a * (b * c) == a * b * c
  {
  }

  lemma SellIs(
    config: RebalanceConfig, assets: seq<Symbol>, l: Ledger, prices: map<Symbol, real>, timestamp: real, s: Symbol,
    sold: real)
    requires Priced(assets, prices) && s in assets && sold == l.Position(s) * config.sellPercentage * prices[s]
    ensures s in Snapshot(assets, l, prices, timestamp).assets
    ensures IsOrder(UpsideSell(config, Snapshot(assets, l, prices, timestamp), s), s, SELL, sold, prices, timestamp)
  {
    hide Mean, Ledger.TotalValue, Ledger.Value;
  }

  /** The upside list, given what is sold and what is redistributed. */
  lemma UpsideListGiven(
    config: RebalanceConfig, assets: seq<Symbol>, l: Ledger, prices: map<Symbol, real>, timestamp: real, k: nat,
    sold: real, amount: real)
    requires Distinct(assets) && Priced(assets, prices) && k < |assets|
    requires assets[k] in Snapshot(assets, l, prices, timestamp).assets
    requires IsOrder(UpsideSell(config, Snapshot(assets, l, prices, timestamp), assets[k]), assets[k], SELL, sold,
                     prices, timestamp)
    requires ToRedistribute(config, sold) == amount
    ensures UpsideListIs(config, assets,
                         UpsideActions(config, assets, Snapshot(assets, l, prices, timestamp), assets[k]),
                         prices, timestamp, k, sold, amount)
  {
    hide Snapshot, UpsideSell, Orders, ToRedistribute, Others, IsOrder, TotalVolume, OrdersOf, OthersBought, Total;
    var st := Snapshot(assets, l, prices, timestamp);
    OthersAre(assets, k);
    var sell := UpsideSell(config, st, assets[k]);
    SaleValue(sell, assets[k], sold, prices, timestamp);
    var others := Others(assets, assets[k]);
    if sold >= config.minOrderValue && |others| > 0 && amount > 0.0 {
      var share := amount / |others| as real;
      var buys := Orders(config.minOrderValue, st, BUY, others, Same(share));
      assert UpsideActions(config, assets, st, assets[k]) == [sell] + buys;
      assert ([sell] + buys)[1..] == buys;
      if share >= config.minOrderValue {
        AllOrdered(config.minOrderValue, assets, l, prices, timestamp, BUY, others, share);
        BuysAre(buys, assets, k, share, prices, timestamp);
        WholeShare(amount, |others|);
      } else {
        NoneOrdered(config.minOrderValue, st, BUY, others, share);
      }
    }
  }

  /** Nothing if the value sold is below the minimum order; otherwise that sale and, exactly when there is another
      asset and the amount is positive and its equal share reaches the minimum order, one purchase of that share of
      every other asset. */
  ghost predicate UpsideListIs(
    config: RebalanceConfig, assets: seq<Symbol>, actions: seq<RebalanceAction>, prices: map<Symbol, real>,
    timestamp: real, k: nat, sold: real, amount: real)
    requires k < |assets|
  {
    var others := |assets| - 1;
    && (actions == [] <==> sold < config.minOrderValue)
    && (actions != [] ==>
          && IsOrder(actions[0], assets[k], SELL, sold, prices, timestamp)
          && if others > 0 && amount > 0.0 && amount / others as real >= config.minOrderValue
             then OthersBought(actions[1..], assets, k, amount / others as real, prices, timestamp)
                  && TotalVolume(actions[1..]) == amount
             else actions[1..] == [])
  }

  /** The whole upside list of asset number k: it sells the given fraction of the position, and redistributes all of the
      value sold but the fee on it and the reserve of the rest. */
  lemma UpsideListExactly(
    config: RebalanceConfig, assets: seq<Symbol>, l: Ledger, prices: map<Symbol, real>, timestamp: real, k: nat,
    sold: real, amount: real)
    requires Distinct(assets) && Priced(assets, prices) && k < |assets|
    requires sold == l.Position(assets[k]) * config.sellPercentage * prices[assets[k]]
    requires amount == (1.0 - config.usdtReserve) * (1.0 - config.tradingFee) * sold
    ensures assets[k] in Snapshot(assets, l, prices, timestamp).assets
    ensures UpsideListIs(config, assets,
                         UpsideActions(config, assets, Snapshot(assets, l, prices, timestamp), assets[k]),
                         prices, timestamp, k, sold, amount)
  {
    hide Snapshot, UpsideActions, UpsideSell, ToRedistribute, IsOrder, UpsideListIs;
    SellIs(config, assets, l, prices, timestamp, assets[k], sold);
    RedistributedIs(config, sold, amount);
    UpsideListGiven(config, assets, l, prices, timestamp, k, sold, amount);
  }

  /** The cash after an upside rebalance in which everything executes: what the sale brings in after its fee, less what
      is bought and the fee on that. With purchases, that is the reserved part of the net proceeds less the fee on the
      amount bought. */
  lemma UpsideCash(
    config: RebalanceConfig, assets: seq<Symbol>, l: Ledger, prices: map<Symbol, real>, timestamp: real, k: nat,
    sold: real, amount: real)
    requires Distinct(assets) && Priced(assets, prices) && l.Solvent() && k < |assets| && assets[k] in l.positions
    requires config.sellPercentage <= 1.0 && 0.0 <= config.tradingFee <= 1.0 && config.minOrderValue >= 0.0
    requires sold == l.Position(assets[k]) * config.sellPercentage * prices[assets[k]]
    requires amount == (1.0 - config.usdtReserve) * (1.0 - config.tradingFee) * sold
    ensures assets[k] in Snapshot(assets, l, prices, timestamp).assets
    ensures var actions := UpsideActions(config, assets, Snapshot(assets, l, prices, timestamp), assets[k]);
            var run := Execute(config.tradingFee, l, actions);
            actions != [] && AllTrue(run.executed) ==>
              if |actions| == 1 then run.ledger.usdt == l.usdt + (1.0 - config.tradingFee) * sold
              else run.ledger.usdt
                   == l.usdt + config.usdtReserve * ((1.0 - config.tradingFee) * sold) - config.tradingFee * amount
  {
    hide Snapshot, UpsideActions, UpsideSell, ToRedistribute, IsOrder, Execute, AllTrue, SelfFunding, Net, Cost;
    SellIs(config, assets, l, prices, timestamp, assets[k], sold);
    SaleValue(UpsideSell(config, Snapshot(assets, l, prices, timestamp), assets[k]), assets[k], sold, prices,
              timestamp);
    RedistributedIs(config, sold, amount);
    UpsideFunding(config, assets, l, prices, timestamp, assets[k]);
    CashLeft(config.usdtReserve, config.tradingFee, sold, amount);
  }

  lemma CashLeft(reserve: real, fee: real, sold: real, amount: real)
    requires amount == (1.0 - reserve) * (1.0 - fee) * sold
    ensures Net(sold, fee) == (1.0 - fee) * sold
    ensures Net(sold, fee) - Cost(amount, fee) == reserve * ((1.0 - fee) * sold) - fee * amount
  {
    var net := (1.0 - fee) * sold;
    Reassociated(1.0 - reserve, 1.0 - fee, sold);
    assert amount == (1.0 - reserve) * net;
    assert amount == net - reserve * net;
  }

  lemma SaleValue(a: RebalanceAction, s: Symbol, value: real, prices: map<Symbol, real>, timestamp: real)
    requires IsOrder(a, s, SELL, value, prices, timestamp)
    ensures a.valueUsdt == value
  {
  }

  lemma WholeShare(total: real, n: nat)
    requires n > 0
    ensures Total(n, total / n as real) == total
  {
  }

  lemma BuysAre(
    buys: seq<RebalanceAction>, assets: seq<Symbol>, k: nat, share: real, prices: map<Symbol, real>, timestamp: real)
    requires k < |assets| && OrdersOf(buys, assets[..k] + assets[k + 1..], BUY, share, prices, timestamp)
    ensures OthersBought(buys, assets, k, share, prices, timestamp)
  {
    hide IsOrder;
    var targets := assets[..k] + assets[k + 1..];
    assert forall i :: 0 <= i < |targets| ==> targets[i] == assets[if i < k then i else i + 1];
  }

  // ----- downside

  /** What an asset is worth beyond the mean, if it is not s and worth more. */
  function Surplus(l: Ledger, prices: map<Symbol, real>, mean: real, s: Symbol): Symbol -> real
  {
    a => if a != s && l.Value(prices, a) > mean then l.Value(prices, a) - mean else 0.0
  }

  /** The smaller of the pro rata share of the deficit and a quarter of the value. */
  function Support(deficit: real, surplus: real, total: real, value: real): real
    requires total > 0.0
  {
    if deficit * surplus / total <= value / 4.0 then deficit * surplus / total else value / 4.0
  }

  /** Whether an asset is asked to support the purchase of s: it has a surplus, and its support reaches the minimum. */
  predicate Supports(
    config: RebalanceConfig, l: Ledger, prices: map<Symbol, real>, mean: real, deficit: real, total: real, s: Symbol,
    a: Symbol)
    requires total > 0.0
  {
    && a != s && l.Value(prices, a) > mean
    && Support(deficit, l.Value(prices, a) - mean, total, l.Value(prices, a)) >= config.minOrderValue
  }

  /** One sale for each asset that supports, in order, of exactly its support. */
  ghost predicate SupportSales(
    sells: seq<RebalanceAction>, config: RebalanceConfig, assets: seq<Symbol>, l: Ledger, prices: map<Symbol, real>,
    timestamp: real, mean: real, deficit: real, total: real, s: Symbol)
    requires total > 0.0
  {
    var sellers := Filter(assets, (a: Symbol) => Supports(config, l, prices, mean, deficit, total, s, a));
    && |sells| == |sellers|
    && forall i :: 0 <= i < |sells| ==>
         IsOrder(sells[i], sellers[i], SELL,
                 Support(deficit, l.Value(prices, sellers[i]) - mean, total, l.Value(prices, sellers[i])), prices,
                 timestamp)
  }

  /** Orders of a value for each target are those that reach the minimum, in order. */
  ghost predicate OrdersBy(
    orders: seq<RebalanceAction>, targets: seq<Symbol>, side: Side, value: Symbol -> real, prices: map<Symbol, real>,
    timestamp: real)
  {
    && |orders| == |targets|
    && forall i :: 0 <= i < |orders| ==>
         IsOrder(orders[i], targets[i], side, value(targets[i]), prices, timestamp)
  }

  function Reaches(value: Symbol -> real, minimum: real): Symbol -> bool
  {
    a => value(a) >= minimum
  }

  lemma {:induction false} OrdersAreBy(
    minimum: real, assets: seq<Symbol>, l: Ledger, prices: map<Symbol, real>, timestamp: real, side: Side,
    targets: seq<Symbol>, value: Symbol -> real)
    requires Priced(assets, prices) && forall a :: a in targets ==> a in assets
    ensures OrdersBy(Orders(minimum, Snapshot(assets, l, prices, timestamp), side, targets, value),
                     Filter(targets, Reaches(value, minimum)), side, value, prices, timestamp)
  {
    if |targets| == 0 {
    } else {
      hide Mean, Ledger.TotalValue, Ledger.Value, IsOrder;
      var n := |targets| - 1;
      assert targets[n] in assets;
      OrdersAreBy(minimum, assets, l, prices, timestamp, side, targets[..n], value);
      OrderIs(assets, l, prices, timestamp, REDISTRIBUTE, side, targets[n], value(targets[n]));
    }
  }

  lemma {:induction false} FilterTwice(xs: seq<Symbol>, p: Symbol -> bool, q: Symbol -> bool)
    ensures Filter(Filter(xs, p), q) == Filter(xs, (a: Symbol) => p(a) && q(a))
  {
    if |xs| == 0 {
    } else {
      var n := |xs| - 1;
      FilterTwice(xs[..n], p, q);
      var r := Filter(xs[..n], p);
      if p(xs[n]) {
        assert (r + [xs[n]])[..|r|] == r;
      }
    }
  }

  /** What a trigger finds: the mean, what s lacks of it, and the surplus of the others. */
  ghost predicate Figures(
    assets: seq<Symbol>, l: Ledger, prices: map<Symbol, real>, s: Symbol, mean: real, deficit: real, total: real)
  {
    && |assets| > 0 && |assets| as real * mean == Sum(assets, l.Values(prices))
    && deficit == mean - l.Value(prices, s)
    && total == Sum(assets, Surplus(l, prices, mean, s))
  }

  lemma FiguresAre(
    assets: seq<Symbol>, l: Ledger, prices: map<Symbol, real>, timestamp: real, s: Symbol, mean: real, deficit: real,
    total: real)
    requires s in assets && Figures(assets, l, prices, s, mean, deficit, total)
    ensures var st := Snapshot(assets, l, prices, timestamp);
            && st.meanAssetValue == mean && Deficit(st, s) == deficit
            && Sum(Outperformers(st, s), Excess(st)) == total
            && forall a :: a in assets ==> Excess(st)(a) == l.Value(prices, a) - mean
  {
    hide Mean, Ledger.Value, Sum, Filter;
    var st := Snapshot(assets, l, prices, timestamp);
    MeanTimesCount(assets, l, prices);
    SameFactor(|assets| as real, mean, Mean(assets, l, prices));
    ExcessOf(assets, l, prices, timestamp);
    SumFilter(assets, IsOutperformer(st, s), Excess(st));
    SumCongruent(assets, Masked(IsOutperformer(st, s), Excess(st)), Surplus(l, prices, mean, s));
  }

  lemma SameFactor(n: real, a: real, b: real)
    requires n > 0.0 && n * a == n * b
    ensures a == b
  {
    CancelFactor(a, b, n);
    CancelFactor(b, a, n);
  }

  /** The support of one asset, as it is ordered. */
  lemma SupportIs(
    assets: seq<Symbol>, l: Ledger, prices: map<Symbol, real>, timestamp: real, s: Symbol, mean: real, deficit: real,
    total: real, a: Symbol)
    requires Figures(assets, l, prices, s, mean, deficit, total) && s in assets && a in assets
    requires 0.0 <= deficit <= total && total > 0.0 && a != s && l.Value(prices, a) > mean
    ensures SupportValue(Snapshot(assets, l, prices, timestamp), deficit, total)(a)
         == Support(deficit, l.Value(prices, a) - mean, total, l.Value(prices, a))
  {
    hide Mean, Ledger.TotalValue, Ledger.Value, SupportValue, Support, Sum, Figures;
    var st := Snapshot(assets, l, prices, timestamp);
    FiguresAre(assets, l, prices, timestamp, s, mean, deficit, total);
    SurplusWithin(assets, l, prices, s, mean, deficit, total, a);
    SupportIsPortion(st, deficit, total, a);
    PortionIsShare(deficit, total, l.Value(prices, a) - mean, l.Value(prices, a));
  }

  lemma SurplusWithin(
    assets: seq<Symbol>, l: Ledger, prices: map<Symbol, real>, s: Symbol, mean: real, deficit: real, total: real,
    a: Symbol)
    requires Figures(assets, l, prices, s, mean, deficit, total) && a in assets && a != s && l.Value(prices, a) > mean
    ensures l.Value(prices, a) - mean <= total
  {
    hide Ledger.Value, Sum;
    SumAtLeastTerm(assets, Surplus(l, prices, mean, s), a);
  }

  lemma PortionIsShare(deficit: real, total: real, surplus: real, value: real)
    requires total > 0.0
    ensures Min(Portion(deficit, total, surplus), value * 0.25) == Support(deficit, surplus, total, value)
  {
    var q := deficit / total;
    assert q * total == deficit;
    assert (q * surplus) * total == deficit * surplus;
    SameQuotient(q * surplus, deficit * surplus, total);
  }

  lemma SameQuotient(a: real, b: real, t: real)
    requires t > 0.0 && a * t == b
    ensures a == b / t
  {
    SameFactor(t, a, b / t);
  }

  /** The support sales are those. */
  lemma SupportSalesAre(
    config: RebalanceConfig, assets: seq<Symbol>, l: Ledger, prices: map<Symbol, real>, timestamp: real, s: Symbol,
    mean: real, deficit: real, total: real)
    requires Figures(assets, l, prices, s, mean, deficit, total) && Priced(assets, prices) && s in assets
    requires 0.0 <= deficit <= total && total > 0.0
    ensures s in Snapshot(assets, l, prices, timestamp).assets
    ensures SupportSales(SupportOrders(config, Snapshot(assets, l, prices, timestamp), s), config, assets, l, prices,
                         timestamp, mean, deficit, total, s)
  {
    hide Mean, Ledger.TotalValue, Ledger.Value, SupportValue, Support, Sum, Figures, IsOrder, Filter, Orders, Excess;
    var st := Snapshot(assets, l, prices, timestamp);
    FiguresAre(assets, l, prices, timestamp, s, mean, deficit, total);
    var sources := Outperformers(st, s);
    var value := SupportValue(st, deficit, total);
    OrdersAreBy(config.minOrderValue, assets, l, prices, timestamp, SELL, sources, value);
    var p, q := IsOutperformer(st, s), Reaches(value, config.minOrderValue);
    FilterTwice(assets, p, q);
    var supports := (a: Symbol) => Supports(config, l, prices, mean, deficit, total, s, a);
    forall a | a in assets
      ensures (p(a) && q(a)) == supports(a)
      ensures supports(a) ==> value(a) == Support(deficit, l.Value(prices, a) - mean, total, l.Value(prices, a))
    {
      if a != s && l.Value(prices, a) > mean {
        SupportIs(assets, l, prices, timestamp, s, mean, deficit, total, a);
      }
    }
    FilterCongruent(assets, (a: Symbol) => p(a) && q(a), supports);
    assert SupportOrders(config, st, s) == Orders(config.minOrderValue, st, SELL, sources, value);
    var sellers := Filter(assets, supports);
    assert forall i :: 0 <= i < |sellers| ==> sellers[i] in sellers;
  }

  /** The whole downside list. Nothing if s lacks less than the minimum order. If the cash covers what it lacks, one
      purchase of exactly that. Otherwise the support sales and, exactly when what they bring in after the fee exceeds
      the minimum order, one purchase of s for that. */
  ghost predicate DownsideListIs(
    config: RebalanceConfig, assets: seq<Symbol>, actions: seq<RebalanceAction>, l: Ledger, prices: map<Symbol, real>,
    timestamp: real, s: Symbol, mean: real, deficit: real, total: real)
  {
    && (deficit < config.minOrderValue ==> actions == [])
    && (config.minOrderValue <= deficit <= l.usdt ==>
          |actions| == 1 && IsOrder(actions[0], s, BUY, deficit, prices, timestamp))
    && (config.minOrderValue <= deficit && l.usdt < deficit ==>
          total > 0.0 && SalesAndPurchase(config, assets, actions, l, prices, timestamp, s, mean, deficit, total))
  }

  ghost predicate SalesAndPurchase(
    config: RebalanceConfig, assets: seq<Symbol>, actions: seq<RebalanceAction>, l: Ledger, prices: map<Symbol, real>,
    timestamp: real, s: Symbol, mean: real, deficit: real, total: real)
    requires total > 0.0
  {
    exists m: nat {:trigger actions[..m]} :: (
      && m <= |actions|
      && SupportSales(actions[..m], config, assets, l, prices, timestamp, mean, deficit, total, s)
      && var net := TotalVolume(actions[..m]) * (1.0 - config.tradingFee);
         if net > config.minOrderValue
         then |actions| == m + 1 && IsOrder(actions[m], s, BUY, net, prices, timestamp)
         else |actions| == m)
  }

  lemma DownsideListExactly(
    config: RebalanceConfig, assets: seq<Symbol>, l: Ledger, prices: map<Symbol, real>, timestamp: real, s: Symbol,
    mean: real, deficit: real, total: real)
    requires Distinct(assets) && Priced(assets, prices) && l.usdt >= 0.0 && s in assets
    requires Figures(assets, l, prices, s, mean, deficit, total)
    ensures Tradable(Snapshot(assets, l, prices, timestamp)) && s in Snapshot(assets, l, prices, timestamp).assets
    ensures DownsideListIs(config, assets, DownsideActions(config, Snapshot(assets, l, prices, timestamp), s), l,
                           prices, timestamp, s, mean, deficit, total)
  {
    hide *;
    var st := Snapshot(assets, l, prices, timestamp);
    SnapshotIsTradable(assets, l, prices, timestamp);
    KnownSymbol(assets, l, prices, timestamp, s);
    FiguresAre(assets, l, prices, timestamp, s, mean, deficit, total);
    if deficit < config.minOrderValue {
      SmallDeficit(config, st, s);
    } else if deficit <= l.usdt {
      CoveredDeficit(config, assets, l, prices, timestamp, s);
    } else {
      UncoveredDeficit(config, assets, l, prices, timestamp, s, mean, deficit, total);
    }
    DownsideListCases(config, assets, DownsideActions(config, st, s), l, prices, timestamp, s, mean, deficit, total);
  }

  lemma SmallDeficit(config: RebalanceConfig, st: PortfolioState, s: Symbol)
    requires Tradable(st) && s in st.assets && Deficit(st, s) < config.minOrderValue
    ensures DownsideActions(config, st, s) == []
  {
  }

  lemma CoveredDeficit(
    config: RebalanceConfig, assets: seq<Symbol>, l: Ledger, prices: map<Symbol, real>, timestamp: real, s: Symbol)
    requires Priced(assets, prices) && s in assets
    requires config.minOrderValue <= Deficit(Snapshot(assets, l, prices, timestamp), s) <= l.usdt
    ensures var st := Snapshot(assets, l, prices, timestamp);
            var actions := DownsideActions(config, st, s);
            |actions| == 1 && IsOrder(actions[0], s, BUY, Deficit(st, s), prices, timestamp)
  {
    hide Deficit, IsOrder, Mean, Ledger.TotalValue, Ledger.Value, Order;
    OrderIs(assets, l, prices, timestamp, BUY_DOWNSIDE, BUY, s, Deficit(Snapshot(assets, l, prices, timestamp), s));
  }

  lemma UncoveredDeficit(
    config: RebalanceConfig, assets: seq<Symbol>, l: Ledger, prices: map<Symbol, real>, timestamp: real, s: Symbol,
    mean: real, deficit: real, total: real)
    requires Distinct(assets) && Priced(assets, prices) && s in assets && 0.0 <= l.usdt < deficit
    requires Figures(assets, l, prices, s, mean, deficit, total) && config.minOrderValue <= deficit
    ensures Tradable(Snapshot(assets, l, prices, timestamp)) && s in Snapshot(assets, l, prices, timestamp).assets
    ensures total > 0.0
    ensures SalesAndPurchase(config, assets, DownsideActions(config, Snapshot(assets, l, prices, timestamp), s), l,
                             prices, timestamp, s, mean, deficit, total)
  {
    hide *;
    var st := Snapshot(assets, l, prices, timestamp);
    SnapshotIsTradable(assets, l, prices, timestamp);
    KnownSymbol(assets, l, prices, timestamp, s);
    FiguresAre(assets, l, prices, timestamp, s, mean, deficit, total);
    ExcessCoversDeficit(assets, l, prices, timestamp, s);
    SupportSalesAre(config, assets, l, prices, timestamp, s, mean, deficit, total);
    var sells := SupportOrders(config, st, s);
    var net := NetProceeds(config, sells);
    OrderIs(assets, l, prices, timestamp, BUY_DOWNSIDE, BUY, s, net);
    PlanIs(config, assets, l, prices, timestamp, s);
    Split(config, assets, DownsideActions(config, st, s), sells, l, prices, timestamp, s, mean, deficit, total);
  }

  lemma PlanIs(
    config: RebalanceConfig, assets: seq<Symbol>, l: Ledger, prices: map<Symbol, real>, timestamp: real, s: Symbol)
    requires Distinct(assets) && Priced(assets, prices) && s in assets && l.usdt >= 0.0
    requires config.minOrderValue <= Deficit(Snapshot(assets, l, prices, timestamp), s)
    requires l.usdt < Deficit(Snapshot(assets, l, prices, timestamp), s)
    ensures var st := Snapshot(assets, l, prices, timestamp);
            var sells := SupportOrders(config, st, s);
            var net := NetProceeds(config, sells);
            DownsideActions(config, st, s)
              == if net > config.minOrderValue then sells + [Order(st, BUY_DOWNSIDE, BUY, s, net)] else sells
  {
    hide Mean, Ledger.TotalValue, Ledger.Value, Excess, Order, NetProceeds, SupportOrders, Outperformers;
    GuardsUnreachable(config, assets, l, prices, timestamp, s);
  }

  lemma Split(
    config: RebalanceConfig, assets: seq<Symbol>, actions: seq<RebalanceAction>, sells: seq<RebalanceAction>, l: Ledger,
    prices: map<Symbol, real>, timestamp: real, s: Symbol, mean: real, deficit: real, total: real)
    requires total > 0.0
    requires SupportSales(sells, config, assets, l, prices, timestamp, mean, deficit, total, s)
    requires sells <= actions
    requires if NetProceeds(config, sells) > config.minOrderValue
             then |actions| == |sells| + 1
                  && IsOrder(actions[|sells|], s, BUY, NetProceeds(config, sells), prices, timestamp)
             else actions == sells
    ensures SalesAndPurchase(config, assets, actions, l, prices, timestamp, s, mean, deficit, total)
  {
    hide SupportSales, IsOrder, TotalVolume;
    assert actions[..|sells|] == sells;
  }

  lemma DownsideListCases(
    config: RebalanceConfig, assets: seq<Symbol>, actions: seq<RebalanceAction>, l: Ledger, prices: map<Symbol, real>,
    timestamp: real, s: Symbol, mean: real, deficit: real, total: real)
    requires if deficit < config.minOrderValue then actions == []
             else if deficit <= l.usdt
             then |actions| == 1 && IsOrder(actions[0], s, BUY, deficit, prices, timestamp)
             else (total > 0.0
                   && SalesAndPurchase(config, assets, actions, l, prices, timestamp, s, mean, deficit, total))
    ensures DownsideListIs(config, assets, actions, l, prices, timestamp, s, mean, deficit, total)
  {
    hide SalesAndPurchase, IsOrder;
  }

  /** A purchase out of the cash that is paid for brings s exactly to the mean. */
  lemma CoveredPurchaseReachesMean(
    config: RebalanceConfig, assets: seq<Symbol>, l: Ledger, prices: map<Symbol, real>, timestamp: real, s: Symbol,
    mean: real, deficit: real, total: real)
    requires Distinct(assets) && Priced(assets, prices) && s in assets
    requires Figures(assets, l, prices, s, mean, deficit, total)
    requires config.minOrderValue <= deficit && l.usdt >= Cost(deficit, config.tradingFee) && l.usdt >= deficit
    ensures Tradable(Snapshot(assets, l, prices, timestamp)) && s in Snapshot(assets, l, prices, timestamp).assets
    ensures Execute(config.tradingFee, l, DownsideActions(config, Snapshot(assets, l, prices, timestamp), s))
              .ledger.Value(prices, s) == mean
  {
    hide *;
    var st := Snapshot(assets, l, prices, timestamp);
    SnapshotIsTradable(assets, l, prices, timestamp);
    KnownSymbol(assets, l, prices, timestamp, s);
    FiguresAre(assets, l, prices, timestamp, s, mean, deficit, total);
    CoveredDeficit(config, assets, l, prices, timestamp, s);
    BoughtValue(config.tradingFee, assets, l, DownsideActions(config, st, s), prices, timestamp, s, deficit);
    DeficitIs(assets, l, prices, s, mean, deficit, total);
  }

  lemma DeficitIs(
    assets: seq<Symbol>, l: Ledger, prices: map<Symbol, real>, s: Symbol, mean: real, deficit: real, total: real)
    requires Figures(assets, l, prices, s, mean, deficit, total)
    ensures l.Value(prices, s) + deficit == mean
  {
  }

  lemma BoughtValue(
    fee: real, assets: seq<Symbol>, l: Ledger, actions: seq<RebalanceAction>, prices: map<Symbol, real>,
    timestamp: real, s: Symbol, value: real)
    requires |actions| == 1 && IsOrder(actions[0], s, BUY, value, prices, timestamp) && l.usdt >= Cost(value, fee)
    requires Priced(assets, prices) && s in assets
    ensures Execute(fee, l, actions).ledger.Value(prices, s) == l.Value(prices, s) + value
  {
    hide Attempt, Ledger.Value, Cost;
    assert actions == [actions[0]] && actions[..0] == [];
    PurchaseExecutes(fee, l, actions[0]);
    TradeMovesValue(fee, prices, l, actions[0]);
  }
}
