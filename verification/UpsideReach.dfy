/** Which assets an upside rebalance can be about, and when its sale can take the trigger below the mean. */
module UpsideReach {
  import opened Sums
  import opened Portfolio
  import opened PortfolioTracking
  import opened Rebalancing
  import opened UpsideLaws

  /** The rebalancer picks s for an upside rebalance; no stamp lies in the future. */
  ghost predicate UpsideTrigger(
    config: RebalanceConfig, assets: seq<Symbol>, l: Ledger, prices: map<Symbol, real>, timestamp: real, s: Symbol)
  {
    var st := Snapshot(assets, l, prices, timestamp);
    && PastThreshold(config, assets, l, prices, timestamp, s)
    && (forall a :: a in l.lastRebalance ==> l.lastRebalance[a] <= timestamp)
    && FirstTrigger(config, l.lastRebalance, st, 0) == Some(Trigger(s, st.Deviation(s), Upside))
  }

  // ----- room for a trigger

  /** The least multiple of the mean that an asset can be worth without a downside trigger. */
  function Floor(config: RebalanceConfig): real
  {
    Max(0.0, 1.0 - config.downsideThreshold)
  }

  /** What asset number i of n can be worth, in multiples of the mean, when it triggers: with a cooldown every asset
      before it can be in its own, without one each of them must be worth the floor. */
  function Room(config: RebalanceConfig, n: nat, i: nat): real
  {
    if config.cooldownMinutes > 0.0 then n as real else n as real - i as real * Floor(config)
  }

  /** Asset number i of n can trigger an upside rebalance. */
  predicate CanTrigger(config: RebalanceConfig, n: nat, i: nat)
  {
    && 1.0 + config.upsideThreshold < Room(config, n, i)
    && (config.cooldownMinutes > 0.0 || i == 0 || Floor(config) <= 1.0 + config.upsideThreshold)
  }

  /** No asset before the one that triggers would trigger itself. */
  lemma {:induction false} QuietBefore(
    config: RebalanceConfig, last: map<Symbol, real>, st: PortfolioState, i: nat, k: nat, j: nat)
    requires st.WellFormed() && Distinct(st.symbols) && i <= j < k < |st.symbols|
    requires FirstTrigger(config, last, st, i).Some? && FirstTrigger(config, last, st, i).value.symbol == st.symbols[k]
    ensures TriggerOf(config, last, st, st.symbols[j]).None?
    decreases k - i
  {
    if i < j && TriggerOf(config, last, st, st.symbols[i]).None? {
      QuietBefore(config, last, st, i + 1, k, j);
    }
  }

  /** After quiet assets the next one that would trigger does. */
  lemma {:induction false} TriggersAfterQuiet(
    config: RebalanceConfig, last: map<Symbol, real>, st: PortfolioState, i: nat, k: nat)
    requires st.WellFormed() && i <= k < |st.symbols|
    requires forall j :: i <= j < k ==> TriggerOf(config, last, st, st.symbols[j]).None?
    requires TriggerOf(config, last, st, st.symbols[k]).Some?
    ensures FirstTrigger(config, last, st, i) == TriggerOf(config, last, st, st.symbols[k])
    decreases k - i
  {
    if i < k {
      TriggersAfterQuiet(config, last, st, i + 1, k);
    }
  }

  /** Without a cooldown, what triggers nothing lies between the floor and the upside threshold. */
  lemma QuietBand(config: RebalanceConfig, last: map<Symbol, real>, st: PortfolioState, s: Symbol)
    requires s in st.assets && st.meanAssetValue > 0.0 && st.assets[s].valueUsdt >= 0.0 && config.cooldownMinutes <= 0.0
    requires config.upsideThreshold >= 0.0
    requires TriggerOf(config, last, st, s).None? && (s in last ==> last[s] <= st.timestamp)
    ensures Floor(config) * st.meanAssetValue <= st.assets[s].valueUsdt
    ensures st.assets[s].valueUsdt <= (1.0 + config.upsideThreshold) * st.meanAssetValue
    ensures Floor(config) <= 1.0 + config.upsideThreshold
  {
    var d, m := st.Deviation(s), st.meanAssetValue;
    assert d * m == st.assets[s].valueUsdt - m;
    assert -config.downsideThreshold <= d <= config.upsideThreshold;
    AtMost(d, config.upsideThreshold, m);
    AtMost(-config.downsideThreshold, d, m);
  }

  /** The values of the assets add up to the mean for each. */
  lemma ValuesAddUp(assets: seq<Symbol>, l: Ledger, prices: map<Symbol, real>)
    requires |assets| > 0
    ensures Sum(assets, l.Values(prices)) == |assets| as real * Mean(assets, l, prices)
  {
    hide Sum, Ledger.Value;
    Shared(Sum(assets, l.Values(prices)), |assets| as real);
  }

  lemma Shared(total: real, n: real)
    requires n > 0.0
    ensures n * (total / n) == total
  {
  }

  /** A lower bound on the values: the floor before asset i, its own value there, nothing after it. */
  function Least(assets: seq<Symbol>, i: nat, floor: real, value: real): Symbol -> real
    requires i < |assets|
  {
    s => if s == assets[i] then value else if s in assets[..i] then floor else 0.0
  }

  lemma LeastSum(assets: seq<Symbol>, i: nat, floor: real, value: real)
    requires Distinct(assets) && i < |assets|
    ensures Sum(assets, Least(assets, i, floor, value)) == Parts(i, floor, value, |assets| - 1 - i, 0.0)
  {
    hide Sum, Parts;
    var f := Least(assets, i, floor, value);
    forall j | 0 <= j < |assets|
      ensures f(assets[j]) == if j < i then floor else if j == i then value else 0.0
    {
      assert j < i ==> assets[j] == assets[..i][j];
    }
    SumThreeParts(assets, i, f, floor, value, 0.0);
  }

  /** What a trigger says about the values around it. */
  lemma TriggerValues(
    config: RebalanceConfig, assets: seq<Symbol>, l: Ledger, prices: map<Symbol, real>, timestamp: real, i: nat)
    requires i < |assets| && UpsideTrigger(config, assets, l, prices, timestamp, assets[i])
    requires config.upsideThreshold >= 0.0
    ensures Priced(assets, prices) && l.Solvent()
    ensures Mean(assets, l, prices) > 0.0
    ensures l.Value(prices, assets[i]) > (1.0 + config.upsideThreshold) * Mean(assets, l, prices)
  {
    hide Mean, Ledger.TotalValue, Ledger.Value, FirstTrigger, Ledger.Solvent;
    DeviationMeans(Snapshot(assets, l, prices, timestamp), assets[i], config.upsideThreshold);
  }

  lemma QuietValue(
    config: RebalanceConfig, assets: seq<Symbol>, l: Ledger, prices: map<Symbol, real>, timestamp: real, i: nat, j: nat)
    requires Distinct(assets) && j < i < |assets| && UpsideTrigger(config, assets, l, prices, timestamp, assets[i])
    requires config.upsideThreshold >= 0.0 && config.cooldownMinutes <= 0.0
    ensures Floor(config) * Mean(assets, l, prices) <= l.Value(prices, assets[j])
    ensures Floor(config) <= 1.0 + config.upsideThreshold
  {
    hide Mean, Ledger.TotalValue, Ledger.Value, FirstTrigger, Ledger.Solvent, PastThreshold, TriggerOf, Floor,
      PortfolioState.Deviation;
    TriggerValues(config, assets, l, prices, timestamp, i);
    HoldingNonNegative(assets, l, prices, assets[j]);
    var st := Snapshot(assets, l, prices, timestamp);
    QuietBefore(config, l.lastRebalance, st, 0, i, j);
    QuietBand(config, l.lastRebalance, st, assets[j]);
  }

  /** An asset that triggers has room to. */
  lemma TriggerHasRoom(
    config: RebalanceConfig, assets: seq<Symbol>, l: Ledger, prices: map<Symbol, real>, timestamp: real, i: nat)
    requires Distinct(assets) && i < |assets| && config.upsideThreshold >= 0.0
    requires UpsideTrigger(config, assets, l, prices, timestamp, assets[i])
    ensures CanTrigger(config, |assets|, i)
  {
    hide UpsideTrigger, Mean, Floor, Ledger.Value, Least, Sum;
    var mean, value := Mean(assets, l, prices), l.Value(prices, assets[i]);
    var floor := if config.cooldownMinutes > 0.0 then 0.0 else Floor(config);
    TriggerValues(config, assets, l, prices, timestamp, i);
    forall j | 0 <= j < i
      ensures floor * mean <= l.Values(prices)(assets[j])
      ensures config.cooldownMinutes > 0.0 || Floor(config) <= 1.0 + config.upsideThreshold
    {
      HoldingNonNegative(assets, l, prices, assets[j]);
      if config.cooldownMinutes <= 0.0 {
        QuietValue(config, assets, l, prices, timestamp, i, j);
      }
    }
    LeastBelow(assets, l, prices, i, floor * mean);
    LeastSum(assets, i, floor * mean, value);
    SumMonotone(assets, Least(assets, i, floor * mean, value), l.Values(prices));
    ValuesAddUp(assets, l, prices);
    RoomLeft(|assets| as real, i as real, floor, 1.0 + config.upsideThreshold, mean, value);
    assert config.cooldownMinutes <= 0.0 && i > 0 ==> floor * mean <= l.Values(prices)(assets[0]);
  }

  lemma LeastBelow(assets: seq<Symbol>, l: Ledger, prices: map<Symbol, real>, i: nat, floor: real)
    requires Priced(assets, prices) && l.Solvent() && i < |assets|
    requires forall j :: 0 <= j < i ==> floor <= l.Values(prices)(assets[j])
    ensures forall s :: s in assets ==> Least(assets, i, floor, l.Value(prices, assets[i]))(s) <= l.Values(prices)(s)
  {
    hide Ledger.Value, Ledger.Solvent;
    forall s | s in assets
      ensures Least(assets, i, floor, l.Value(prices, assets[i]))(s) <= l.Values(prices)(s)
    {
      HoldingNonNegative(assets, l, prices, s);
    }
  }

  lemma RoomLeft(n: real, i: real, floor: real, past: real, mean: real, value: real)
    requires mean > 0.0 && value > past * mean && n * mean >= i * (floor * mean) + value
    ensures past < n - i * floor
  {
    Associates(i, floor, mean);
    if past >= n - i * floor {
      AtMost(n - i * floor, past, mean);
    }
  }

  lemma Associates(a: real, b: real, c: real)
    ensures a * (b * c) == (a * b) * c
  {
  }

  // ----- a portfolio that triggers

  /** A multiple of the mean beyond the threshold, below n, whose unsold fraction is below the mean. */
  lemma Multiple(fraction: real, threshold: real, n: real) returns (k: real)
    requires threshold >= 0.0 && n > 1.0 + threshold && 0.0 <= fraction <= 1.0
    requires (1.0 - fraction) * (1.0 + threshold) < 1.0
    ensures 1.0 + threshold < k < n && k * (1.0 - fraction) < 1.0
  {
    var keep := 1.0 - fraction;
    if keep == 0.0 {
      k := (1.0 + threshold + n) / 2.0;
    } else {
      var q := 1.0 / keep;
      assert q * keep == 1.0;
      if q <= 1.0 + threshold {
        AtMost(q, 1.0 + threshold, keep);
      }
      var bound := Min(q, n);
      k := (1.0 + threshold + bound) / 2.0;
      Larger(q, k, keep);
    }
  }

  /** What the assets before and after number i are worth, in multiples of the mean, when it is worth k. */
  lemma Levels(config: RebalanceConfig, n: nat, i: nat, k: real) returns (before: real, after: real)
    requires i < n && config.upsideThreshold >= 0.0 && CanTrigger(config, n, i)
    requires 1.0 + config.upsideThreshold < k < Room(config, n, i)
    ensures before >= 0.0 && after >= 0.0
    ensures Parts(i, before, k, n - 1 - i, after) == n as real
    ensures config.cooldownMinutes > 0.0 || i == 0 || Floor(config) <= before <= 1.0 + config.upsideThreshold
  {
    hide Parts, Floor, Even;
    Rooms(config, n, i);
    if config.cooldownMinutes > 0.0 || i == 0 || i == n - 1 {
      before := Even(n as real, k);
      after := before;
      EvenLevels(n, i, k);
      if i == n - 1 && i > 0 && config.cooldownMinutes <= 0.0 {
        EvenAbove(n as real, k, Floor(config));
      }
    } else {
      before := Floor(config);
      after := RestLevel(n, i, k, before);
    }
  }

  /** What is left for the assets after number i. */
  lemma RestLevel(n: nat, i: nat, k: real, before: real) returns (after: real)
    requires i + 1 < n && k < n as real - i as real * before
    ensures after >= 0.0 && Parts(i, before, k, n - 1 - i, after) == n as real
  {
    var left := n as real - k - i as real * before;
    after := left / (n - 1 - i) as real;
    Shared(left, (n - 1 - i) as real);
  }

  lemma Rooms(config: RebalanceConfig, n: nat, i: nat)
    ensures Floor(config) >= 0.0 && Room(config, n, i) <= n as real
  {
    ProductOfNonNegatives(i as real, Floor(config));
  }

  lemma ProductOfNonNegatives(x: real, y: real)
    requires x >= 0.0 && y >= 0.0
    ensures x * y >= 0.0
  {
  }

  function Even(n: real, k: real): real
    requires n > 1.0
  {
    (n - k) / (n - 1.0)
  }

  lemma EvenLevels(n: nat, i: nat, k: real)
    requires 1 < n && i < n && k < n as real
    ensures Even(n as real, k) >= 0.0 && Parts(i, Even(n as real, k), k, n - 1 - i, Even(n as real, k)) == n as real
  {
    var e := Even(n as real, k);
    Shared(n as real - k, n as real - 1.0);
    Gathered(i as real, (n - 1 - i) as real, e);
  }

  lemma Gathered(a: real, b: real, e: real)
    ensures a * e + b * e == (a + b) * e
  {
  }

  lemma EvenAbove(n: real, k: real, floor: real)
    requires n > 1.0 && 1.0 < k < n - (n - 1.0) * floor
    ensures floor <= Even(n, k) <= 1.0
  {
    var e := Even(n, k);
    Shared(n - k, n - 1.0);
    if e < floor {
      Larger(floor, e, n - 1.0);
    }
    if e > 1.0 {
      Larger(e, 1.0, n - 1.0);
    }
  }

  /** The values of the portfolio, in multiples of the mean m. */
  function Level(assets: seq<Symbol>, i: nat, before: real, k: real, after: real, s: Symbol): real
    requires i < |assets|
  {
    if s == assets[i] then k else if s in assets[..i] then before else after
  }

  /** Positions of these values at price 1, no cash, and every asset but number i traded at time 0. */
  function Spread(assets: seq<Symbol>, i: nat, before: real, k: real, after: real, m: real): Ledger
    requires i < |assets|
  {
    Ledger(map s | s in assets :: Level(assets, i, before, k, after, s) * m, 0.0,
           map s | s in assets && s != assets[i] :: 0.0)
  }

  function Ones(assets: seq<Symbol>): map<Symbol, real>
  {
    map s | s in assets :: 1.0
  }

  lemma SpreadValue(assets: seq<Symbol>, i: nat, before: real, k: real, after: real, m: real, s: Symbol)
    requires i < |assets| && s in assets
    ensures Spread(assets, i, before, k, after, m).Value(Ones(assets), s) == Level(assets, i, before, k, after, s) * m
  {
    hide Level;
  }

  lemma SpreadSolvent(assets: seq<Symbol>, i: nat, before: real, k: real, after: real, m: real)
    requires i < |assets| && before >= 0.0 && k >= 0.0 && after >= 0.0 && m > 0.0
    ensures Spread(assets, i, before, k, after, m).Solvent() && Priced(assets, Ones(assets))
    ensures assets[i] in Spread(assets, i, before, k, after, m).positions
  {
    forall s | s in assets
      ensures Level(assets, i, before, k, after, s) * m >= 0.0
    {
      ProductOfNonNegatives(Level(assets, i, before, k, after, s), m);
    }
  }

  lemma SpreadMean(assets: seq<Symbol>, i: nat, before: real, k: real, after: real, m: real)
    requires Distinct(assets) && i < |assets|
    requires Parts(i, before, k, |assets| - 1 - i, after) == |assets| as real
    ensures Mean(assets, Spread(assets, i, before, k, after, m), Ones(assets)) == m
  {
    hide Mean, Ledger.Value, Spread, Level, Parts, Sum;
    var l, prices := Spread(assets, i, before, k, after, m), Ones(assets);
    forall j | 0 <= j < |assets|
      ensures l.Values(prices)(assets[j]) == (if j < i then before else if j == i then k else after) * m
    {
      SpreadValue(assets, i, before, k, after, m, assets[j]);
      LevelAt(assets, i, before, k, after, j);
    }
    SumThreeParts(assets, i, l.Values(prices), before * m, k * m, after * m);
    Balanced(i, before, k, |assets| - 1 - i, after, |assets| as real, m);
    MeanIsShare(assets, l, prices, m);
  }

  lemma LevelAt(assets: seq<Symbol>, i: nat, before: real, k: real, after: real, j: nat)
    requires Distinct(assets) && i < |assets| && j < |assets|
    ensures Level(assets, i, before, k, after, assets[j]) == if j < i then before else if j == i then k else after
  {
    assert j < i ==> assets[j] == assets[..i][j];
  }

  lemma Balanced(i: nat, before: real, k: real, rest: nat, after: real, n: real, m: real)
    requires Parts(i, before, k, rest, after) == n
    ensures Parts(i, before * m, k * m, rest, after * m) == n * m
  {
    Associates(i as real, before, m);
    Associates(rest as real, after, m);
  }

  lemma MeanIsShare(assets: seq<Symbol>, l: Ledger, prices: map<Symbol, real>, m: real)
    requires |assets| > 0 && Sum(assets, l.Values(prices)) == |assets| as real * m
    ensures Mean(assets, l, prices) == m
  {
    MeanOfTotal(|assets| as real, m);
  }

  lemma MeanOfTotal(n: real, m: real)
    requires n > 0.0
    ensures (n * m) / n == m
  {
  }

  /** An asset worth x times the mean deviates from it by x - 1. */
  lemma DeviationOfMultiple(st: PortfolioState, s: Symbol, x: real)
    requires s in st.assets && st.meanAssetValue > 0.0 && st.assets[s].valueUsdt == x * st.meanAssetValue
    ensures st.Deviation(s) == x - 1.0
  {
    OverMean(st.assets[s].valueUsdt, st.meanAssetValue, x);
  }

  lemma OverMean(value: real, mean: real, x: real)
    requires mean > 0.0 && value == x * mean
    ensures (value - mean) / mean == x - 1.0
  {
    var d := (value - mean) / mean;
    Shared(value - mean, mean);
    Gathered(x, -1.0, mean);
    CancelFactor(d, x - 1.0, mean);
    CancelFactor(x - 1.0, d, mean);
  }

  lemma StampedIsCooling(config: RebalanceConfig, last: map<Symbol, real>, s: Symbol)
    requires s in last && last[s] == 0.0 && config.cooldownMinutes > 0.0
    ensures InCooldown(config, last, s, 0.0)
  {
  }

  /** Asset number i triggers in this portfolio at time 0. */
  lemma SpreadTriggers(
    config: RebalanceConfig, assets: seq<Symbol>, i: nat, before: real, k: real, after: real, m: real)
    requires Distinct(assets) && i < |assets| && m > 0.0 && config.upsideThreshold >= 0.0
    requires before >= 0.0 && after >= 0.0 && k > 1.0 + config.upsideThreshold
    requires Parts(i, before, k, |assets| - 1 - i, after) == |assets| as real
    requires config.cooldownMinutes > 0.0 || i == 0 || Floor(config) <= before <= 1.0 + config.upsideThreshold
    ensures UpsideTrigger(config, assets, Spread(assets, i, before, k, after, m), Ones(assets), 0.0, assets[i])
  {
    hide Mean, Ledger.TotalValue, Ledger.Value, PortfolioState.Deviation, Ledger.Solvent, Ones, Priced, Level;
    SpreadSolvent(assets, i, before, k, after, m);
    SpreadMean(assets, i, before, k, after, m);
    var l, prices := Spread(assets, i, before, k, after, m), Ones(assets);
    var st := Snapshot(assets, l, prices, 0.0);
    forall j | 0 <= j <= i
      ensures st.Deviation(assets[j]) == (if j < i then before else k) - 1.0
    {
      SpreadValue(assets, i, before, k, after, m, assets[j]);
      LevelAt(assets, i, before, k, after, j);
      DeviationOfMultiple(st, assets[j], if j < i then before else k);
    }
    forall j | 0 <= j < i
      ensures TriggerOf(config, l.lastRebalance, st, assets[j]).None?
    {
      if config.cooldownMinutes > 0.0 {
        StampedIsCooling(config, l.lastRebalance, assets[j]);
      }
    }
    TriggersAfterQuiet(config, l.lastRebalance, st, 0, i);
  }

  // ----- below the mean

  lemma RestOfMultiple(k: real, m: real, fraction: real)
    requires m > 0.0 && k * (1.0 - fraction) < 1.0
    ensures Rest(k * m, fraction) < m
  {
    var keep := 1.0 - fraction;
    assert keep * k == k * keep;
    Larger(1.0, keep * k, m);
    Regroup(k, m, keep);
  }

  lemma SalePlaced(config: RebalanceConfig, assets: seq<Symbol>, l: Ledger, x: Symbol)
    requires x in assets && config.minOrderValue <= l.Value(Ones(assets), x) * config.sellPercentage
    ensures UpsideActions(config, assets, Snapshot(assets, l, Ones(assets), 0.0), x) != []
  {
    hide Mean, Ledger.TotalValue, ToRedistribute, Orders, PerAsset;
    assert UpsideSell(config, Snapshot(assets, l, Ones(assets), 0.0), x).valueUsdt
        == l.Value(Ones(assets), x) * config.sellPercentage;
  }

  /** With a large enough mean the sale is placed, and it takes asset number i below the mean. */
  lemma SpreadUndershoots(
    config: RebalanceConfig, assets: seq<Symbol>, i: nat, before: real, k: real, after: real, m: real)
    requires i < |assets|
    requires UpsideTrigger(config, assets, Spread(assets, i, before, k, after, m), Ones(assets), 0.0, assets[i])
    requires Mean(assets, Spread(assets, i, before, k, after, m), Ones(assets)) == m > 0.0
    requires 0.0 < config.sellPercentage <= 1.0 && k * (1.0 - config.sellPercentage) < 1.0
    requires config.minOrderValue <= (k * m) * config.sellPercentage
    ensures ValueAfter(config, assets, Spread(assets, i, before, k, after, m), Ones(assets), 0.0, assets[i]) < m
  {
    hide Spread, Mean, Ledger.TotalValue, Ledger.Value, UpsideActions, ValueAfter, PortfolioState.Deviation,
      Ledger.Solvent, Ones, Rest, Priced, FirstTrigger;
    var l := Spread(assets, i, before, k, after, m);
    SpreadValue(assets, i, before, k, after, m, assets[i]);
    assert l.Value(Ones(assets), assets[i]) == k * m;
    ValueAfterIs(config, assets, l, Ones(assets), 0.0, assets[i]);
    SalePlaced(config, assets, l, assets[i]);
    RestOfMultiple(k, m, config.sellPercentage);
  }

  /** No upside rebalance of s takes it below the pre-trade mean, whatever is held, at any prices and time. */
  ghost predicate NeverBelowMean(config: RebalanceConfig, assets: seq<Symbol>, s: Symbol)
    requires s in assets
  {
    forall l: Ledger, prices: map<Symbol, real>, t: real :: UpsideTrigger(config, assets, l, prices, t, s) ==>
      ValueAfter(config, assets, l, prices, t, s) >= Snapshot(assets, l, prices, t).meanAssetValue
  }

  /** No upside rebalance of asset number i takes it below the pre-trade mean if and only if the asset can trigger none
      at all or (1 - sell percentage) * (1 + threshold) is at least 1. */
  lemma NeverBelowMeanExactly(config: RebalanceConfig, assets: seq<Symbol>, i: nat)
    requires Distinct(assets) && i < |assets|
    requires config.upsideThreshold >= 0.0 && 0.0 <= config.sellPercentage <= 1.0
    ensures NeverBelowMean(config, assets, assets[i]) <==> KeepsMean(config) || !CanTrigger(config, |assets|, i)
  {
    hide UpsideTrigger, ValueAfter, Snapshot, CanTrigger;
    var s := assets[i];
    if KeepsMean(config) || !CanTrigger(config, |assets|, i) {
      forall l: Ledger, prices: map<Symbol, real>, t: real | UpsideTrigger(config, assets, l, prices, t, s)
        ensures ValueAfter(config, assets, l, prices, t, s) >= Snapshot(assets, l, prices, t).meanAssetValue
      {
        TriggerHasRoom(config, assets, l, prices, t, i);
        TriggerIsPast(config, assets, l, prices, t, s);
        UpsideStaysAboveMean(config, assets, l, prices, t, s);
      }
    } else {
      SomeUndershoots(config, assets, i);
    }
  }

  /** Two assets, thresholds of 40% and 35%, half of the position sold: whether the second can be taken below the mean
      depends on the cooldown. */
  lemma SecondOfTwo(config: RebalanceConfig)
    requires config.upsideThreshold == 0.4 && config.downsideThreshold == 0.35 && config.sellPercentage == 0.5
    ensures CanTrigger(config, 2, 1) <==> config.cooldownMinutes > 0.0
    ensures NeverBelowMean(config, ["A", "B"], "B") <==> config.cooldownMinutes <= 0.0
  {
    hide UpsideTrigger, ValueAfter, NeverBelowMean;
    assert Floor(config) == 0.65 && Room(config, 2, 1) == if config.cooldownMinutes > 0.0 then 2.0 else 1.35;
    assert ["A", "B"][1] == "B";
    NeverBelowMeanExactly(config, ["A", "B"], 1);
  }

  lemma TriggerIsPast(
    config: RebalanceConfig, assets: seq<Symbol>, l: Ledger, prices: map<Symbol, real>, timestamp: real, s: Symbol)
    requires UpsideTrigger(config, assets, l, prices, timestamp, s)
    ensures PastThreshold(config, assets, l, prices, timestamp, s)
  {
  }

  lemma SomeUndershoots(config: RebalanceConfig, assets: seq<Symbol>, i: nat)
    requires Distinct(assets) && i < |assets|
    requires config.upsideThreshold >= 0.0 && 0.0 <= config.sellPercentage <= 1.0
    requires !KeepsMean(config) && CanTrigger(config, |assets|, i)
    ensures !NeverBelowMean(config, assets, assets[i])
  {
    hide *;
    SellsSome(config);
    HasRoom(config, |assets|, i);
    var k := Multiple(config.sellPercentage, config.upsideThreshold, Room(config, |assets|, i));
    var before, after := Levels(config, |assets|, i, k);
    var m := Scale(k, config.sellPercentage, config.minOrderValue);
    WitnessUndershoots(config, assets, i, before, k, after, m);
  }

  lemma HasRoom(config: RebalanceConfig, n: nat, i: nat)
    requires !KeepsMean(config) && CanTrigger(config, n, i)
    ensures 1.0 + config.upsideThreshold < Room(config, n, i)
    ensures (1.0 - config.sellPercentage) * (1.0 + config.upsideThreshold) < 1.0
  {
  }

  lemma WitnessUndershoots(
    config: RebalanceConfig, assets: seq<Symbol>, i: nat, before: real, k: real, after: real, m: real)
    requires Distinct(assets) && i < |assets| && m > 0.0 && config.upsideThreshold >= 0.0
    requires before >= 0.0 && after >= 0.0 && k > 1.0 + config.upsideThreshold
    requires Parts(i, before, k, |assets| - 1 - i, after) == |assets| as real
    requires config.cooldownMinutes > 0.0 || i == 0 || Floor(config) <= before <= 1.0 + config.upsideThreshold
    requires 0.0 < config.sellPercentage <= 1.0 && k * (1.0 - config.sellPercentage) < 1.0
    requires config.minOrderValue <= (k * m) * config.sellPercentage
    ensures !NeverBelowMean(config, assets, assets[i])
  {
    hide UpsideTrigger, ValueAfter, Spread, Mean, Ledger.TotalValue, Parts, Floor, StateOf, Ledger.Value, Ones;
    var l := Spread(assets, i, before, k, after, m);
    SpreadMean(assets, i, before, k, after, m);
    SpreadTriggers(config, assets, i, before, k, after, m);
    SpreadUndershoots(config, assets, i, before, k, after, m);
    assert Snapshot(assets, l, Ones(assets), 0.0).meanAssetValue == m;
  }

  lemma SellsSome(config: RebalanceConfig)
    requires !KeepsMean(config) && config.upsideThreshold >= 0.0 && config.sellPercentage >= 0.0
    ensures config.sellPercentage > 0.0
  {
  }

  /** A mean large enough for the sale to reach the minimum order. */
  lemma Scale(k: real, fraction: real, minimum: real) returns (m: real)
    requires k > 0.0 && fraction > 0.0
    ensures m > 0.0 && minimum <= (k * m) * fraction
  {
    var x := k * fraction;
    Positive(k, fraction);
    var q := minimum / x;
    Shared(minimum, x);
    m := Max(1.0, q);
    AtMost(q, m, x);
    assert (k * m) * fraction == m * x;
  }
}
