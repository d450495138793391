/** Which asset triggers a rebalance, in stamps, values and configuration alone. */
module TriggerLaws {
  import opened Sums
  import opened Portfolio
  import opened Rebalancing
  import opened UpsideLaws
  import opened TwoAssetExample

  /** The asset was traded less than the cooldown ago, which is given in minutes while times are in seconds. */
  predicate Resting(config: RebalanceConfig, last: map<Symbol, real>, s: Symbol, now: real)
  {
    s in last && now < last[s] + 60.0 * config.cooldownMinutes
  }

  /** The asset is worth more than (1 + upside threshold) times the mean; a mean that is not positive counts as no
      deviation. */
  predicate Above(config: RebalanceConfig, st: PortfolioState, s: Symbol)
    requires s in st.assets
  {
    if st.meanAssetValue > 0.0 then st.assets[s].valueUsdt > (1.0 + config.upsideThreshold) * st.meanAssetValue
    else config.upsideThreshold < 0.0
  }

  /** The asset is worth less than (1 - downside threshold) times the mean. */
  predicate Below(config: RebalanceConfig, st: PortfolioState, s: Symbol)
    requires s in st.assets
  {
    if st.meanAssetValue > 0.0 then st.assets[s].valueUsdt < (1.0 - config.downsideThreshold) * st.meanAssetValue
    else config.downsideThreshold < 0.0
  }

  /** Nothing to do about the asset. */
  predicate Quiet(config: RebalanceConfig, last: map<Symbol, real>, st: PortfolioState, s: Symbol)
    requires s in st.assets
  {
    Resting(config, last, s, st.timestamp) || (!Above(config, st, s) && !Below(config, st, s))
  }

  /** The deviation from a positive mean, as a fraction of it. */
  ghost predicate IsDeviation(st: PortfolioState, s: Symbol, deviation: real)
    requires s in st.assets
  {
    if st.meanAssetValue > 0.0 then deviation * st.meanAssetValue == st.assets[s].valueUsdt - st.meanAssetValue
    else deviation == 0.0
  }

  lemma BelowThreshold(st: PortfolioState, s: Symbol, threshold: real)
    requires s in st.assets && st.meanAssetValue > 0.0
    ensures st.Deviation(s) < -threshold <==> st.assets[s].valueUsdt < (1.0 - threshold) * st.meanAssetValue
  {
    var d, m := st.Deviation(s), st.meanAssetValue;
    assert d * m == st.assets[s].valueUsdt - m;
    if d < -threshold {
      Larger(-threshold, d, m);
    } else {
      AtMost(-threshold, d, m);
    }
  }

  lemma DeviationIs(st: PortfolioState, s: Symbol)
    requires s in st.assets
    ensures IsDeviation(st, s, st.Deviation(s))
  {
  }

  /** One asset: it triggers exactly when it is not quiet, upside first. */
  lemma TriggerOfExactly(config: RebalanceConfig, last: map<Symbol, real>, st: PortfolioState, s: Symbol)
    requires s in st.assets
    ensures var t := TriggerOf(config, last, st, s);
            && (t.None? <==> Quiet(config, last, st, s))
            && (t.Some? ==>
                  && t.value.symbol == s && IsDeviation(st, s, t.value.deviation)
                  && (t.value.direction == Upside <==> Above(config, st, s)))
  {
    hide PortfolioState.Deviation;
    DeviationIs(st, s);
    if st.meanAssetValue > 0.0 {
      DeviationMeans(st, s, config.upsideThreshold);
      BelowThreshold(st, s, config.downsideThreshold);
    } else {
      NoDeviation(st, s);
    }
  }

  lemma NoDeviation(st: PortfolioState, s: Symbol)
    requires s in st.assets && st.meanAssetValue <= 0.0
    ensures st.Deviation(s) == 0.0
  {
  }

  /** Asset number k is the first that is not quiet, and t says so. */
  ghost predicate IsFirst(
    config: RebalanceConfig, last: map<Symbol, real>, st: PortfolioState, i: nat, k: nat, t: Trigger)
    requires st.WellFormed()
  {
    && i <= k < |st.symbols| && !Quiet(config, last, st, st.symbols[k])
    && (forall j :: i <= j < k ==> Quiet(config, last, st, st.symbols[j]))
    && t.symbol == st.symbols[k] && IsDeviation(st, st.symbols[k], t.deviation)
    && (t.direction == Upside <==> Above(config, st, st.symbols[k]))
  }

  /** There is no trigger exactly when every asset was traded less than the cooldown ago or is worth between
      (1 - downside threshold) and (1 + upside threshold) times the mean; otherwise the trigger is the first asset of
      which neither holds. */
  lemma {:induction false} FirstTriggerExactly(
    config: RebalanceConfig, last: map<Symbol, real>, st: PortfolioState, i: nat)
    requires i <= |st.symbols| && st.WellFormed()
    ensures var t := FirstTrigger(config, last, st, i);
            && (t.None? <==> forall j :: i <= j < |st.symbols| ==> Quiet(config, last, st, st.symbols[j]))
            && (t.Some? ==> exists k :: IsFirst(config, last, st, i, k, t.value))
    decreases |st.symbols| - i
  {
    if i < |st.symbols| {
      hide Quiet, Above, TriggerOf, IsDeviation;
      TriggerOfExactly(config, last, st, st.symbols[i]);
      FirstTriggerExactly(config, last, st, i + 1);
      var t := FirstTrigger(config, last, st, i);
      if TriggerOf(config, last, st, st.symbols[i]).Some? {
        assert IsFirst(config, last, st, i, i, t.value);
      } else if t.Some? {
        var k :| IsFirst(config, last, st, i + 1, k, t.value);
        assert IsFirst(config, last, st, i, k, t.value);
      }
    }
  }

  /** A cooldown of 30 minutes ends 1800 seconds after the trade: then the asset triggers, a second before it does not
      and the next one does. */
  lemma CooldownEndsOnTime(config: RebalanceConfig)
    requires config.cooldownMinutes == 30.0 && config.upsideThreshold == 0.4 && config.downsideThreshold == 0.35
    ensures Tradable(State())
    ensures FirstTrigger(config, map["A" := -1800.0], State(), 0) == Some(Trigger("A", -0.5, Downside))
    ensures FirstTrigger(config, map["A" := -1799.0], State(), 0) == Some(Trigger("B", 0.5, Upside))
  {
    StateIs();
    hide Snapshot, Mean;
    assert State().Deviation("A") == -0.5 && State().Deviation("B") == 0.5;
  }
}
