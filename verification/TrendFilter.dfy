/** The trend filter around the threshold rebalancer. */
module TrendFiltering {
  import opened Sums
  import opened Portfolio
  import opened Rebalancing

  const LOOKBACK: nat := 20
  const SHORT_PERIODS: nat := 5
  const TREND_THRESHOLD: real := 0.03
  const REVERSION_THRESHOLD: real := 0.05

  datatype TrendDirection = Up | Down | Neutral

  datatype TrendMetrics = TrendMetrics(
    hasSufficientData: bool,
    trendStrength: real,
    trendDirection: TrendDirection,
    distanceFromMa: real,
    isMeanReverting: bool)

  datatype TrendStats = TrendStats(totalChecks: nat, trendFiltered: nat, meanReversionAllowed: nat,
                                   insufficientData: nat)

  /** The last n elements, or all of them if there are fewer. */
  function LastN(xs: seq<real>, n: nat): seq<real>
  {
    if |xs| > n then xs[|xs| - n..] else xs
  }

  function Average(xs: seq<real>): real
    requires |xs| > 0
  {
    Sum(xs, (x: real) => x) / |xs| as real
  }

  /** Relative difference, 0 when the base is not positive. */
  function Relative(x: real, base: real): real
  {
    if base > 0.0 then (x - base) / base else 0.0
  }

  /** The price windows after one more set of prices. */
  function Pushed(history: map<Symbol, seq<real>>, prices: map<Symbol, real>): map<Symbol, seq<real>>
  {
    map s | s in history :: if s in prices then LastN(history[s] + [prices[s]], LOOKBACK) else history[s]
  }

  function Metrics(history: map<Symbol, seq<real>>, s: Symbol): TrendMetrics
  {
    if s !in history || |history[s]| < SHORT_PERIODS then TrendMetrics(false, 0.0, Neutral, 0.0, false)
    else
      var prices := history[s];
      var n := |prices|;
      var current := prices[n - 1];
      var long := Average(prices);
      var short := Average(LastN(prices, SHORT_PERIODS));
      var distance := if long > 0.0 then Abs(current - long) / long else 0.0;
      TrendMetrics(
        true,
        if long > 0.0 then Abs(short - long) / long else 0.0,
        if short > long then Up else if short < long then Down else Neutral,
        distance,
        distance < REVERSION_THRESHOLD || Relative(current, prices[n - 3]) * Relative(short, long) < 0.0)
  }

  predicate StrongAgainst(m: TrendMetrics, direction: Direction)
  {
    m.trendStrength > TREND_THRESHOLD
    && ((direction == Upside && m.trendDirection == Up) || (direction == Downside && m.trendDirection == Down))
  }

  predicate Blocks(history: map<Symbol, seq<real>>, t: Trigger)
  {
    var m := Metrics(history, t.symbol);
    m.hasSufficientData && StrongAgainst(m, t.direction)
  }

  function Counted(stats: TrendStats, history: map<Symbol, seq<real>>, t: Trigger): TrendStats
  {
    var m := Metrics(history, t.symbol);
    var checked := stats.(totalChecks := stats.totalChecks + 1);
    if !m.hasSufficientData then checked.(insufficientData := stats.insufficientData + 1)
    else if StrongAgainst(m, t.direction) then checked.(trendFiltered := stats.trendFiltered + 1)
    else if m.isMeanReverting then checked.(meanReversionAllowed := stats.meanReversionAllowed + 1)
    else checked
  }

  function CurrentPrices(st: PortfolioState): map<Symbol, real>
  {
    map s | s in st.assets :: st.assets[s].currentPrice
  }

  /** The base trigger unless the windows that include the current prices block it. */
  function FilteredTrigger(
    config: RebalanceConfig, last: map<Symbol, real>, history: map<Symbol, seq<real>>, st: PortfolioState)
    : (r: Option<Trigger>)
    requires st.WellFormed()
    ensures r == FirstTrigger(config, last, st, 0) || r == None
  {
    var base := FirstTrigger(config, last, st, 0);
    if base.Some? && Blocks(Pushed(history, CurrentPrices(st)), base.value) then None else base
  }

  function FilteredStats(
    config: RebalanceConfig, last: map<Symbol, real>, history: map<Symbol, seq<real>>, stats: TrendStats,
    st: PortfolioState): TrendStats
    requires st.WellFormed()
  {
    var base := FirstTrigger(config, last, st, 0);
    if base.Some? then Counted(stats, Pushed(history, CurrentPrices(st)), base.value) else stats
  }

  // ----- what a block means

  /** The short mean lies more than 3% beyond a positive long mean, in the trigger's direction. */
  ghost predicate StrongTrend(prices: seq<real>, direction: Direction)
    requires |prices| > 0
  {
    var long := Average(prices);
    var short := Average(LastN(prices, SHORT_PERIODS));
    && long > 0.0
    && match direction
       case Upside => short > 1.03 * long
       case Downside => short < 0.97 * long
  }

  /** A trigger is blocked exactly on a strong trend in its direction over at least six prices:
      with five the short mean is the long mean, with fewer there is no verdict. */
  lemma BlockMeansStrongTrend(history: map<Symbol, seq<real>>, t: Trigger)
    ensures Blocks(history, t) <==>
            t.symbol in history && |history[t.symbol]| >= SHORT_PERIODS + 1
            && StrongTrend(history[t.symbol], t.direction)
  {
    if t.symbol in history && |history[t.symbol]| >= SHORT_PERIODS {
      hide Average, Sum;
      var prices := history[t.symbol];
      var long := Average(prices);
      var short := Average(LastN(prices, SHORT_PERIODS));
      if long > 0.0 {
        BeyondThreshold(short - long, long);
        BeyondThreshold(long - short, long);
      }
    }
  }

  lemma BeyondThreshold(d: real, long: real)
    requires long > 0.0
    ensures d / long > TREND_THRESHOLD <==> d > TREND_THRESHOLD * long
  {
    var q := d / long;
    assert q * long == d;
    if q > TREND_THRESHOLD {
      assert (q - TREND_THRESHOLD) * long > 0.0;
    } else {
      assert (TREND_THRESHOLD - q) * long >= 0.0;
    }
  }

  // ----- the same in numbers

  /** The mean of the values. */
  ghost predicate IsMean(xs: seq<real>, mean: real)
  {
    |xs| > 0 && |xs| as real * mean == Sum(xs, (x: real) => x)
  }

  lemma MeanIsAverage(xs: seq<real>, mean: real)
    requires IsMean(xs, mean)
    ensures Average(xs) == mean
  {
    hide Sum;
    var total, n := Sum(xs, (x: real) => x), |xs| as real;
    assert (total / n) * n == total;
    CancelFactor(total / n, mean, n);
    CancelFactor(mean, total / n, n);
  }

  /** A window of five to twenty prices with its mean, and the mean of its last five. */
  ghost predicate Window(prices: seq<real>, long: real, short: real)
  {
    |prices| >= 5 && IsMean(prices, long) && IsMean(prices[|prices| - 5..], short)
  }

  lemma WindowAverages(prices: seq<real>, long: real, short: real)
    requires Window(prices, long, short)
    ensures Average(prices) == long && Average(LastN(prices, SHORT_PERIODS)) == short
  {
    hide Sum, Average;
    MeanIsAverage(prices, long);
    MeanIsAverage(prices[|prices| - 5..], short);
    assert |prices| == 5 ==> prices[0..] == prices;
  }

  /** With fewer than five prices nothing is blocked; with more, exactly on a short mean more than 3% beyond a
      positive long one, upwards against a sale and downwards against a purchase. */
  lemma BlocksExactly(history: map<Symbol, seq<real>>, t: Trigger, long: real, short: real)
    ensures t.symbol !in history || |history[t.symbol]| < 5 ==> !Blocks(history, t)
    ensures t.symbol in history && Window(history[t.symbol], long, short) ==>
      (Blocks(history, t) <==>
        long > 0.0 && if t.direction == Upside then short > 1.03 * long else short < 0.97 * long)
  {
    hide Average, Sum, IsMean, LastN;
    if t.symbol in history && Window(history[t.symbol], long, short) {
      WindowAverages(history[t.symbol], long, short);
      BlockMeansStrongTrend(history, t);
      if |history[t.symbol]| == 5 {
        FiveAreAll(history[t.symbol]);
      }
    }
  }

  lemma FiveAreAll(prices: seq<real>)
    requires |prices| == 5
    ensures LastN(prices, SHORT_PERIODS) == prices
  {
  }

  /** The window that a check sees: the last twenty prices, the current one included. */
  function Current(window: seq<real>, price: real): seq<real>
  {
    var longer := window + [price];
    if |longer| > 20 then longer[|longer| - 20..] else longer
  }

  /** The filtered trigger is the base trigger, unless the window of its asset that includes the current price has at
      least five prices and trends against it. */
  lemma FilteredTriggerExactly(
    config: RebalanceConfig, last: map<Symbol, real>, history: map<Symbol, seq<real>>, st: PortfolioState, long: real,
    short: real)
    requires st.WellFormed() && FirstTrigger(config, last, st, 0).Some?
    requires FirstTrigger(config, last, st, 0).value.symbol in history
    ensures var t := FirstTrigger(config, last, st, 0);
            var window := Current(history[t.value.symbol], st.assets[t.value.symbol].currentPrice);
            var r := FilteredTrigger(config, last, history, st);
            && (r == t || r == None)
            && (|window| < 5 ==> r == t)
            && (Window(window, long, short) ==>
                  (r == None <==>
                    long > 0.0
                    && if t.value.direction == Upside then short > 1.03 * long else short < 0.97 * long))
  {
    hide Window, Blocks, FirstTrigger;
    var t := FirstTrigger(config, last, st, 0).value;
    var pushed := Pushed(history, CurrentPrices(st));
    assert pushed[t.symbol] == Current(history[t.symbol], st.assets[t.symbol].currentPrice);
    BlocksExactly(pushed, t, long, short);
  }

  /** A window counts as mean reverting when its last price is within 5% of a positive mean, when the mean is not
      positive, or when the price moved, since the third last one, against the short mean. */
  lemma MeanRevertingExactly(history: map<Symbol, seq<real>>, s: Symbol, long: real, short: real)
    requires s in history && Window(history[s], long, short)
    ensures var prices := history[s];
            var (now, earlier) := (prices[|prices| - 1], prices[|prices| - 3]);
            && Metrics(history, s).hasSufficientData
            && (Metrics(history, s).isMeanReverting <==>
                  || long <= 0.0
                  || (0.95 * long < now < 1.05 * long)
                  || (earlier > 0.0 && (now - earlier) * (short - long) < 0.0))
  {
    hide Average, Sum, IsMean, LastN, Relative, Window;
    var prices := history[s];
    WindowIsLong(prices, long, short);
    var now, earlier := prices[|prices| - 1], prices[|prices| - 3];
    WindowAverages(prices, long, short);
    if long > 0.0 {
      WithinFraction(Abs(now - long), long);
      AgainstMean(now, earlier, short, long);
    }
  }

  lemma WindowIsLong(prices: seq<real>, long: real, short: real)
    requires Window(prices, long, short)
    ensures |prices| >= 5
  {
  }

  lemma AgainstMean(now: real, earlier: real, short: real, long: real)
    requires long > 0.0
    ensures Relative(now, earlier) * Relative(short, long) < 0.0
       <==> earlier > 0.0 && (now - earlier) * (short - long) < 0.0
  {
    if earlier > 0.0 {
      SignOfProduct(now - earlier, earlier, short - long, long);
    } else {
      NothingTimes(Relative(short, long));
    }
  }

  lemma NothingTimes(x: real)
    ensures 0.0 * x == 0.0
  {
  }

  lemma WithinFraction(d: real, long: real)
    requires long > 0.0
    ensures d / long < REVERSION_THRESHOLD <==> d < 0.05 * long
  {
    var q := d / long;
    assert q * long == d;
    if q < 0.05 {
      assert (0.05 - q) * long > 0.0;
    } else {
      assert (q - 0.05) * long >= 0.0;
    }
  }

  /** Dividing by positive numbers keeps the sign of a product. */
  lemma SignOfProduct(a: real, p: real, b: real, q: real)
    requires p > 0.0 && q > 0.0
    ensures (a / p) * (b / q) < 0.0 <==> a * b < 0.0
  {
    var x, y := a / p, b / q;
    assert x * p == a && y * q == b;
    SameSign(x, p);
    SameSign(y, q);
    Opposite(x, y);
    Opposite(a, b);
  }

  lemma SameSign(x: real, p: real)
    requires p > 0.0
    ensures (x * p > 0.0 <==> x > 0.0) && (x * p < 0.0 <==> x < 0.0)
  {
  }

  lemma Opposite(x: real, y: real)
    ensures x * y < 0.0 <==> (x < 0.0 && y > 0.0) || (x > 0.0 && y < 0.0)
  {
  }

  /** What a check adds to the counters. */
  lemma CountedExactly(stats: TrendStats, history: map<Symbol, seq<real>>, t: Trigger)
    ensures var r := Counted(stats, history, t);
            var known := t.symbol in history && |history[t.symbol]| >= 5;
            && r.totalChecks == stats.totalChecks + 1
            && r.insufficientData == stats.insufficientData + (if known then 0 else 1)
            && r.trendFiltered == stats.trendFiltered + (if Blocks(history, t) then 1 else 0)
            && r.meanReversionAllowed
               == stats.meanReversionAllowed
                  + if known && !Blocks(history, t) && Metrics(history, t.symbol).isMeanReverting then 1 else 0
  {
    hide Average;
  }

  /** A rebalance that nothing triggers is not counted; any other is counted once, by what became of it and by the
      window that includes the current price. */
  lemma FilteredStatsExactly(
    config: RebalanceConfig, last: map<Symbol, real>, history: map<Symbol, seq<real>>, stats: TrendStats,
    st: PortfolioState)
    requires st.WellFormed()
    ensures var base := FirstTrigger(config, last, st, 0);
            var r := FilteredStats(config, last, history, stats, st);
            if base.None? then r == stats
            else
              && r.totalChecks == stats.totalChecks + 1
              && r.trendFiltered
                 == stats.trendFiltered + (if FilteredTrigger(config, last, history, st) == None then 1 else 0)
              && (base.value.symbol in history ==>
                    r.insufficientData
                    == stats.insufficientData
                       + if |Current(history[base.value.symbol], st.assets[base.value.symbol].currentPrice)| < 5 then 1
                         else 0)
  {
    hide FirstTrigger, Metrics, StrongAgainst;
    var base := FirstTrigger(config, last, st, 0);
    if base.Some? {
      var pushed := Pushed(history, CurrentPrices(st));
      CountedExactly(stats, pushed, base.value);
      assert base.value.symbol in history ==>
        pushed[base.value.symbol]
          == Current(history[base.value.symbol], st.assets[base.value.symbol].currentPrice);
    }
  }

  // ----- windows and counters over whole runs

  /** Prices of one asset along a run, skipping the steps that do not price it. */
  function PricesOf(ticks: seq<map<Symbol, real>>, s: Symbol): seq<real>
  {
    if |ticks| == 0 then []
    else
      var n := |ticks| - 1;
      PricesOf(ticks[..n], s) + if s in ticks[n] then [ticks[n][s]] else []
  }

  function PushedAll(history: map<Symbol, seq<real>>, ticks: seq<map<Symbol, real>>): map<Symbol, seq<real>>
  {
    if |ticks| == 0 then history
    else Pushed(PushedAll(history, ticks[..|ticks| - 1]), ticks[|ticks| - 1])
  }

  lemma LastNOfLastN(xs: seq<real>, x: real, n: nat)
    requires n > 0
    ensures LastN(LastN(xs, n) + [x], n) == LastN(xs + [x], n)
  {
  }

  /** After any run each window is exactly the asset's last 20 prices, or all of them if fewer. */
  lemma {:induction false} WindowIsLastTwenty(assets: seq<Symbol>, ticks: seq<map<Symbol, real>>, s: Symbol)
    requires s in assets
    ensures var h := PushedAll(map a | a in assets :: [], ticks);
            var prices := PricesOf(ticks, s);
            s in h && h[s] == if |prices| > 20 then prices[|prices| - 20..] else prices
  {
    if |ticks| == 0 {
    } else {
      var n := |ticks| - 1;
      WindowIsLastTwenty(assets, ticks[..n], s);
      if s in ticks[n] {
        LastNOfLastN(PricesOf(ticks[..n], s), ticks[n][s], LOOKBACK);
      }
    }
  }

  /** Every check is counted once, and has at most one of the three outcomes. */
  ghost predicate CountersAgree(stats: TrendStats)
  {
    stats.trendFiltered + stats.meanReversionAllowed + stats.insufficientData <= stats.totalChecks
  }

  class TrendFilteredRebalancer {
    const base: ThresholdCascadeRebalancer
    var priceHistory: map<Symbol, seq<real>>
    var stats: TrendStats

    ghost predicate Valid()
      reads this, base, base.tracker
    {
      base.Valid() && CountersAgree(stats)
    }

    constructor (base: ThresholdCascadeRebalancer)
      requires base.Valid()
      ensures Valid() && this.base == base
      ensures priceHistory == (map s | s in base.assets :: []) && stats == TrendStats(0, 0, 0, 0)
    {
      this.base := base;
      priceHistory := map s | s in base.assets :: [];
      stats := TrendStats(0, 0, 0, 0);
    }

    method AppendPrice(window: seq<real>, price: real) returns (longer: seq<real>)
      ensures longer == LastN(window + [price], LOOKBACK)
    {
      longer := window + [price];
      if |longer| > LOOKBACK {
        longer := longer[|longer| - LOOKBACK..];
      }
    }

    method UpdatePriceHistory(symbols: seq<Symbol>, prices: map<Symbol, real>)
      requires Distinct(symbols) && forall s :: s in symbols <==> s in prices
      modifies this`priceHistory
      ensures priceHistory == Pushed(old(priceHistory), prices)
    {
      hide LastN;
      for i := 0 to |symbols|
        invariant priceHistory.Keys == old(priceHistory).Keys
        invariant forall s :: s in priceHistory && s !in symbols[..i] ==> priceHistory[s] == old(priceHistory)[s]
        invariant forall s :: s in priceHistory && s in symbols[..i] ==>
                    priceHistory[s] == LastN(old(priceHistory)[s] + [prices[s]], LOOKBACK)
      {
        var asset := symbols[i];
        assert asset !in symbols[..i];
        assert symbols[..i + 1] == symbols[..i] + [asset];
        if asset in priceHistory {
          var window := AppendPrice(priceHistory[asset], prices[asset]);
          priceHistory := priceHistory[asset := window];
        }
      }
    }

    method ShouldAllowRebalance(t: Trigger) returns (allowed: bool)
      requires CountersAgree(stats)
      modifies this`stats
      ensures allowed == !Blocks(priceHistory, t)
      ensures stats == Counted(old(stats), priceHistory, t) && CountersAgree(stats)
    {
      hide Average;
      stats := stats.(totalChecks := stats.totalChecks + 1);
      var m := Metrics(priceHistory, t.symbol);
      if !m.hasSufficientData {
        stats := stats.(insufficientData := stats.insufficientData + 1);
        return true;
      }
      if m.trendStrength > TREND_THRESHOLD {
        if t.direction == Upside && m.trendDirection == Up {
          stats := stats.(trendFiltered := stats.trendFiltered + 1);
          return false;
        } else if t.direction == Downside && m.trendDirection == Down {
          stats := stats.(trendFiltered := stats.trendFiltered + 1);
          return false;
        }
      }
      if m.isMeanReverting {
        stats := stats.(meanReversionAllowed := stats.meanReversionAllowed + 1);
        return true;
      }
      return true;
    }

    method CheckRebalanceNeeded(state: PortfolioState) returns (t: Option<Trigger>)
      requires Valid() && state.WellFormed() && Distinct(state.symbols)
      modifies this
      ensures Valid()
      ensures t == FilteredTrigger(base.config, base.tracker.lastRebalance, old(priceHistory), state)
      ensures priceHistory == Pushed(old(priceHistory), CurrentPrices(state))
      ensures stats == FilteredStats(base.config, base.tracker.lastRebalance, old(priceHistory), old(stats), state)
    {
      UpdatePriceHistory(state.symbols, CurrentPrices(state));
      t := base.CheckRebalanceNeeded(state);
      if t.None? {
        return None;
      }
      var allowed := ShouldAllowRebalance(t.value);
      if !allowed {
        return None;
      }
    }

    /** Inherited rebalance step, driven by the filtered trigger. */
    method ExecuteRebalance(state: PortfolioState, prices: map<Symbol, real>) returns (event: Option<RebalanceEvent>)
      requires Valid() && Tradable(state) && Distinct(state.symbols)
      modifies this, base`rebalanceHistory, base.tracker
      ensures Valid()
      ensures (base.tracker.Book(), event)
           == Rebalanced(base.config, base.assets, old(base.tracker.Book()), state, prices,
                FilteredTrigger(base.config, old(base.tracker.lastRebalance), old(priceHistory), state))
      ensures base.Recorded(old(base.tracker.portfolioHistory), old(base.rebalanceHistory), event)
      ensures priceHistory == Pushed(old(priceHistory), CurrentPrices(state))
      ensures stats == FilteredStats(base.config, old(base.tracker.lastRebalance), old(priceHistory), old(stats), state)
    {
      var trigger := CheckRebalanceNeeded(state);
      if trigger.None? {
        return None;
      }
      event := base.ExecuteTrigger(state, prices, trigger.value);
    }
  }
}
