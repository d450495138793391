/** Two drawdown figures: the AMIA one, exact, and the portfolio tracker's, which ignores the order
    of peak and trough. */
module Drawdown {
  import opened Sums
  import opened Portfolio
  import opened PortfolioTracking

  /** Relative change from a to b. */
  function Change(a: real, b: real): real
    requires a != 0.0
  {
    (b - a) / a
  }

  /** Running maximum, as `np.maximum.accumulate` computes it. */
  function RunningPeak(xs: seq<real>): (r: seq<real>)
    ensures |r| == |xs|
  {
    if |xs| == 0 then []
    else
      var n := |xs| - 1;
      var before := RunningPeak(xs[..n]);
      before + [if n == 0 then xs[n] else Max(before[n - 1], xs[n])]
  }

  function MinOf(ds: seq<real>): real
    requires |ds| > 0
  {
    if |ds| == 1 then ds[0] else Min(MinOf(ds[..|ds| - 1]), ds[|ds| - 1])
  }

  ghost predicate Positive(xs: seq<real>)
  {
    forall i :: 0 <= i < |xs| ==> xs[i] > 0.0
  }

  /** Every running peak is the value at some earlier or equal position, and bounds all of them. */
  lemma {:induction false} PeakAttained(xs: seq<real>, j: nat)
    requires j < |xs|
    ensures exists i :: 0 <= i <= j && RunningPeak(xs)[j] == xs[i]
    ensures forall i :: 0 <= i <= j ==> xs[i] <= RunningPeak(xs)[j]
    decreases |xs|
  {
    var n := |xs| - 1;
    if j < n {
      PeakAttained(xs[..n], j);
      var i :| 0 <= i <= j && RunningPeak(xs[..n])[j] == xs[..n][i];
      assert RunningPeak(xs)[j] == xs[i];
      forall i | 0 <= i <= j
        ensures xs[i] <= RunningPeak(xs)[j]
      {
        assert xs[i] == xs[..n][i];
      }
    } else if n > 0 {
      PeakAttained(xs[..n], n - 1);
      var p := RunningPeak(xs)[n];
      var i :| 0 <= i <= n - 1 && RunningPeak(xs[..n])[n - 1] == xs[..n][i];
      assert p == xs[i] || p == xs[n];
      forall i | 0 <= i <= n
        ensures xs[i] <= p
      {
        assert i < n ==> xs[i] == xs[..n][i];
      }
    } else {
      assert RunningPeak(xs)[0] == xs[0];
    }
  }

  lemma PeaksPositive(xs: seq<real>)
    requires Positive(xs)
    ensures Positive(RunningPeak(xs))
  {
    forall j | 0 <= j < |xs|
      ensures RunningPeak(xs)[j] > 0.0
    {
      PeakAttained(xs, j);
    }
  }

  function Drawdowns(xs: seq<real>): (r: seq<real>)
    requires Positive(xs)
    ensures |r| == |xs|
  {
    PeaksPositive(xs);
    seq(|xs|, j requires 0 <= j < |xs| => Change(RunningPeak(xs)[j], xs[j]))
  }

  /** The AMIA figure: the lowest relative distance below the running peak. */
  function MaxDrawdown(xs: seq<real>): real
    requires |xs| > 0 && Positive(xs)
  {
    MinOf(Drawdowns(xs))
  }

  lemma {:induction false} MinOfIsLeast(ds: seq<real>)
    requires |ds| > 0
    ensures exists k :: 0 <= k < |ds| && MinOf(ds) == ds[k]
    ensures forall k :: 0 <= k < |ds| ==> MinOf(ds) <= ds[k]
  {
    var n := |ds| - 1;
    if n > 0 {
      MinOfIsLeast(ds[..n]);
      var k :| 0 <= k < n && MinOf(ds[..n]) == ds[..n][k];
      assert MinOf(ds) == if MinOf(ds[..n]) <= ds[n] then ds[k] else ds[n];
      forall k | 0 <= k < |ds|
        ensures MinOf(ds) <= ds[k]
      {
        assert k < n ==> ds[k] == ds[..n][k];
      }
    } else {
      assert MinOf(ds) == ds[0];
    }
  }

  lemma CancelEqual(x: real, y: real, a: real)
    requires a != 0.0 && x * a == y * a
    ensures x == y
  {
    assert (x - y) * a == 0.0;
  }

  lemma ChangeIsRatio(a: real, b: real)
    requires a != 0.0
    ensures Change(a, b) == b / a - 1.0
    ensures (b / a) * a == b
  {
    var q, x := (b - a) / a, b / a;
    assert q * a == b - a && x * a == b;
    assert (q + 1.0) * a == q * a + a;
    CancelEqual(q + 1.0, x, a);
  }

  /** For non-negative b, measuring from a higher start and to a lower end is a worse change. */
  lemma ChangeMonotone(a: real, b: real, peak: real, low: real)
    requires 0.0 < a <= peak && low <= b && b >= 0.0
    ensures Change(peak, low) <= Change(a, b)
  {
    var x, y := b / a, low / peak;
    hide Change;
    ChangeIsRatio(a, b);
    ChangeIsRatio(peak, low);
    assert x >= 0.0 by {
      CancelFactor(0.0, x, a);
    }
    assert x * (peak - a) >= 0.0;
    CancelFactor(y, x, peak);
  }

  /** The AMIA drawdown is exactly the worst relative change from any point to any later point. */
  lemma DrawdownIsWorstChange(xs: seq<real>)
    requires |xs| > 0 && Positive(xs)
    ensures forall i, j :: 0 <= i <= j < |xs| ==> MaxDrawdown(xs) <= Change(xs[i], xs[j])
    ensures exists i, j :: 0 <= i <= j < |xs| && MaxDrawdown(xs) == Change(xs[i], xs[j])
  {
    hide Change;
    MinOfIsLeast(Drawdowns(xs));
    PeaksPositive(xs);
    forall i, j | 0 <= i <= j < |xs|
      ensures MaxDrawdown(xs) <= Change(xs[i], xs[j])
    {
      PeakAttained(xs, j);
      ChangeMonotone(xs[i], xs[j], RunningPeak(xs)[j], xs[j]);
      assert MaxDrawdown(xs) <= Drawdowns(xs)[j];
    }
    var k :| 0 <= k < |xs| && MaxDrawdown(xs) == Drawdowns(xs)[k];
    PeakAttained(xs, k);
    var i :| 0 <= i <= k && RunningPeak(xs)[k] == xs[i];
    assert MaxDrawdown(xs) == Change(xs[i], xs[k]);
  }

  // ----- the tracker's figure

  /** The recorded total values, with the initial capital in front. */
  function Values(capital: real, history: seq<PortfolioState>): (r: seq<real>)
    ensures |r| == |history| + 1 && r[0] == capital
    ensures forall i :: 0 <= i < |history| ==> r[i + 1] == history[i].totalValue
  {
    if |history| == 0 then [capital]
    else Values(capital, history[..|history| - 1]) + [history[|history| - 1].totalValue]
  }

  lemma {:induction false} PeakAndTrough(capital: real, history: seq<PortfolioState>)
    ensures var xs := Values(capital, history);
            && (forall i :: 0 <= i < |xs| ==> Trough(capital, history) <= xs[i] <= Peak(capital, history))
            && (exists i :: 0 <= i < |xs| && xs[i] == Peak(capital, history))
            && (exists i :: 0 <= i < |xs| && xs[i] == Trough(capital, history))
  {
    var xs := Values(capital, history);
    if |history| == 0 {
      assert xs[0] == Peak(capital, history) == Trough(capital, history);
    } else {
      var n := |history| - 1;
      var ys := Values(capital, history[..n]);
      PeakAndTrough(capital, history[..n]);
      assert forall i :: 0 <= i < |ys| ==> xs[i] == ys[i];
      assert xs[n + 1] == history[n].totalValue;
      var p :| 0 <= p < |ys| && ys[p] == Peak(capital, history[..n]);
      var q :| 0 <= q < |ys| && ys[q] == Trough(capital, history[..n]);
      assert xs[p] == ys[p] && xs[q] == ys[q];
    }
  }

  /** The figure the tracker reports for a recorded history. */
  function Reported(capital: real, history: seq<PortfolioState>): real
    requires Peak(capital, history) > 0.0
  {
    Change(Peak(capital, history), Trough(capital, history))
  }

  /** The running peak and trough fields give exactly that figure. */
  lemma TrackerReports(t: PortfolioTracker)
    requires t.Valid() && t.peakValue > 0.0
    ensures t.MaxDrawdown() == Reported(t.initialCapital, t.portfolioHistory)
  {
  }

  /** The tracker never understates a loss: its figure is at or below the change between any two
      recorded values, whatever their order. */
  lemma ReportedNeverUnderstates(capital: real, history: seq<PortfolioState>, i: nat, j: nat)
    requires capital > 0.0
    requires var xs := Values(capital, history);
             i < |xs| && j < |xs| && xs[i] > 0.0 && xs[j] >= 0.0
    ensures Peak(capital, history) > 0.0
    ensures Reported(capital, history) <= Change(Values(capital, history)[i], Values(capital, history)[j])
  {
    hide Change;
    PeakAndTrough(capital, history);
    var xs := Values(capital, history);
    assert xs[0] <= Peak(capital, history);
    ChangeMonotone(xs[i], xs[j], Peak(capital, history), Trough(capital, history));
  }

  /** The tracker's figure is the true drawdown exactly when some peak is not later than some trough. */
  lemma ReportedIsExact(capital: real, history: seq<PortfolioState>)
    requires Positive(Values(capital, history))
    ensures Peak(capital, history) > 0.0
    ensures var xs := Values(capital, history);
            Reported(capital, history) == MaxDrawdown(xs)
            <==> exists i, j :: 0 <= i <= j < |xs|
                   && xs[i] == Peak(capital, history) && xs[j] == Trough(capital, history)
  {
    hide Change, MaxDrawdown;
    var xs := Values(capital, history);
    var peak, trough := Peak(capital, history), Trough(capital, history);
    PeakAndTrough(capital, history);
    assert xs[0] <= peak;
    DrawdownIsWorstChange(xs);
    var i, j :| 0 <= i <= j < |xs| && MaxDrawdown(xs) == Change(xs[i], xs[j]);
    ReportedNeverUnderstates(capital, history, i, j);
    if Reported(capital, history) == MaxDrawdown(xs) {
      EqualChange(xs[i], xs[j], peak, trough);
    }
  }

  lemma EqualChange(a: real, b: real, peak: real, low: real)
    requires 0.0 < a <= peak && 0.0 < low <= b && Change(peak, low) == Change(a, b)
    ensures a == peak && b == low
  {
    var x, y := b / a, low / peak;
    hide Change;
    ChangeIsRatio(a, b);
    ChangeIsRatio(peak, low);
    assert x == y && x > 0.0;
    assert x * (peak - a) >= 0.0;
    assert b == low;
    assert x * (peak - a) == 0.0;
  }

  /** A portfolio that only ever rises, from 100 to 200, is reported with a 50% drawdown. */
  lemma RisingPortfolioReportsLoss(st: PortfolioState)
    requires st.totalValue == 200.0
    ensures Peak(100.0, [st]) > 0.0 && Reported(100.0, [st]) == -0.5
    ensures Values(100.0, [st]) == [100.0, 200.0] && MaxDrawdown([100.0, 200.0]) == 0.0
  {
    assert [st][..0] == [];
    assert Values(100.0, [st][..0]) == [100.0];
    assert Peak(100.0, [st][..0]) == 100.0 && Trough(100.0, [st][..0]) == 100.0;
    var xs := [100.0, 200.0];
    assert xs[..1] == [100.0];
    assert RunningPeak(xs[..1]) == [100.0];
    assert RunningPeak(xs) == xs;
    assert Drawdowns(xs) == [0.0, 0.0];
    assert Drawdowns(xs)[..1] == [0.0];
  }
}
