/** The signal timing filter: after a kept signal every signal closer than the minimum gap is dropped. */
module TimingFilter {
  import opened Sums

  /** The filtered signals and the time of the last signal kept so far. */
  datatype Outcome = Outcome(entry: seq<bool>, exit: seq<bool>, last: Option<real>)

  predicate TooClose(t: real, last: Option<real>, gap: real)
  {
    last.Some? && t - last.value < gap
  }

  predicate SameLength(times: seq<real>, entry: seq<bool>, exit: seq<bool>)
  {
    |times| == |entry| == |exit|
  }

  predicate Signalled(entry: seq<bool>, exit: seq<bool>, i: nat)
    requires i < |entry| == |exit|
  {
    entry[i] || exit[i]
  }

  /** One more row after the rows already filtered. */
  function FilterRow(done: Outcome, t: real, entry: bool, exit: bool, gap: real): Outcome
  {
    if TooClose(t, done.last, gap) then Outcome(done.entry + [false], done.exit + [false], done.last)
    else Outcome(done.entry + [entry], done.exit + [exit], if entry || exit then Some(t) else done.last)
  }

  function Filtered(times: seq<real>, entry: seq<bool>, exit: seq<bool>, last: Option<real>, gap: real): (r: Outcome)
    requires SameLength(times, entry, exit)
    ensures SameLength(times, r.entry, r.exit)
  {
    if |times| == 0 then Outcome([], [], last)
    else
      var n := |times| - 1;
      FilterRow(Filtered(times[..n], entry[..n], exit[..n], last, gap), times[n], entry[n], exit[n], gap)
  }

  class AMIASignalGenerator {
    const signalMinGapSeconds: real
    var lastSignalTime: Option<real>

    constructor (signalMinGapSeconds: real)
      ensures this.signalMinGapSeconds == signalMinGapSeconds && lastSignalTime == None
    {
      this.signalMinGapSeconds, lastSignalTime := signalMinGapSeconds, None;
    }

    /** Filters copies of both series; without a timestamp column nothing is filtered. */
    method ApplyTimingFilters(timestamps: Option<seq<real>>, entry: seq<bool>, exit: seq<bool>)
      returns (filteredEntry: seq<bool>, filteredExit: seq<bool>)
      requires timestamps.Some? ==> SameLength(timestamps.value, entry, exit)
      modifies this
      ensures timestamps.None? ==>
        filteredEntry == entry && filteredExit == exit && lastSignalTime == old(lastSignalTime)
      ensures timestamps.Some? ==>
        Outcome(filteredEntry, filteredExit, lastSignalTime)
          == Filtered(timestamps.value, entry, exit, old(lastSignalTime), signalMinGapSeconds)
    {
      if timestamps.None? {
        return entry, exit;
      }
      filteredEntry, filteredExit := FilterSignals(timestamps.value, entry, exit);
    }

    /** The filtering loop over both copies. */
    method FilterSignals(times: seq<real>, entry: seq<bool>, exit: seq<bool>)
      returns (filteredEntry: seq<bool>, filteredExit: seq<bool>)
      requires SameLength(times, entry, exit)
      modifies this
      ensures Outcome(filteredEntry, filteredExit, lastSignalTime)
        == Filtered(times, entry, exit, old(lastSignalTime), signalMinGapSeconds)
    {
      hide Filtered, FilterRow;
      filteredEntry, filteredExit := entry, exit;
      var last := lastSignalTime;
      NothingFiltered(times, entry, exit, last, signalMinGapSeconds);
      for i := 0 to |times|
        invariant last == lastSignalTime
        invariant PartlyFiltered(times, entry, exit, filteredEntry, filteredExit, old(lastSignalTime), last,
                                 signalMinGapSeconds, i)
      {
        var close := last.Some? && times[i] - last.value < signalMinGapSeconds;
        NextFiltered(times, entry, exit, filteredEntry, filteredExit, old(lastSignalTime), last, signalMinGapSeconds,
                     i);
        if close {
          filteredEntry := filteredEntry[i := false];
          filteredExit := filteredExit[i := false];
        } else if filteredEntry[i] || filteredExit[i] {
          last := Some(times[i]);
          lastSignalTime := Some(times[i]);
        }
      }
      AllFiltered(times, entry, exit, filteredEntry, filteredExit, old(lastSignalTime), last, signalMinGapSeconds);
    }
  }

  /** The first i rows of both copies are filtered, the others untouched. */
  ghost predicate PartlyFiltered(
    times: seq<real>, entry: seq<bool>, exit: seq<bool>, e: seq<bool>, x: seq<bool>, start: Option<real>,
    last: Option<real>, gap: real, i: nat)
    requires SameLength(times, entry, exit)
  {
    && SameLength(times, e, x) && i <= |times|
    && Outcome(e[..i], x[..i], last) == Filtered(times[..i], entry[..i], exit[..i], start, gap)
    && forall k :: i <= k < |times| ==> e[k] == entry[k] && x[k] == exit[k]
  }

  lemma NothingFiltered(times: seq<real>, entry: seq<bool>, exit: seq<bool>, start: Option<real>, gap: real)
    requires SameLength(times, entry, exit)
    ensures PartlyFiltered(times, entry, exit, entry, exit, start, start, gap, 0)
  {
  }

  lemma NextFiltered(
    times: seq<real>, entry: seq<bool>, exit: seq<bool>, e: seq<bool>, x: seq<bool>, start: Option<real>,
    last: Option<real>, gap: real, i: nat)
    requires SameLength(times, entry, exit) && i < |times|
    requires PartlyFiltered(times, entry, exit, e, x, start, last, gap, i)
    ensures if TooClose(times[i], last, gap)
            then PartlyFiltered(times, entry, exit, e[i := false], x[i := false], start, last, gap, i + 1)
            else PartlyFiltered(times, entry, exit, e, x, start, if e[i] || x[i] then Some(times[i]) else last, gap,
                                i + 1)
  {
    hide Filtered;
    FilteredSnoc(times[..i], entry[..i], exit[..i], times[i], entry[i], exit[i], start, gap);
    assert times[..i + 1] == times[..i] + [times[i]];
    assert entry[..i + 1] == entry[..i] + [entry[i]] && exit[..i + 1] == exit[..i] + [exit[i]];
    assert e[..i + 1] == e[..i] + [e[i]] && x[..i + 1] == x[..i] + [x[i]];
    assert e[i := false][..i + 1] == e[..i] + [false] && x[i := false][..i + 1] == x[..i] + [false];
  }

  lemma AllFiltered(
    times: seq<real>, entry: seq<bool>, exit: seq<bool>, e: seq<bool>, x: seq<bool>, start: Option<real>,
    last: Option<real>, gap: real)
    requires SameLength(times, entry, exit) && PartlyFiltered(times, entry, exit, e, x, start, last, gap, |times|)
    ensures Outcome(e, x, last) == Filtered(times, entry, exit, start, gap)
  {
    hide Filtered;
    var n := |times|;
    assert times[..n] == times && entry[..n] == entry && exit[..n] == exit && e[..n] == e && x[..n] == x;
  }

  lemma RowAppends(done: Outcome, t: real, entry: bool, exit: bool, gap: real, n: nat)
    requires n <= |done.entry| && n <= |done.exit|
    ensures var row := FilterRow(done, t, entry, exit, gap);
            && |row.entry| == |done.entry| + 1 && row.entry[..n] == done.entry[..n]
            && |row.exit| == |done.exit| + 1 && row.exit[..n] == done.exit[..n]
  {
  }

  /** Filtering a prefix gives a prefix of the result. */
  lemma {:induction false} FilteredPrefix(
    times: seq<real>, entry: seq<bool>, exit: seq<bool>, last: Option<real>, gap: real, n: nat)
    requires SameLength(times, entry, exit) && n <= |times|
    ensures Filtered(times[..n], entry[..n], exit[..n], last, gap).entry
      == Filtered(times, entry, exit, last, gap).entry[..n]
    ensures Filtered(times[..n], entry[..n], exit[..n], last, gap).exit
      == Filtered(times, entry, exit, last, gap).exit[..n]
  {
    hide FilterRow, TooClose;
    if n == |times| {
      assert times[..n] == times && entry[..n] == entry && exit[..n] == exit;
    } else {
      var m := |times| - 1;
      FilteredPrefix(times[..m], entry[..m], exit[..m], last, gap, n);
      RowAppends(Filtered(times[..m], entry[..m], exit[..m], last, gap), times[m], entry[m], exit[m], gap, n);
      assert times[..m][..n] == times[..n] && entry[..m][..n] == entry[..n] && exit[..m][..n] == exit[..n];
    }
  }

  lemma FilteredSnoc(
    times: seq<real>, entry: seq<bool>, exit: seq<bool>, t: real, e: bool, x: bool, last: Option<real>, gap: real)
    requires SameLength(times, entry, exit)
    ensures Filtered(times + [t], entry + [e], exit + [x], last, gap)
      == FilterRow(Filtered(times, entry, exit, last, gap), t, e, x, gap)
  {
    var n := |times|;
    assert (times + [t])[..n] == times && (entry + [e])[..n] == entry && (exit + [x])[..n] == exit;
  }

  /** Two series filtered one after the other, the last signal time carried over, are filtered as one. */
  lemma {:induction false} FilteredInParts(
    t: seq<real>, e: seq<bool>, x: seq<bool>, t': seq<real>, e': seq<bool>, x': seq<bool>, last: Option<real>,
    gap: real)
    requires SameLength(t, e, x) && SameLength(t', e', x')
    ensures var first := Filtered(t, e, x, last, gap);
            var second := Filtered(t', e', x', first.last, gap);
            Filtered(t + t', e + e', x + x', last, gap)
              == Outcome(first.entry + second.entry, first.exit + second.exit, second.last)
  {
    hide Filtered, FilterRow, TooClose;
    if |t'| == 0 {
      NothingInParts(t, e, x, t', e', x', last, gap);
    } else {
      var m := |t'| - 1;
      FilteredInParts(t, e, x, t'[..m], e'[..m], x'[..m], last, gap);
      OneMoreInParts(t, e, x, t'[..m], e'[..m], x'[..m], t'[m], e'[m], x'[m], last, gap);
      assert t' == t'[..m] + [t'[m]] && e' == e'[..m] + [e'[m]] && x' == x'[..m] + [x'[m]];
    }
  }

  lemma NothingInParts(
    t: seq<real>, e: seq<bool>, x: seq<bool>, t': seq<real>, e': seq<bool>, x': seq<bool>, last: Option<real>,
    gap: real)
    requires SameLength(t, e, x) && SameLength(t', e', x') && |t'| == 0
    ensures var first := Filtered(t, e, x, last, gap);
            var second := Filtered(t', e', x', first.last, gap);
            Filtered(t + t', e + e', x + x', last, gap)
              == Outcome(first.entry + second.entry, first.exit + second.exit, second.last)
  {
    assert t + t' == t && e + e' == e && x + x' == x;
    hide FilterRow, TooClose;
    var first := Filtered(t, e, x, last, gap);
    var second := Filtered(t', e', x', first.last, gap);
    assert first.entry + second.entry == first.entry && first.exit + second.exit == first.exit;
  }

  lemma OneMoreInParts(
    t: seq<real>, e: seq<bool>, x: seq<bool>, u: seq<real>, f: seq<bool>, y: seq<bool>, t1: real, e1: bool, x1: bool,
    last: Option<real>, gap: real)
    requires SameLength(t, e, x) && SameLength(u, f, y)
    requires var first := Filtered(t, e, x, last, gap);
             var second := Filtered(u, f, y, first.last, gap);
             Filtered(t + u, e + f, x + y, last, gap)
               == Outcome(first.entry + second.entry, first.exit + second.exit, second.last)
    ensures var first := Filtered(t, e, x, last, gap);
            var second := Filtered(u + [t1], f + [e1], y + [x1], first.last, gap);
            Filtered(t + (u + [t1]), e + (f + [e1]), x + (y + [x1]), last, gap)
              == Outcome(first.entry + second.entry, first.exit + second.exit, second.last)
  {
    hide Filtered, FilterRow, TooClose;
    var first := Filtered(t, e, x, last, gap);
    FilteredSnoc(u, f, y, t1, e1, x1, first.last, gap);
    FilteredSnoc(t + u, e + f, x + y, t1, e1, x1, last, gap);
    RowInParts(first, Filtered(u, f, y, first.last, gap), t1, e1, x1, gap);
    assert t + (u + [t1]) == (t + u) + [t1] && e + (f + [e1]) == (e + f) + [e1] && x + (y + [x1]) == (x + y) + [x1];
  }

  lemma RowInParts(first: Outcome, second: Outcome, t: real, e: bool, x: bool, gap: real)
    ensures var row := FilterRow(second, t, e, x, gap);
            FilterRow(Outcome(first.entry + second.entry, first.exit + second.exit, second.last), t, e, x, gap)
              == Outcome(first.entry + row.entry, first.exit + row.exit, row.last)
  {
    var both := Outcome(first.entry + second.entry, first.exit + second.exit, second.last);
    var row := FilterRow(second, t, e, x, gap);
    assert FilterRow(both, t, e, x, gap).entry == first.entry + row.entry;
    assert FilterRow(both, t, e, x, gap).exit == first.exit + row.exit;
  }

  /** Nothing is added, and a row keeps both of its signals or neither. */
  lemma {:induction false} NothingAdded(
    times: seq<real>, entry: seq<bool>, exit: seq<bool>, last: Option<real>, gap: real, i: nat)
    requires SameLength(times, entry, exit) && i < |times|
    ensures var r := Filtered(times, entry, exit, last, gap);
            (r.entry[i] == entry[i] && r.exit[i] == exit[i]) || (!r.entry[i] && !r.exit[i])
  {
    var n := |times| - 1;
    if i < n {
      NothingAdded(times[..n], entry[..n], exit[..n], last, gap, i);
    }
  }

  /** Some kept row before row j lies within the gap of time t. */
  ghost predicate Shadowed(times: seq<real>, kept: Outcome, j: nat, t: real, gap: real)
    requires SameLength(times, kept.entry, kept.exit) && j <= |times|
  {
    exists i :: 0 <= i < j && Signalled(kept.entry, kept.exit, i) && t - times[i] < gap
  }

  /** With a non-negative gap, the last kept time decides what all kept rows decide together. */
  lemma {:induction false} LastDecides(
    times: seq<real>, entry: seq<bool>, exit: seq<bool>, last: Option<real>, gap: real, t: real)
    requires SameLength(times, entry, exit) && gap >= 0.0
    ensures var r := Filtered(times, entry, exit, last, gap);
            TooClose(t, r.last, gap) <==> TooClose(t, last, gap) || Shadowed(times, r, |times|, t, gap)
  {
    var r := Filtered(times, entry, exit, last, gap);
    if |times| == 0 {
    } else {
      var n := |times| - 1;
      var before := Filtered(times[..n], entry[..n], exit[..n], last, gap);
      LastDecides(times[..n], entry[..n], exit[..n], last, gap, t);
      LastDecides(times[..n], entry[..n], exit[..n], last, gap, times[n]);
      assert r.entry[..n] == before.entry && r.exit[..n] == before.exit;
      assert forall i :: 0 <= i < n ==> (Signalled(r.entry, r.exit, i) <==> Signalled(before.entry, before.exit, i));
      ShadowedOneMore(times, r, before, n, t, gap);
    }
  }

  lemma ShadowedOneMore(times: seq<real>, r: Outcome, before: Outcome, n: nat, t: real, gap: real)
    requires |times| == n + 1 && SameLength(times, r.entry, r.exit) && SameLength(times[..n], before.entry, before.exit)
    requires forall i :: 0 <= i < n ==> (Signalled(r.entry, r.exit, i) <==> Signalled(before.entry, before.exit, i))
    ensures Shadowed(times, r, n + 1, t, gap)
      <==> Shadowed(times[..n], before, n, t, gap) || (Signalled(r.entry, r.exit, n) && t - times[n] < gap)
  {
    if Shadowed(times[..n], before, n, t, gap) {
      var i :| 0 <= i < n && Signalled(before.entry, before.exit, i) && t - times[..n][i] < gap;
      assert Signalled(r.entry, r.exit, i) && t - times[i] < gap;
    }
    if Shadowed(times, r, n + 1, t, gap) {
      var i :| 0 <= i < n + 1 && Signalled(r.entry, r.exit, i) && t - times[i] < gap;
      if i < n {
        assert Signalled(before.entry, before.exit, i) && t - times[..n][i] < gap;
      }
    }
  }

  /** A signal is kept exactly when no kept row before it, and not the incoming last signal, is within the gap. */
  lemma KeptExactlyWhen(times: seq<real>, entry: seq<bool>, exit: seq<bool>, last: Option<real>, gap: real, j: nat)
    requires SameLength(times, entry, exit) && gap >= 0.0 && j < |times|
    ensures var r := Filtered(times, entry, exit, last, gap);
            Signalled(r.entry, r.exit, j) <==>
              && Signalled(entry, exit, j) && (last.None? || times[j] - last.value >= gap)
              && !Shadowed(times, r, j, times[j], gap)
  {
    hide Filtered, Shadowed, Signalled;
    SignalAt(times, entry, exit, last, gap, j);
    FilteredPrefix(times, entry, exit, last, gap, j);
    LastDecides(times[..j], entry[..j], exit[..j], last, gap, times[j]);
    SamePrefixShadow(times, Filtered(times, entry, exit, last, gap),
                     Filtered(times[..j], entry[..j], exit[..j], last, gap),
                     j, times[j], gap);
  }

  /** Row j is decided by the rows before it. */
  lemma SignalAt(times: seq<real>, entry: seq<bool>, exit: seq<bool>, last: Option<real>, gap: real, j: nat)
    requires SameLength(times, entry, exit) && j < |times|
    ensures var r := Filtered(times, entry, exit, last, gap);
            var before := Filtered(times[..j], entry[..j], exit[..j], last, gap);
            Signalled(r.entry, r.exit, j) <==> Signalled(entry, exit, j) && !TooClose(times[j], before.last, gap)
  {
    hide Filtered;
    var r := Filtered(times, entry, exit, last, gap);
    FilteredPrefix(times, entry, exit, last, gap, j + 1);
    assert times[..j + 1] == times[..j] + [times[j]];
    assert entry[..j + 1] == entry[..j] + [entry[j]] && exit[..j + 1] == exit[..j] + [exit[j]];
    FilteredSnoc(times[..j], entry[..j], exit[..j], times[j], entry[j], exit[j], last, gap);
    assert r.entry[j] == r.entry[..j + 1][j] && r.exit[j] == r.exit[..j + 1][j];
  }

  lemma SamePrefixShadow(times: seq<real>, r: Outcome, before: Outcome, j: nat, t: real, gap: real)
    requires j < |times| && SameLength(times, r.entry, r.exit) && SameLength(times[..j], before.entry, before.exit)
    requires r.entry[..j] == before.entry && r.exit[..j] == before.exit
    ensures Shadowed(times, r, j, t, gap) <==> Shadowed(times[..j], before, j, t, gap)
  {
    assert forall i :: 0 <= i < j ==> (Signalled(r.entry, r.exit, i) <==> Signalled(before.entry, before.exit, i));
    if Shadowed(times, r, j, t, gap) {
      var i :| 0 <= i < j && Signalled(r.entry, r.exit, i) && t - times[i] < gap;
      assert Signalled(before.entry, before.exit, i) && t - times[..j][i] < gap;
    }
    if Shadowed(times[..j], before, j, t, gap) {
      var i :| 0 <= i < j && Signalled(before.entry, before.exit, i) && t - times[..j][i] < gap;
      assert Signalled(r.entry, r.exit, i) && t - times[i] < gap;
    }
  }

  /** Kept signals are at least the gap apart, and at least the gap after the incoming last signal. */
  lemma KeptAreSpaced(times: seq<real>, entry: seq<bool>, exit: seq<bool>, last: Option<real>, gap: real, i: nat,
                      j: nat)
    requires SameLength(times, entry, exit) && gap >= 0.0 && i < j < |times|
    requires Signalled(Filtered(times, entry, exit, last, gap).entry, Filtered(times, entry, exit, last, gap).exit, i)
    requires Signalled(Filtered(times, entry, exit, last, gap).entry, Filtered(times, entry, exit, last, gap).exit, j)
    ensures times[j] - times[i] >= gap
    ensures last.Some? ==> times[i] - last.value >= gap
  {
    KeptExactlyWhen(times, entry, exit, last, gap, i);
    KeptExactlyWhen(times, entry, exit, last, gap, j);
  }

  /** Filtering the result again from the same start changes nothing. */
  lemma {:induction false} FilterIsIdempotent(
    times: seq<real>, entry: seq<bool>, exit: seq<bool>, last: Option<real>, gap: real)
    requires SameLength(times, entry, exit)
    ensures var r := Filtered(times, entry, exit, last, gap); Filtered(times, r.entry, r.exit, last, gap) == r
  {
    if |times| == 0 {
    } else {
      var n := |times| - 1;
      var before := Filtered(times[..n], entry[..n], exit[..n], last, gap);
      FilterIsIdempotent(times[..n], entry[..n], exit[..n], last, gap);
      var r := Filtered(times, entry, exit, last, gap);
      assert r.entry[..n] == before.entry && r.exit[..n] == before.exit;
    }
  }

  // The filter keeps as many signals as any selection that respects the gap.

  /** Rows picked by any means: each has a signal, and they respect the gap and the incoming last signal. */
  ghost predicate RespectsGap(
    times: seq<real>, entry: seq<bool>, exit: seq<bool>, last: Option<real>, gap: real, pick: seq<bool>)
    requires SameLength(times, entry, exit) && |pick| == |times|
  {
    && (forall i :: 0 <= i < |pick| && pick[i] ==>
          Signalled(entry, exit, i) && (last.None? || times[i] - last.value >= gap))
    && (forall i, j :: 0 <= i < j < |pick| && pick[i] && pick[j] ==> times[j] - times[i] >= gap)
  }

  function Count(pick: seq<bool>): nat
  {
    if |pick| == 0 then 0 else Count(pick[..|pick| - 1]) + if pick[|pick| - 1] then 1 else 0
  }

  function LastPicked(times: seq<real>, pick: seq<bool>, last: Option<real>): Option<real>
    requires |times| == |pick|
  {
    if |times| == 0 then last
    else
      var n := |times| - 1;
      if pick[n] then Some(times[n]) else LastPicked(times[..n], pick[..n], last)
  }

  function Marks(r: Outcome): (marks: seq<bool>)
    requires |r.entry| == |r.exit|
  {
    seq(|r.entry|, i requires 0 <= i < |r.entry| => r.entry[i] || r.exit[i])
  }

  predicate Sorted(times: seq<real>)
  {
    forall i, j :: 0 <= i < j < |times| ==> times[i] <= times[j]
  }

  predicate NoLaterThan(a: Option<real>, b: Option<real>)
  {
    a.None? || (b.Some? && a.value <= b.value)
  }

  lemma {:induction false} LastIsPicked(times: seq<real>, pick: seq<bool>, last: Option<real>)
    requires |times| == |pick|
    ensures LastPicked(times, pick, last) == last
      || exists i :: 0 <= i < |pick| && pick[i] && LastPicked(times, pick, last) == Some(times[i])
  {
    if |times| == 0 {
    } else {
      var n := |times| - 1;
      if pick[n] {
        assert LastPicked(times, pick, last) == Some(times[n]);
      } else {
        LastIsPicked(times[..n], pick[..n], last);
        if LastPicked(times[..n], pick[..n], last) != last {
          var i :| 0 <= i < n && pick[..n][i] && LastPicked(times[..n], pick[..n], last) == Some(times[..n][i]);
          assert pick[i] && LastPicked(times, pick, last) == Some(times[i]);
        }
      }
    }
  }

  /** A row that the picks may still add is not too close to the last pick. */
  lemma PickIsFarFromLast(
    times: seq<real>, entry: seq<bool>, exit: seq<bool>, last: Option<real>, gap: real, pick: seq<bool>, n: nat)
    requires SameLength(times, entry, exit) && |pick| == |times| && n < |times| && pick[n]
    requires RespectsGap(times, entry, exit, last, gap, pick)
    ensures !TooClose(times[n], LastPicked(times[..n], pick[..n], last), gap)
  {
    LastIsPicked(times[..n], pick[..n], last);
  }

  /** The last kept time is one of the times seen. */
  lemma {:induction false} LastIsPast(
    times: seq<real>, entry: seq<bool>, exit: seq<bool>, last: Option<real>, gap: real, t: real)
    requires SameLength(times, entry, exit) && NoLaterThan(last, Some(t))
    requires forall i :: 0 <= i < |times| ==> times[i] <= t
    ensures NoLaterThan(Filtered(times, entry, exit, last, gap).last, Some(t))
  {
    if |times| == 0 {
    } else {
      var n := |times| - 1;
      LastIsPast(times[..n], entry[..n], exit[..n], last, gap, t);
    }
  }

  lemma MarksSnoc(done: Outcome, t: real, entry: bool, exit: bool, gap: real)
    requires |done.entry| == |done.exit|
    ensures Count(Marks(FilterRow(done, t, entry, exit, gap)))
      == Count(Marks(done)) + if !TooClose(t, done.last, gap) && (entry || exit) then 1 else 0
  {
    var row := FilterRow(done, t, entry, exit, gap);
    assert Marks(row)[..|done.entry|] == Marks(done);
  }

  lemma {:induction false} PrefixRespectsGap(
    times: seq<real>, entry: seq<bool>, exit: seq<bool>, last: Option<real>, gap: real, pick: seq<bool>, n: nat)
    requires SameLength(times, entry, exit) && |pick| == |times| && n <= |times|
    requires RespectsGap(times, entry, exit, last, gap, pick)
    ensures RespectsGap(times[..n], entry[..n], exit[..n], last, gap, pick[..n])
  {
    assert forall i :: 0 <= i < n && Signalled(entry, exit, i) ==> Signalled(entry[..n], exit[..n], i);
  }

  /** The filter stays ahead of every other selection: no fewer signals, and at a tie no later a last one. */
  lemma {:induction false} FilterStaysAhead(
    times: seq<real>, entry: seq<bool>, exit: seq<bool>, last: Option<real>, gap: real, pick: seq<bool>)
    requires SameLength(times, entry, exit) && |pick| == |times| && Sorted(times)
    requires forall i :: 0 <= i < |times| ==> NoLaterThan(last, Some(times[i]))
    requires RespectsGap(times, entry, exit, last, gap, pick)
    ensures var r := Filtered(times, entry, exit, last, gap);
            && Count(pick) <= Count(Marks(r))
            && (Count(pick) == Count(Marks(r)) ==> NoLaterThan(r.last, LastPicked(times, pick, last)))
  {
    hide RespectsGap, Marks, TooClose;
    if |times| == 0 {
    } else {
      var n := |times| - 1;
      var before := Filtered(times[..n], entry[..n], exit[..n], last, gap);
      PrefixRespectsGap(times, entry, exit, last, gap, pick, n);
      FilterStaysAhead(times[..n], entry[..n], exit[..n], last, gap, pick[..n]);
      LastIsPast(times[..n], entry[..n], exit[..n], last, gap, times[n]);
      if pick[n] {
        PickIsFarFromLast(times, entry, exit, last, gap, pick, n);
        PickHasSignal(times, entry, exit, last, gap, pick, n);
      }
      MarksSnoc(before, times[n], entry[n], exit[n], gap);
      AheadStep(Count(pick[..n]), Count(Marks(before)), LastPicked(times[..n], pick[..n], last), before.last, times[n],
                Signalled(entry, exit, n), pick[n], gap);
    }
  }

  /** One row: a pick the filter drops can only close a gap that the filter was ahead by. */
  lemma AheadStep(
    picked: nat, kept: nat, lastPick: Option<real>, lastKept: Option<real>, t: real, signal: bool, pick: bool,
    gap: real)
    requires picked <= kept && (picked == kept ==> NoLaterThan(lastKept, lastPick))
    requires NoLaterThan(lastKept, Some(t))
    requires pick ==> signal && !TooClose(t, lastPick, gap)
    ensures var keep := signal && !TooClose(t, lastKept, gap);
            var picked', kept' := picked + (if pick then 1 else 0), kept + (if keep then 1 else 0);
            && picked' <= kept'
            && (picked' == kept' ==>
                  NoLaterThan(if keep then Some(t) else lastKept, if pick then Some(t) else lastPick))
  {
  }

  lemma PickHasSignal(
    times: seq<real>, entry: seq<bool>, exit: seq<bool>, last: Option<real>, gap: real, pick: seq<bool>, n: nat)
    requires SameLength(times, entry, exit) && |pick| == |times| && n < |times| && pick[n]
    requires RespectsGap(times, entry, exit, last, gap, pick)
    ensures Signalled(entry, exit, n)
  {
  }

  /** What the filter keeps is itself such a selection. */
  lemma KeptRespectsGap(times: seq<real>, entry: seq<bool>, exit: seq<bool>, last: Option<real>, gap: real)
    requires SameLength(times, entry, exit) && gap >= 0.0
    ensures RespectsGap(times, entry, exit, last, gap, Marks(Filtered(times, entry, exit, last, gap)))
  {
    hide Filtered;
    var r := Filtered(times, entry, exit, last, gap);
    var pick := Marks(r);
    forall i | 0 <= i < |pick| && pick[i]
      ensures Signalled(entry, exit, i) && !TooClose(times[i], last, gap)
    {
      KeptExactlyWhen(times, entry, exit, last, gap, i);
    }
    forall i, j | 0 <= i < j < |pick| && pick[i] && pick[j]
      ensures times[j] - times[i] >= gap
    {
      KeptAreSpaced(times, entry, exit, last, gap, i, j);
    }
  }
}
