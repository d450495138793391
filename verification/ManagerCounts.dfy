/** When the manager's published symbol counts are those of its dictionaries. */
module ManagerCounts {
  import opened Sums
  import opened OrderbookManagement

  /** Stopping a running manager clears its dictionaries and leaves the published counts. */
  predicate Clears(st: State, op: Op)
  {
    op.StopOp? && st.running
  }

  /** The two counts that the manager publishes. */
  datatype Count = Books | ActiveSymbols

  function Published(st: State, count: Count): nat
  {
    match count
    case Books => st.global.totalSymbols
    case ActiveSymbols => st.global.activeSymbols
  }

  function Actual(st: State, count: Count): nat
  {
    match count
    case Books => |st.books|
    case ActiveSymbols => |st.active|
  }

  /** The calls that publish a count anew. */
  predicate Refreshes(st: State, op: Op, count: Count)
  {
    match op
    case AddSymbolOp(_, _) => true
    case UpdateOp(u, _) => u.symbol !in st.books
    case CleanupOp(_) => count == Books
    case RemoveSymbolOp(_) => count == ActiveSymbols
    case _ => false
  }

  /** Both states have as many books and active symbols, and publish the same counts. */
  predicate SameCounts(a: State, b: State)
  {
    && |a.books| == |b.books| && a.active == b.active
    && a.global.totalSymbols == b.global.totalSymbols && a.global.activeSymbols == b.global.activeSymbols
  }

  lemma SameCountsChain(a: State, b: State, c: State)
    requires SameCounts(a, b) && SameCounts(b, c)
    ensures SameCounts(a, c) && (CountsCurrent(a) ==> CountsCurrent(c))
  {
  }

  /** An update of a tracked symbol changes no count; one of an untracked symbol refreshes both. */
  lemma UpdateCounts(st: State, u: ParsedUpdate, c: Clocks)
    requires Invariant(st)
    ensures if u.symbol in st.books then SameCounts(st, Applied(st, u, c).0) else CountsCurrent(Applied(st, u, c).0)
  {
    hide *;
    var tracked := TrackedFor(st, u, c);
    TrackedKeeps(st, u, c);
    TrackedCounts(st, u, c);
    AppliedIs(st, u, c);
    var recorded := Recorded(tracked, u, c);
    RecordedCounts(tracked, u, c);
    FailedCounts(recorded, u.symbol);
    SameCountsChain(tracked, tracked, recorded);
    SameCountsChain(tracked, recorded, Failed(recorded, u.symbol));
  }

  lemma TrackedCounts(st: State, u: ParsedUpdate, c: Clocks)
    requires Invariant(st)
    ensures SameCounts(TrackedFor(st, u, c), TrackedFor(st, u, c))
    ensures if u.symbol in st.books then TrackedFor(st, u, c) == st else CountsCurrent(TrackedFor(st, u, c))
  {
    hide Added, Invariant, CountsCurrent;
    if u.symbol !in st.books {
      AddedKeeps(st, u.symbol, c.added);
    }
  }

  lemma RecordedCounts(st: State, u: ParsedUpdate, c: Clocks)
    requires u.symbol in st.books && u.symbol in st.stats
    ensures SameCounts(st, Recorded(st, u, c))
  {
    hide UpdatedBook, Refreshed, ProcessingTime, MovingAverage, Max;
    var book := UpdatedBook(st.books[u.symbol], u, c.applied);
    assert |st.books[u.symbol := book]| == |st.books|;
  }

  lemma FailedCounts(st: State, s: Symbol)
    ensures SameCounts(st, Failed(st, s))
  {
  }

  /** What one call does to a count and to its published figure. */
  lemma StepCount(threshold: real, st: State, op: Op, count: Count)
    requires Invariant(st)
    ensures var r := Step(threshold, st, op);
            if Refreshes(st, op, count) then Published(r, count) == Actual(r, count)
            else Published(r, count) == Published(st, count)
                 && Actual(r, count) == if Clears(st, op) then 0 else Actual(st, count)
  {
    hide Invariant, Applied, Stale;
    if op.UpdateOp? {
      UpdateCounts(st, op.update, op.clocks);
    }
  }

  /** Call k stopped a running manager whose published figure was not 0, and no call since published it anew. */
  ghost predicate LeftBehind(threshold: real, ops: seq<Op>, count: Count, k: nat)
    requires k < |ops|
  {
    && Clears(Run(threshold, ops[..k]), ops[k]) && Published(Run(threshold, ops[..k]), count) != 0
    && forall j :: k < j < |ops| ==> !Refreshes(Run(threshold, ops[..j]), ops[j], count)
  }

  lemma LeftBehindSnoc(threshold: real, ops: seq<Op>, count: Count, k: nat)
    requires k < |ops|
    ensures var n := |ops| - 1;
            var st := Run(threshold, ops[..n]);
            LeftBehind(threshold, ops, count, k) <==>
              if k == n then Clears(st, ops[n]) && Published(st, count) != 0
              else LeftBehind(threshold, ops[..n], count, k) && !Refreshes(st, ops[n], count)
  {
    hide Run, Clears, Refreshes, Published;
    var n := |ops| - 1;
    assert forall j :: 0 <= j <= n ==> ops[..n][..j] == ops[..j];
    if k < n && LeftBehind(threshold, ops, count, k) {
      forall j | k < j < n
        ensures !Refreshes(Run(threshold, ops[..n][..j]), ops[..n][j], count)
      {
        assert !Refreshes(Run(threshold, ops[..j]), ops[j], count);
      }
    }
    if k < n && LeftBehind(threshold, ops[..n], count, k) && !Refreshes(Run(threshold, ops[..n]), ops[n], count) {
      forall j | k < j < |ops|
        ensures !Refreshes(Run(threshold, ops[..j]), ops[j], count)
      {
        assert j < n ==> !Refreshes(Run(threshold, ops[..n][..j]), ops[..n][j], count);
      }
    }
  }

  ghost predicate SomeLeftBehind(threshold: real, ops: seq<Op>, count: Count)
  {
    exists k :: 0 <= k < |ops| && LeftBehind(threshold, ops, count, k)
  }

  lemma SomeLeftBehindSnoc(threshold: real, ops: seq<Op>, count: Count)
    requires |ops| > 0
    ensures var n := |ops| - 1;
            var st := Run(threshold, ops[..n]);
            SomeLeftBehind(threshold, ops, count) <==>
              || (Clears(st, ops[n]) && Published(st, count) != 0)
              || (SomeLeftBehind(threshold, ops[..n], count) && !Refreshes(st, ops[n], count))
  {
    hide Run, Clears, Refreshes, LeftBehind, Published;
    var n := |ops| - 1;
    forall k | 0 <= k < |ops|
      ensures LeftBehind(threshold, ops, count, k) <==>
                if k == n then Clears(Run(threshold, ops[..n]), ops[n])
                  && Published(Run(threshold, ops[..n]), count) != 0
                else LeftBehind(threshold, ops[..n], count, k) && !Refreshes(Run(threshold, ops[..n]), ops[n], count)
    {
      LeftBehindSnoc(threshold, ops, count, k);
    }
    if SomeLeftBehind(threshold, ops[..n], count) {
      var k :| 0 <= k < n && LeftBehind(threshold, ops[..n], count, k);
      assert LeftBehind(threshold, ops, count, k) <==> !Refreshes(Run(threshold, ops[..n]), ops[n], count);
    }
    assert LeftBehind(threshold, ops, count, n)
      <==> Clears(Run(threshold, ops[..n]), ops[n]) && Published(Run(threshold, ops[..n]), count) != 0;
  }

  /** After any run each published count, of books or of active symbols, is right exactly when no stop left it
      behind. */
  lemma {:induction false} CountCurrentExactly(threshold: real, ops: seq<Op>, count: Count)
    ensures var st := Run(threshold, ops);
            && (Published(st, count) == Actual(st, count) <==> !SomeLeftBehind(threshold, ops, count))
            && (SomeLeftBehind(threshold, ops, count) ==> Published(st, count) != 0)
  {
    if |ops| == 0 {
    } else {
      hide Step, Clears, Refreshes, SomeLeftBehind, Invariant, Published, Actual;
      var n := |ops| - 1;
      CountCurrentExactly(threshold, ops[..n], count);
      StepCount(threshold, Run(threshold, ops[..n]), ops[n], count);
      SomeLeftBehindSnoc(threshold, ops, count);
      ClearingRefreshesNothing(Run(threshold, ops[..n]), ops[n], count);
    }
  }

  lemma ClearingRefreshesNothing(st: State, op: Op, count: Count)
    ensures Clears(st, op) ==> !Refreshes(st, op, count)
  {
  }

  /** A run that leaves both behind: add a symbol, start, stop. */
  lemma StopLeavesCounts(threshold: real, s: Symbol, now: real)
    ensures var st := Run(threshold, [AddSymbolOp(s, now), StartOp, StopOp]);
            && st.books == map[] && st.active == {}
            && st.global.totalSymbols == 1 && st.global.activeSymbols == 1
  {
    hide Invariant;
    var ops := [AddSymbolOp(s, now), StartOp, StopOp];
    assert ops[..2][..1] == ops[..1] && ops[..1][..0] == [];
    assert Run(threshold, ops[..0]) == INITIAL;
    var added := Run(threshold, ops[..1]);
    assert added == Added(INITIAL, s, now) && |added.books| == 1 && |added.active| == 1;
    assert Run(threshold, ops[..2]) == added.(running := true);
  }
}
