/** What the manager's records say after a run, in the calls that were made; and whom a cleanup evicts. */
module ManagerRecords {
  import opened Sums
  import opened HftOrderBooks
  import opened OrderbookManagement

  /** An update as a record sees it; it fails when handlers are registered. */
  datatype Taken = Taken(update: ParsedUpdate, clocks: Clocks, failed: bool)

  predicate IsUpdateOf(op: Op, s: Symbol)
  {
    op.UpdateOp? && op.update.symbol == s
  }

  /** The updates of s since its current book was created. */
  ghost function UpdatesOf(threshold: real, ops: seq<Op>, s: Symbol): seq<Taken>
  {
    if |ops| == 0 || s !in Run(threshold, ops).books then []
    else
      var n := |ops| - 1;
      var before := UpdatesOf(threshold, ops[..n], s);
      if IsUpdateOf(ops[n], s)
      then before + [Taken(ops[n].update, ops[n].clocks, Run(threshold, ops[..n]).handlers > 0)]
      else before
  }

  /** The clock reading at which the current book of s was created. */
  ghost function CreatedAt(threshold: real, ops: seq<Op>, s: Symbol): real
  {
    if |ops| == 0 then 0.0
    else
      var n := |ops| - 1;
      if s in Run(threshold, ops[..n]).books then CreatedAt(threshold, ops[..n], s)
      else
        match ops[n]
        case AddSymbolOp(_, now) => now
        case UpdateOp(_, c) => c.added
        case _ => 0.0
  }

  /** The `recorded` reading of the last update of s since its book was created, or the creation time without one. */
  ghost function LastTouch(threshold: real, ops: seq<Op>, s: Symbol): real
  {
    var us := UpdatesOf(threshold, ops, s);
    if |us| > 0 then us[|us| - 1].clocks.recorded else CreatedAt(threshold, ops, s)
  }

  function OfSnapshots(): Taken -> bool
  {
    (x: Taken) => x.update.isSnapshot
  }

  function OfDiffs(): Taken -> bool
  {
    (x: Taken) => !x.update.isSnapshot
  }

  function OfFailures(): Taken -> bool
  {
    (x: Taken) => x.failed
  }

  /** Microseconds from the start of an update to its measurement. */
  function Micros(x: Taken): real
  {
    1000000.0 * (x.clocks.measured - x.clocks.start)
  }

  /** The record counts these updates, of a book created at the given time. */
  ghost predicate Tallies(v: OrderbookStats, us: seq<Taken>, created: real)
  {
    && v.lastUpdateTime == (if |us| > 0 then us[|us| - 1].clocks.recorded else created)
    && v.totalUpdates == |us|
    && v.snapshotUpdates == |Filter(us, OfSnapshots())|
    && v.diffUpdates == |Filter(us, OfDiffs())|
    && v.parseErrors == |Filter(us, OfFailures())|
    && (forall i :: 0 <= i < |us| ==> Micros(us[i]) <= v.processingTimeMax)
    && (v.processingTimeMax == 0.0 || exists i :: 0 <= i < |us| && Micros(us[i]) == v.processingTimeMax)
  }

  /** What one more update does to a record. The average starts with the first measurement that is not zero and then
      moves a tenth of the way. */
  ghost predicate Counts(v: OrderbookStats, r: OrderbookStats, x: Taken)
  {
    && r.lastUpdateTime == x.clocks.recorded
    && r.totalUpdates == v.totalUpdates + 1
    && r.snapshotUpdates == v.snapshotUpdates + (if x.update.isSnapshot then 1 else 0)
    && r.diffUpdates == v.diffUpdates + (if x.update.isSnapshot then 0 else 1)
    && r.parseErrors == v.parseErrors + (if x.failed then 1 else 0)
    && r.processingTimeMax == Max(v.processingTimeMax, Micros(x))
    && (if v.processingTimeAvg == 0.0 then r.processingTimeAvg == Micros(x)
        else 10.0 * (r.processingTimeAvg - v.processingTimeAvg) == Micros(x) - v.processingTimeAvg)
  }

  lemma MovesBy(avg: real, x: real, alpha: real)
    requires avg != 0.0
    ensures MovingAverage(avg, x, alpha) - avg == alpha * (x - avg)
  {
  }

  lemma RefreshedCounts(v: OrderbookStats, b: Book, x: Taken)
    ensures var r := Refreshed(v, x.update.isSnapshot, ProcessingTime(x.clocks), x.clocks.recorded, b);
            Counts(v, if x.failed then r.(parseErrors := r.parseErrors + 1) else r, x)
  {
    hide MovingAverage, SpreadOf, MidOf, TopUncrossed;
    var time := ProcessingTime(x.clocks);
    if v.processingTimeAvg == 0.0 {
      assert MovingAverage(v.processingTimeAvg, time, 0.1) == time by {
        StartsWith(time, 0.1);
      }
    } else {
      MovesBy(v.processingTimeAvg, time, 0.1);
    }
  }

  lemma StartsWith(x: real, alpha: real)
    ensures MovingAverage(0.0, x, alpha) == x
  {
  }

  lemma FilterSnoc(us: seq<Taken>, x: Taken, p: Taken -> bool)
    ensures |Filter(us + [x], p)| == |Filter(us, p)| + if p(x) then 1 else 0
  {
    assert (us + [x])[..|us|] == us;
  }

  lemma TalliesSnoc(v: OrderbookStats, r: OrderbookStats, us: seq<Taken>, x: Taken, created: real)
    requires Tallies(v, us, created) && Counts(v, r, x)
    ensures Tallies(r, us + [x], created)
  {
    hide Filter, Micros;
    FilterSnoc(us, x, OfSnapshots());
    FilterSnoc(us, x, OfDiffs());
    FilterSnoc(us, x, OfFailures());
    var all := us + [x];
    assert all[|us|] == x && forall i :: 0 <= i < |us| ==> all[i] == us[i];
  }

  lemma NewTallies(now: real)
    ensures Tallies(NewStats(now), [], now)
  {
  }

  /** What one call does to the record of a symbol that is tracked after it. */
  ghost predicate RecordAfter(st: State, r: State, op: Op, s: Symbol)
    requires s in r.stats && (s in st.books ==> s in st.stats)
  {
    if IsUpdateOf(op, s)
    then Counts(if s in st.books then st.stats[s] else NewStats(op.clocks.added), r.stats[s],
                Taken(op.update, op.clocks, st.handlers > 0))
    else if s in st.books then r.stats[s] == st.stats[s]
    else op.AddSymbolOp? && r.stats[s] == NewStats(op.now)
  }

  lemma UpdateRecord(st: State, u: ParsedUpdate, c: Clocks)
    requires Invariant(st)
    ensures SameKeys(st) && u.symbol in Applied(st, u, c).0.stats && (u.symbol in st.books ==> u.symbol in st.stats)
    ensures Counts(if u.symbol in st.books then st.stats[u.symbol] else NewStats(c.added),
                   Applied(st, u, c).0.stats[u.symbol], Taken(u, c, st.handlers > 0))
  {
    hide Counts, Refreshed, UpdatedBook, NewStats, ProcessingTime, Agrees, BookOk, GlobalAfter;
    AppliedIs(st, u, c);
    var tracked := TrackedFor(st, u, c);
    var book := UpdatedBook(tracked.books[u.symbol], u, c.applied);
    RefreshedCounts(tracked.stats[u.symbol], book, Taken(u, c, st.handlers > 0));
  }

  lemma OtherRecord(st: State, u: ParsedUpdate, c: Clocks, s: Symbol)
    requires Invariant(st) && u.symbol != s
    ensures SameKeys(st)
    ensures s in Applied(st, u, c).0.stats <==> s in st.stats
    ensures s in st.stats ==> Applied(st, u, c).0.stats[s] == st.stats[s]
  {
    hide Refreshed, UpdatedBook, NewStats, ProcessingTime, Agrees, BookOk, GlobalAfter;
    AppliedIs(st, u, c);
  }

  lemma AddedRecord(st: State, x: Symbol, now: real, s: Symbol)
    requires SameKeys(st)
    ensures s in Added(st, x, now).stats <==> s in st.stats || s == x
    ensures s in st.stats ==> Added(st, x, now).stats[s] == st.stats[s]
    ensures s == x && s !in st.stats ==> Added(st, x, now).stats[s] == NewStats(now)
  {
    hide NewStats;
  }

  lemma RecordStep(threshold: real, st: State, op: Op, s: Symbol)
    requires Invariant(st) && s in Step(threshold, st, op).books
    ensures s in Step(threshold, st, op).stats && (s in st.books ==> s in st.stats)
    ensures RecordAfter(st, Step(threshold, st, op), op, s)
  {
    hide Invariant, Applied, Added, Cleaned, Counts, NewStats, BookOk, Agrees;
    StepKeeps(threshold, st, op);
    InvariantMeans(Step(threshold, st, op), s);
    InvariantMeans(st, s);
    match op
    case UpdateOp(u, c) =>
      if u.symbol == s {
        UpdateRecord(st, u, c);
      } else {
        OtherRecord(st, u, c, s);
      }
    case AddSymbolOp(x, now) => AddedRecord(st, x, now, s);
    case CleanupOp(now) => CleanupEvictsExactly(st, now, threshold, s);
    case _ =>
  }

  /** After any run the record of a tracked symbol counts exactly its updates since its book was created. */
  lemma {:induction false} RecordsTally(threshold: real, ops: seq<Op>, s: Symbol)
    requires s in Run(threshold, ops).books
    ensures s in Run(threshold, ops).stats
    ensures Tallies(Run(threshold, ops).stats[s], UpdatesOf(threshold, ops, s), CreatedAt(threshold, ops, s))
  {
    hide Step, Invariant, Tallies, Counts, NewStats;
    var n := |ops| - 1;
    var st := Run(threshold, ops[..n]);
    RecordStep(threshold, st, ops[n], s);
    var v := Run(threshold, ops).stats[s];
    if s in st.books {
      RecordsTally(threshold, ops[..n], s);
      if IsUpdateOf(ops[n], s) {
        TalliesSnoc(st.stats[s], v, UpdatesOf(threshold, ops[..n], s),
                    Taken(ops[n].update, ops[n].clocks, st.handlers > 0), CreatedAt(threshold, ops[..n], s));
      }
    } else {
      assert UpdatesOf(threshold, ops[..n], s) == [];
      if IsUpdateOf(ops[n], s) {
        NewTallies(ops[n].clocks.added);
        TalliesSnoc(NewStats(ops[n].clocks.added), v, [], Taken(ops[n].update, ops[n].clocks, st.handlers > 0),
                    ops[n].clocks.added);
      } else {
        NewTallies(ops[n].now);
      }
    }
  }

  // ----- eviction

  /** The last touch of s lies more than the threshold back. */
  ghost predicate Old(threshold: real, ops: seq<Op>, now: real, s: Symbol)
  {
    LastTouch(threshold, ops, s) + threshold < now
  }

  lemma LastTouchIs(threshold: real, ops: seq<Op>, s: Symbol)
    requires s in Run(threshold, ops).books
    ensures s in Run(threshold, ops).stats
    ensures Run(threshold, ops).stats[s].lastUpdateTime == LastTouch(threshold, ops, s)
  {
    hide Run, UpdatesOf, CreatedAt, Filter, Micros;
    RecordsTally(threshold, ops, s);
  }

  /** A cleanup after any run drops a tracked symbol if and only if it is inactive and its last touch lies more than the
      threshold back, keeps the others as they were, and publishes how many symbols that old it found. */
  lemma CleanupAfterRun(threshold: real, ops: seq<Op>, now: real)
    ensures var st := Run(threshold, ops);
            var r := Run(threshold, ops + [CleanupOp(now)]);
            && (forall s :: s in r.books <==> s in st.books && (s in st.active || !Old(threshold, ops, now, s)))
            && (forall s :: s in r.books ==>
                s in r.stats && s in st.stats && r.books[s] == st.books[s] && r.stats[s] == st.stats[s])
            && r.active == st.active
            && r.global.staleOrderbooks == |set s | s in st.books && Old(threshold, ops, now, s)|
  {
    hide Run, Old, Invariant, CountsCurrent;
    var st := Run(threshold, ops);
    RunAppends(threshold, ops, CleanupOp(now));
    StaleAre(threshold, ops, now);
    forall s
      ensures var r := Cleaned(st, now, threshold);
              && (s in r.books <==> s in st.books && (s in st.active || !Old(threshold, ops, now, s)))
              && (s in r.books ==>
                  s in r.stats && s in st.stats && r.books[s] == st.books[s] && r.stats[s] == st.stats[s])
    {
      InvariantMeans(st, s);
      CleanupEvictsExactly(st, now, threshold, s);
      if s in st.books {
        OldMeans(threshold, ops, now, s);
      }
    }
  }

  lemma RunAppends(threshold: real, ops: seq<Op>, op: Op)
    ensures Run(threshold, ops + [op]) == Step(threshold, Run(threshold, ops), op)
  {
    hide Step, Invariant;
    assert (ops + [op])[..|ops|] == ops;
  }

  lemma OldMeans(threshold: real, ops: seq<Op>, now: real, s: Symbol)
    requires s in Run(threshold, ops).books
    ensures s in Run(threshold, ops).stats
    ensures Old(threshold, ops, now, s) <==> now - Run(threshold, ops).stats[s].lastUpdateTime > threshold
  {
    hide Run, LastTouch;
    LastTouchIs(threshold, ops, s);
  }

  lemma StaleAre(threshold: real, ops: seq<Op>, now: real)
    ensures var st := Run(threshold, ops);
            Stale(st, now, threshold) == set s | s in st.books && Old(threshold, ops, now, s)
  {
    hide Run, Old, Invariant;
    var st := Run(threshold, ops);
    forall s
      ensures s in Stale(st, now, threshold) <==> s in st.books && Old(threshold, ops, now, s)
    {
      InvariantMeans(st, s);
      if s in st.books {
        OldMeans(threshold, ops, now, s);
      }
    }
  }

  // ----- who is tracked and active, and the global figures

  /** Which symbols are tracked after one more call. */
  lemma TrackedExactly(threshold: real, ops: seq<Op>, op: Op, s: Symbol)
    ensures var st := Run(threshold, ops);
            s in Run(threshold, ops + [op]).books <==>
              if op.AddSymbolOp? then op.symbol == s || s in st.books
              else if op.UpdateOp? then op.update.symbol == s || s in st.books
              else if op.CleanupOp? then s in st.books && (s in st.active || !Old(threshold, ops, op.now, s))
              else if op.StopOp? then s in st.books && !st.running
              else s in st.books
  {
    hide Run, Old, Invariant, Applied, Cleaned;
    RunAppends(threshold, ops, op);
    match op
    case UpdateOp(u, c) => UpdateTracks(Run(threshold, ops), u, c, s);
    case CleanupOp(now) => CleanupAfterRun(threshold, ops, now);
    case _ =>
  }

  lemma UpdateTracks(st: State, u: ParsedUpdate, c: Clocks, s: Symbol)
    requires Invariant(st)
    ensures SameKeys(st)
    ensures s in Applied(st, u, c).0.books <==> u.symbol == s || s in st.books
  {
    hide Refreshed, UpdatedBook, NewStats, ProcessingTime, Agrees, BookOk, GlobalAfter;
    AppliedIs(st, u, c);
  }

  /** Whether s is active after the run: the last call that decides. */
  ghost function IsActive(threshold: real, ops: seq<Op>, s: Symbol): bool
  {
    if |ops| == 0 then false
    else
      var n := |ops| - 1;
      var before := IsActive(threshold, ops[..n], s);
      match ops[n]
      case AddSymbolOp(x, _) => x == s || before
      case RemoveSymbolOp(x) => x != s && before
      case UpdateOp(u, _) => (u.symbol == s && s !in Run(threshold, ops[..n]).books) || before
      case StopOp => !Run(threshold, ops[..n]).running && before
      case _ => before
  }

  lemma {:induction false} ActiveExactly(threshold: real, ops: seq<Op>, s: Symbol)
    ensures s in Run(threshold, ops).active <==> IsActive(threshold, ops, s)
  {
    if |ops| == 0 {
    } else {
      hide Step, Invariant;
      var n := |ops| - 1;
      ActiveExactly(threshold, ops[..n], s);
      ActiveStep(threshold, Run(threshold, ops[..n]), ops[n], s);
    }
  }

  lemma ActiveStep(threshold: real, st: State, op: Op, s: Symbol)
    requires Invariant(st)
    ensures s in Step(threshold, st, op).active <==>
      match op
      case AddSymbolOp(x, _) => x == s || s in st.active
      case RemoveSymbolOp(x) => x != s && s in st.active
      case UpdateOp(u, _) => (u.symbol == s && s !in st.books) || s in st.active
      case StopOp => !st.running && s in st.active
      case _ => s in st.active
  {
    hide Invariant, Applied, Stale, NewStats;
    if op.UpdateOp? {
      AppliedActive(st, op.update, op.clocks);
    }
  }

  lemma AppliedActive(st: State, u: ParsedUpdate, c: Clocks)
    requires Invariant(st)
    ensures SameKeys(st)
    ensures Applied(st, u, c).0.active == if u.symbol in st.books then st.active else st.active + {u.symbol}
    ensures Applied(st, u, c).0.handlers == st.handlers && Applied(st, u, c).0.running == st.running
  {
    hide Refreshed, UpdatedBook, NewStats, ProcessingTime, Agrees, BookOk, GlobalAfter;
    AppliedIs(st, u, c);
  }

  function Updates(): Op -> bool
  {
    (op: Op) => op.UpdateOp?
  }

  function Registrations(): Op -> bool
  {
    (op: Op) => op.AddHandlerOp?
  }

  /** The updates that were made with a handler registered. */
  ghost function FailedUpdates(threshold: real, ops: seq<Op>): nat
  {
    if |ops| == 0 then 0
    else
      var n := |ops| - 1;
      FailedUpdates(threshold, ops[..n])
      + if ops[n].UpdateOp? && |Filter(ops[..n], Registrations())| > 0 then 1 else 0
  }

  /** Running after the last start, unless a stop came after it. */
  function Running(ops: seq<Op>): bool
  {
    if |ops| == 0 then false
    else
      match ops[|ops| - 1]
      case StartOp => true
      case StopOp => false
      case _ => Running(ops[..|ops| - 1])
  }

  /** After any run: updates and failures are counted over the whole run, whatever was evicted or cleared since;
      handlers are never dropped. */
  lemma {:induction false} GlobalsTally(threshold: real, ops: seq<Op>)
    ensures var st := Run(threshold, ops);
            && st.global.totalUpdates == |Filter(ops, Updates())|
            && st.global.processingErrors == FailedUpdates(threshold, ops)
            && st.handlers == |Filter(ops, Registrations())|
            && st.running == Running(ops)
  {
    if |ops| == 0 {
    } else {
      hide Step, Invariant;
      var n := |ops| - 1;
      GlobalsTally(threshold, ops[..n]);
      GlobalsStep(threshold, Run(threshold, ops[..n]), ops[n]);
    }
  }

  lemma GlobalsStep(threshold: real, st: State, op: Op)
    requires Invariant(st)
    ensures var r := Step(threshold, st, op);
            && r.global.totalUpdates == st.global.totalUpdates + (if op.UpdateOp? then 1 else 0)
            && r.global.processingErrors
               == st.global.processingErrors + (if op.UpdateOp? && st.handlers > 0 then 1 else 0)
            && r.handlers == st.handlers + (if op.AddHandlerOp? then 1 else 0)
            && r.running == if op.StartOp? then true else if op.StopOp? then false else st.running
  {
    hide Invariant, Applied, Stale, NewStats;
    if op.UpdateOp? {
      AppliedActive(st, op.update, op.clocks);
      HandlersMakeUpdatesFail(st, op.update, op.clocks);
    }
  }

  /** An update moves the manager's own average a hundredth of the way to its time, and its maximum up to it. */
  lemma GlobalAverageMoves(st: State, u: ParsedUpdate, c: Clocks)
    requires Invariant(st)
    ensures SameKeys(st)
    ensures var (g, r) := (st.global, Applied(st, u, c).0.global);
            var time := 1000000.0 * (c.measured - c.start);
            && r.maxProcessingTime == Max(g.maxProcessingTime, time)
            && if g.avgProcessingTime == 0.0 then r.avgProcessingTime == time
               else 100.0 * (r.avgProcessingTime - g.avgProcessingTime) == time - g.avgProcessingTime
  {
    hide *;
    InvariantMeans(st, u.symbol);
    AppliedGlobal(st, u, c);
    TimeIs(c);
    var time := ProcessingTime(c);
    if st.global.avgProcessingTime == 0.0 {
      StartsWith(time, 0.01);
    } else {
      MovesBy(st.global.avgProcessingTime, time, 0.01);
    }
  }

  lemma TimeIs(c: Clocks)
    ensures ProcessingTime(c) == 1000000.0 * (c.measured - c.start)
  {
  }

  lemma AppliedGlobal(st: State, u: ParsedUpdate, c: Clocks)
    requires Invariant(st)
    ensures SameKeys(st)
    ensures var (g, r) := (st.global, Applied(st, u, c).0.global);
            && r.maxProcessingTime == Max(g.maxProcessingTime, ProcessingTime(c))
            && r.avgProcessingTime == MovingAverage(g.avgProcessingTime, ProcessingTime(c), 0.01)
  {
    hide Refreshed, UpdatedBook, NewStats, Agrees, BookOk, MovingAverage, Max, ProcessingTime;
    AppliedIs(st, u, c);
  }

  /** Updated at 1000, the book of a removed symbol survives a cleanup at 1010 and not one at 1031. */
  lemma TouchedBookStays(u: ParsedUpdate, c: Clocks)
    requires u.symbol == "X" && c.recorded == 1000.0
    ensures var ops := [AddSymbolOp("X", 0.0), UpdateOp(u, c), RemoveSymbolOp("X")];
            && "X" in Run(30.0, ops + [CleanupOp(1010.0)]).books
            && "X" !in Run(30.0, ops + [CleanupOp(1031.0)]).books
  {
    hide *;
    var ops := [AddSymbolOp("X", 0.0), UpdateOp(u, c), RemoveSymbolOp("X")];
    TouchedRun(u, c);
    LastTouchIs(30.0, ops, "X");
    EvictedWhenOld(30.0, ops, 1010.0, "X");
    EvictedWhenOld(30.0, ops, 1031.0, "X");
  }

  lemma EvictedWhenOld(threshold: real, ops: seq<Op>, now: real, s: Symbol)
    requires s in Run(threshold, ops).books && s !in Run(threshold, ops).active
    ensures s in Run(threshold, ops + [CleanupOp(now)]).books <==> LastTouch(threshold, ops, s) + threshold >= now
  {
    hide Run, LastTouch;
    CleanupAfterRun(threshold, ops, now);
    var r := Run(threshold, ops + [CleanupOp(now)]);
    assert s in r.books <==> !Old(threshold, ops, now, s);
  }

  lemma TouchedRun(u: ParsedUpdate, c: Clocks)
    requires u.symbol == "X" && c.recorded == 1000.0
    ensures var ops := [AddSymbolOp("X", 0.0), UpdateOp(u, c), RemoveSymbolOp("X")];
            && "X" in Run(30.0, ops).books && "X" !in Run(30.0, ops).active
            && LastTouch(30.0, ops, "X") == 1000.0
  {
    hide Step, Invariant, Run, UpdatesOf;
    var add, update, remove := AddSymbolOp("X", 0.0), UpdateOp(u, c), RemoveSymbolOp("X");
    assert [add, update, remove] == [add, update] + [remove] && [add, update] == [add] + [update]
      && [add] == [] + [add];
    RunAppends(30.0, [], add);
    RunAppends(30.0, [add], update);
    RunAppends(30.0, [add, update], remove);
    TouchedSteps(Run(30.0, []), add, update, remove);
    UpdatesSnoc(30.0, [add], update, "X");
    UpdatesSnoc(30.0, [add, update], remove, "X");
  }

  lemma UpdatesSnoc(threshold: real, ops: seq<Op>, op: Op, s: Symbol)
    requires s in Run(threshold, ops + [op]).books
    ensures UpdatesOf(threshold, ops + [op], s)
         == UpdatesOf(threshold, ops, s)
            + if IsUpdateOf(op, s) then [Taken(op.update, op.clocks, Run(threshold, ops).handlers > 0)] else []
  {
    hide Run;
    assert (ops + [op])[..|ops|] == ops;
    assert UpdatesOf(threshold, ops, s) + [] == UpdatesOf(threshold, ops, s);
  }

  lemma TouchedSteps(st: State, add: Op, update: Op, remove: Op)
    requires Invariant(st) && add == AddSymbolOp("X", 0.0) && IsUpdateOf(update, "X") && remove == RemoveSymbolOp("X")
    ensures var added := Step(30.0, st, add);
            && Invariant(added) && "X" in added.books
            && var updated := Step(30.0, added, update);
            && Invariant(updated) && "X" in updated.books
            && var removed := Step(30.0, updated, remove);
            && "X" in removed.books && "X" !in removed.active
  {
    hide Invariant, Applied, Stale, NewStats;
    StepKeeps(30.0, st, add);
    var added := Step(30.0, st, add);
    StepKeeps(30.0, added, update);
    HandlersMakeUpdatesFail(added, update.update, update.clocks);
  }
}
