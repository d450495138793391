/** The AMIA simulation on values: which positions a run opens and closes, and what holds over every run. */
module AmiaLifecycle {
  import opened Sums

  datatype PositionStatus = OPEN | CLOSED | FORCE_CLOSED

  /** Position ids carry the entry time and a running number. */
  datatype PositionId = PositionId(timestamp: real, counter: nat)

  datatype Quotes = Quotes(spotBid: real, spotAsk: real, futuresBid: real, futuresAsk: real)

  datatype Row = Row(time: real, quotes: Quotes, entrySignal: bool, exitSignal: bool, entryScore: real, exitScore: real)

  /** What opening fixes in a position. */
  datatype Entry = Entry(id: PositionId, time: real, spotPrice: real, futuresPrice: real, size: real, score: real)

  /** What closing writes into a position. */
  datatype Exit = Exit(
    time: real, spotPrice: real, futuresPrice: real, spotPnl: real, futuresPnl: real, totalPnl: real, score: real,
    holdHours: real)

  datatype Trade = Trade(entry: Entry, status: PositionStatus, exit: Exit)

  datatype Limits = Limits(maxPositions: nat, maxHoldHours: real, positionSize: real)

  datatype Book = Book(active: seq<Entry>, closed: seq<Trade>, counter: nat)

  const EMPTY := Book([], [], 0)

  /** The quotes a position is entered at are positive. */
  ghost predicate Quoted(q: Quotes)
  {
    q.spotAsk > 0.0 && q.futuresBid > 0.0
  }

  ghost predicate AllQuoted(rows: seq<Row>)
  {
    forall i :: 0 <= i < |rows| ==> Quoted(rows[i].quotes)
  }

  predicate Priced(e: Entry)
  {
    e.spotPrice > 0.0 && e.futuresPrice > 0.0
  }

  ghost predicate AllPriced(es: seq<Entry>)
  {
    forall i :: 0 <= i < |es| ==> Priced(es[i])
  }

  function HoldHours(entryTime: real, now: real): real
  {
    (now - entryTime) / 3600.0
  }

  /** Spot is sold at the bid, futures are bought back at the ask. */
  function ExitOf(e: Entry, now: real, q: Quotes, score: real): Exit
    requires Priced(e)
  {
    var spot := (q.spotBid - e.spotPrice) * e.size / e.spotPrice;
    var futures := (e.futuresPrice - q.futuresAsk) * e.size / e.futuresPrice;
    Exit(now, q.spotBid, q.futuresAsk, spot, futures, spot + futures, score, HoldHours(e.time, now))
  }

  function EntryAt(c: Limits, row: Row, counter: nat): Entry
  {
    Entry(PositionId(row.time, counter), row.time, row.quotes.spotAsk, row.quotes.futuresBid, c.positionSize,
          row.entryScore)
  }

  /** The entries held for at least the maximum time. */
  function Aged(es: seq<Entry>, now: real, maxHold: real): seq<Entry>
  {
    if |es| == 0 then []
    else
      var n := |es| - 1;
      Aged(es[..n], now, maxHold) + if HoldHours(es[n].time, now) >= maxHold then [es[n]] else []
  }

  /** The entries held for less. */
  function Young(es: seq<Entry>, now: real, maxHold: real): seq<Entry>
  {
    if |es| == 0 then []
    else
      var n := |es| - 1;
      Young(es[..n], now, maxHold) + if HoldHours(es[n].time, now) >= maxHold then [] else [es[n]]
  }

  lemma {:induction false} PartsPriced(es: seq<Entry>, now: real, maxHold: real)
    requires AllPriced(es)
    ensures AllPriced(Aged(es, now, maxHold)) && AllPriced(Young(es, now, maxHold))
  {
    if |es| == 0 {
    } else {
      PartsPriced(es[..|es| - 1], now, maxHold);
    }
  }

  /** All entries closed on one row. */
  ghost function CloseAll(es: seq<Entry>, row: Row, status: PositionStatus): (ts: seq<Trade>)
    requires AllPriced(es)
    ensures |ts| == |es|
  {
    seq(|es|, i requires 0 <= i < |es| => Trade(es[i], status, ExitOf(es[i], row.time, row.quotes, row.exitScore)))
  }

  /** The forced closes of one row. */
  ghost function AfterForce(c: Limits, b: Book, row: Row): (r: Book)
    requires AllPriced(b.active)
    ensures AllPriced(r.active)
  {
    PartsPriced(b.active, row.time, c.maxHoldHours);
    Book(Young(b.active, row.time, c.maxHoldHours),
         b.closed + CloseAll(Aged(b.active, row.time, c.maxHoldHours), row, FORCE_CLOSED), b.counter)
  }

  /** The signals of one row: an entry if there is room, or else an exit of everything. */
  ghost function AfterSignals(c: Limits, b: Book, row: Row): (r: Book)
    requires AllPriced(b.active) && Quoted(row.quotes)
    ensures AllPriced(r.active)
  {
    if row.entrySignal && |b.active| < c.maxPositions then
      Book(b.active + [EntryAt(c, row, b.counter + 1)], b.closed, b.counter + 1)
    else if row.exitSignal then Book([], b.closed + CloseAll(b.active, row, CLOSED), b.counter)
    else b
  }

  ghost function AfterRow(c: Limits, b: Book, row: Row): (r: Book)
    requires AllPriced(b.active) && Quoted(row.quotes)
    ensures AllPriced(r.active)
  {
    AfterSignals(c, AfterForce(c, b, row), row)
  }

  ghost function AfterRows(c: Limits, b: Book, rows: seq<Row>): (r: Book)
    requires AllPriced(b.active) && AllQuoted(rows)
    ensures AllPriced(r.active)
  {
    if |rows| == 0 then b else AfterRow(c, AfterRows(c, b, rows[..|rows| - 1]), rows[|rows| - 1])
  }

  // ----- one row, in times, quotes and limits

  /** Held for less than the maximum number of hours; times are in seconds. */
  function Held(c: Limits, row: Row): Entry -> bool
  {
    (e: Entry) => row.time < e.time + 3600.0 * c.maxHoldHours
  }

  function Overdue(c: Limits, row: Row): Entry -> bool
  {
    (e: Entry) => row.time >= e.time + 3600.0 * c.maxHoldHours
  }

  lemma HoursAgo(entry: real, now: real, hours: real)
    ensures HoldHours(entry, now) >= hours <==> now >= entry + 3600.0 * hours
    ensures HoldHours(entry, now) * 3600.0 == now - entry
  {
  }

  lemma {:induction false} PartsByAge(es: seq<Entry>, c: Limits, row: Row)
    ensures Young(es, row.time, c.maxHoldHours) == Filter(es, Held(c, row))
    ensures Aged(es, row.time, c.maxHoldHours) == Filter(es, Overdue(c, row))
  {
    if |es| == 0 {
    } else {
      hide HoldHours;
      var n := |es| - 1;
      PartsByAge(es[..n], c, row);
      HoursAgo(es[n].time, row.time, c.maxHoldHours);
      assert Filter(es[..n], Held(c, row)) + [] == Filter(es[..n], Held(c, row));
      assert Filter(es[..n], Overdue(c, row)) + [] == Filter(es[..n], Overdue(c, row));
    }
  }

  /** A position entered on the row: spot is bought at the ask, futures are sold at the bid. */
  ghost predicate EnteredOn(e: Entry, c: Limits, row: Row, counter: nat)
  {
    && e.id == PositionId(row.time, counter) && e.time == row.time && e.size == c.positionSize
    && e.spotPrice == row.quotes.spotAsk && e.futuresPrice == row.quotes.futuresBid && e.score == row.entryScore
  }

  /** The position e closed on the row: spot is sold at the bid, futures are bought back at the ask, and each leg
      earns its price difference on the units bought or sold at entry. */
  ghost predicate ClosedOn(t: Trade, e: Entry, row: Row, status: PositionStatus)
  {
    && t.entry == e && t.status == status
    && t.exit.time == row.time && t.exit.score == row.exitScore
    && t.exit.spotPrice == row.quotes.spotBid && t.exit.futuresPrice == row.quotes.futuresAsk
    && t.exit.spotPnl * e.spotPrice == (row.quotes.spotBid - e.spotPrice) * e.size
    && t.exit.futuresPnl * e.futuresPrice == (e.futuresPrice - row.quotes.futuresAsk) * e.size
    && t.exit.totalPnl == t.exit.spotPnl + t.exit.futuresPnl
    && t.exit.holdHours * 3600.0 == row.time - e.time
  }

  lemma Quotient(x: real, y: real)
    requires y != 0.0
    ensures (x / y) * y == x
  {
  }

  lemma CloseIs(e: Entry, row: Row, status: PositionStatus)
    requires Priced(e)
    ensures ClosedOn(Trade(e, status, ExitOf(e, row.time, row.quotes, row.exitScore)), e, row, status)
  {
    Quotient((row.quotes.spotBid - e.spotPrice) * e.size, e.spotPrice);
    Quotient((e.futuresPrice - row.quotes.futuresAsk) * e.size, e.futuresPrice);
    HoursAgo(e.time, row.time, 0.0);
  }

  /** These entries closed on the row, in order. */
  ghost predicate AllClosedOn(ts: seq<Trade>, es: seq<Entry>, row: Row, status: PositionStatus)
  {
    |ts| == |es| && forall i :: 0 <= i < |ts| ==> ClosedOn(ts[i], es[i], row, status)
  }

  lemma CloseAllIs(es: seq<Entry>, row: Row, status: PositionStatus)
    requires AllPriced(es)
    ensures AllClosedOn(CloseAll(es, row, status), es, row, status)
  {
    hide ClosedOn, ExitOf;
    forall i | 0 <= i < |es|
      ensures ClosedOn(CloseAll(es, row, status)[i], es[i], row, status)
    {
      CloseIs(es[i], row, status);
    }
  }

  /** What one row does. Positions held for the maximum are force closed. If there is then an entry signal and room, one
      position is entered and the rest stay; otherwise an exit signal closes all the rest, and without one they stay. */
  ghost predicate RowDoes(c: Limits, b: Book, row: Row, r: Book, forced: seq<Trade>, exited: seq<Trade>)
  {
    var stay, overdue := Filter(b.active, Held(c, row)), Filter(b.active, Overdue(c, row));
    && AllClosedOn(forced, overdue, row, FORCE_CLOSED)
    && r.closed == b.closed + forced + exited
    && if row.entrySignal && |stay| < c.maxPositions
       then
         && r.counter == b.counter + 1 && exited == []
         && |r.active| == |stay| + 1 && r.active[..|stay|] == stay && EnteredOn(r.active[|stay|], c, row, r.counter)
       else
         && r.counter == b.counter
         && if row.exitSignal then r.active == [] && AllClosedOn(exited, stay, row, CLOSED)
            else r.active == stay && exited == []
  }

  lemma RowExactly(c: Limits, b: Book, row: Row) returns (forced: seq<Trade>, exited: seq<Trade>)
    requires AllPriced(b.active) && Quoted(row.quotes)
    ensures RowDoes(c, b, row, AfterRow(c, b, row), forced, exited)
  {
    hide ClosedOn, ExitOf, Filter, Aged, Young, CloseAll, AllPriced, AllClosedOn;
    PartsByAge(b.active, c, row);
    PartsPriced(b.active, row.time, c.maxHoldHours);
    var stay, overdue := Filter(b.active, Held(c, row)), Filter(b.active, Overdue(c, row));
    forced := CloseAll(overdue, row, FORCE_CLOSED);
    CloseAllIs(overdue, row, FORCE_CLOSED);
    CloseAllIs(stay, row, CLOSED);
    exited := if !(row.entrySignal && |stay| < c.maxPositions) && row.exitSignal then CloseAll(stay, row, CLOSED)
      else [];
    assert b.closed + forced + [] == b.closed + forced;
  }

  // ----- every position is in exactly one list, under its own number

  function Ids(es: seq<Entry>): multiset<nat>
  {
    if |es| == 0 then multiset{} else Ids(es[..|es| - 1]) + multiset{es[|es| - 1].id.counter}
  }

  function ClosedIds(ts: seq<Trade>): multiset<nat>
  {
    if |ts| == 0 then multiset{} else ClosedIds(ts[..|ts| - 1]) + multiset{ts[|ts| - 1].entry.id.counter}
  }

  /** The numbers 1 to n, once each. */
  function Upto(n: nat): (r: multiset<nat>)
    ensures |r| == n && forall k: nat :: r[k] == if 1 <= k <= n then 1 else 0
  {
    if n == 0 then multiset{} else Upto(n - 1) + multiset{n}
  }

  lemma IdsSnoc(es: seq<Entry>, e: Entry)
    ensures Ids(es + [e]) == Ids(es) + multiset{e.id.counter}
  {
    assert (es + [e])[..|es|] == es;
  }

  /** The last entry goes to one of the two parts. */
  lemma PartsSnoc(es: seq<Entry>, now: real, maxHold: real)
    requires |es| > 0
    ensures var n := |es| - 1;
            var aged, young := Aged(es[..n], now, maxHold), Young(es[..n], now, maxHold);
            || (Aged(es, now, maxHold) == aged + [es[n]] && Young(es, now, maxHold) == young)
            || (Aged(es, now, maxHold) == aged && Young(es, now, maxHold) == young + [es[n]])
  {
    var n := |es| - 1;
    assert Aged(es[..n], now, maxHold) + [] == Aged(es[..n], now, maxHold);
    assert Young(es[..n], now, maxHold) + [] == Young(es[..n], now, maxHold);
  }

  lemma Regroup(a: multiset<nat>, b: multiset<nat>, c: multiset<nat>)
    ensures (a + c) + b == (a + b) + c && a + (b + c) == (a + b) + c
  {
  }

  lemma {:induction false} PartsIds(es: seq<Entry>, now: real, maxHold: real)
    ensures Ids(Aged(es, now, maxHold)) + Ids(Young(es, now, maxHold)) == Ids(es)
  {
    if |es| == 0 {
    } else {
      PartsIds(es[..|es| - 1], now, maxHold);
      PartsIdsStep(es, now, maxHold);
    }
  }

  lemma PartsIdsStep(es: seq<Entry>, now: real, maxHold: real)
    requires |es| > 0
    requires var es' := es[..|es| - 1]; Ids(Aged(es', now, maxHold)) + Ids(Young(es', now, maxHold)) == Ids(es')
    ensures Ids(Aged(es, now, maxHold)) + Ids(Young(es, now, maxHold)) == Ids(es)
  {
    hide *;
    var n := |es| - 1;
    PartsSnoc(es, now, maxHold);
    OneMorePart(Aged(es[..n], now, maxHold), Young(es[..n], now, maxHold), es[..n], es[n]);
    assert es == es[..n] + [es[n]];
  }

  lemma OneMorePart(aged: seq<Entry>, young: seq<Entry>, es: seq<Entry>, e: Entry)
    requires Ids(aged) + Ids(young) == Ids(es)
    ensures Ids(aged + [e]) + Ids(young) == Ids(es + [e])
    ensures Ids(aged) + Ids(young + [e]) == Ids(es + [e])
  {
    hide *;
    IdsSnoc(aged, e);
    IdsSnoc(young, e);
    IdsSnoc(es, e);
    Regroup(Ids(aged), Ids(young), multiset{e.id.counter});
  }

  lemma ClosedIdsSnoc(ts: seq<Trade>, t: Trade)
    ensures ClosedIds(ts + [t]) == ClosedIds(ts) + multiset{t.entry.id.counter}
  {
    assert (ts + [t])[..|ts|] == ts;
  }

  /** Closing one more entry adds one trade. */
  lemma CloseAllSnoc(es: seq<Entry>, row: Row, status: PositionStatus) returns (t: Trade)
    requires AllPriced(es) && |es| > 0
    ensures t.entry == es[|es| - 1]
    ensures CloseAll(es, row, status) == CloseAll(es[..|es| - 1], row, status) + [t]
  {
    hide ExitOf;
    t := CloseAll(es, row, status)[|es| - 1];
  }

  lemma {:induction false} CloseAllIds(ts: seq<Trade>, es: seq<Entry>, row: Row, status: PositionStatus)
    requires AllPriced(es)
    ensures ClosedIds(ts + CloseAll(es, row, status)) == ClosedIds(ts) + Ids(es)
  {
    hide ExitOf, Priced;
    if |es| == 0 {
      assert ts + CloseAll(es, row, status) == ts;
    } else {
      var n := |es| - 1;
      CloseAllIds(ts, es[..n], row, status);
      var t := CloseAllSnoc(es, row, status);
      OneMoreId(ts, CloseAll(es[..n], row, status), t, es[..n], es[n]);
      assert es == es[..n] + [es[n]];
    }
  }

  lemma OneMoreId(ts: seq<Trade>, before: seq<Trade>, t: Trade, es: seq<Entry>, e: Entry)
    requires ClosedIds(ts + before) == ClosedIds(ts) + Ids(es) && t.entry == e
    ensures ClosedIds(ts + (before + [t])) == ClosedIds(ts) + Ids(es + [e])
  {
    hide *;
    assert ts + (before + [t]) == (ts + before) + [t];
    ClosedIdsSnoc(ts + before, t);
    IdsSnoc(es, e);
    Regroup(ClosedIds(ts), Ids(es), multiset{e.id.counter});
  }

  lemma {:induction false} IdsSize(es: seq<Entry>)
    ensures |Ids(es)| == |es|
  {
    if |es| == 0 {
    } else {
      IdsSize(es[..|es| - 1]);
    }
  }

  lemma {:induction false} ClosedIdsSize(ts: seq<Trade>)
    ensures |ClosedIds(ts)| == |ts|
  {
    if |ts| == 0 {
    } else {
      ClosedIdsSize(ts[..|ts| - 1]);
    }
  }

  /** The active and the closed positions together carry the numbers 1 to counter, once each. */
  ghost predicate Numbered(b: Book)
  {
    Ids(b.active) + ClosedIds(b.closed) == Upto(b.counter)
  }

  lemma {:induction false} RowKeepsNumbers(c: Limits, b: Book, row: Row)
    requires AllPriced(b.active) && Quoted(row.quotes) && Numbered(b)
    ensures Numbered(AfterRow(c, b, row))
  {
    hide Aged, Young, CloseAll, Ids, ClosedIds, EntryAt;
    var aged, young := Aged(b.active, row.time, c.maxHoldHours), Young(b.active, row.time, c.maxHoldHours);
    PartsPriced(b.active, row.time, c.maxHoldHours);
    PartsIds(b.active, row.time, c.maxHoldHours);
    CloseAllIds(b.closed, aged, row, FORCE_CLOSED);
    CloseAllIds(b.closed + CloseAll(aged, row, FORCE_CLOSED), young, row, CLOSED);
    IdsSnoc(young, EntryAt(c, row, b.counter + 1));
    NewNumber(c, row, b.counter + 1);
    NoIds();
  }

  lemma NoIds()
    ensures Ids([]) == multiset{}
  {
  }

  lemma NewNumber(c: Limits, row: Row, counter: nat)
    ensures EntryAt(c, row, counter).id.counter == counter
  {
  }

  /** Over every run of rows from an empty book: no position is lost, duplicated or in both lists, the
      counter is their total, and the number of active positions respects the maximum. */
  lemma {:induction false} EveryPositionOnce(c: Limits, rows: seq<Row>)
    requires AllQuoted(rows)
    ensures var b := AfterRows(c, EMPTY, rows);
            Numbered(b) && |b.active| + |b.closed| == b.counter <= |rows| && |b.active| <= c.maxPositions
  {
    var b := AfterRows(c, EMPTY, rows);
    if |rows| > 0 {
      EveryPositionOnce(c, rows[..|rows| - 1]);
      RowKeepsNumbers(c, AfterRows(c, EMPTY, rows[..|rows| - 1]), rows[|rows| - 1]);
      YoungAreFewer(AfterRows(c, EMPTY, rows[..|rows| - 1]).active, rows[|rows| - 1].time, c.maxHoldHours);
      hide Numbered, Aged, Young, CloseAll, EntryAt;
    }
    CountsFromNumbers(b);
  }

  lemma CountsFromNumbers(b: Book)
    requires Numbered(b)
    ensures |b.active| + |b.closed| == b.counter
  {
    IdsSize(b.active);
    ClosedIdsSize(b.closed);
    assert |Ids(b.active) + ClosedIds(b.closed)| == |Ids(b.active)| + |ClosedIds(b.closed)|;
  }

  lemma {:induction false} YoungAreFewer(es: seq<Entry>, now: real, maxHold: real)
    ensures |Young(es, now, maxHold)| <= |es|
  {
    if |es| == 0 {
    } else {
      YoungAreFewer(es[..|es| - 1], now, maxHold);
    }
  }

  // ----- ages

  lemma {:induction false} AgesOfParts(es: seq<Entry>, now: real, maxHold: real)
    ensures forall i :: 0 <= i < |Aged(es, now, maxHold)| ==> HoldHours(Aged(es, now, maxHold)[i].time, now) >= maxHold
    ensures forall i :: 0 <= i < |Young(es, now, maxHold)| ==> HoldHours(Young(es, now, maxHold)[i].time, now) < maxHold
  {
    if |es| == 0 {
    } else {
      AgesOfParts(es[..|es| - 1], now, maxHold);
    }
  }

  /** The status of a closed position tells whether it reached the maximum holding time, and its exit is
      the one computed from its own entry. */
  ghost predicate Judged(c: Limits, t: Trade)
  {
    && t.status != OPEN && (t.status == FORCE_CLOSED <==> t.exit.holdHours >= c.maxHoldHours)
    && t.exit.holdHours == HoldHours(t.entry.time, t.exit.time)
    && t.exit.totalPnl == t.exit.spotPnl + t.exit.futuresPnl
  }

  ghost predicate AllJudged(c: Limits, ts: seq<Trade>)
  {
    forall i :: 0 <= i < |ts| ==> Judged(c, ts[i])
  }

  lemma ClosedByAge(c: Limits, es: seq<Entry>, row: Row)
    requires AllPriced(es) && forall i :: 0 <= i < |es| ==> HoldHours(es[i].time, row.time) >= c.maxHoldHours
    ensures AllJudged(c, CloseAll(es, row, FORCE_CLOSED))
  {
  }

  lemma ClosedBySignal(c: Limits, es: seq<Entry>, row: Row)
    requires AllPriced(es) && forall i :: 0 <= i < |es| ==> HoldHours(es[i].time, row.time) < c.maxHoldHours
    ensures AllJudged(c, CloseAll(es, row, CLOSED))
  {
  }

  /** Active positions of the row's book either entered on this row or are younger than the maximum. */
  ghost predicate NoneOverstays(c: Limits, b: Book, now: real)
  {
    forall i :: 0 <= i < |b.active| ==> b.active[i].time == now || HoldHours(b.active[i].time, now) < c.maxHoldHours
  }

  lemma RowJudges(c: Limits, b: Book, row: Row)
    requires AllPriced(b.active) && Quoted(row.quotes) && AllJudged(c, b.closed)
    ensures AllJudged(c, AfterRow(c, b, row).closed)
    ensures NoneOverstays(c, AfterRow(c, b, row), row.time)
    ensures b.closed <= AfterRow(c, b, row).closed
  {
    hide Aged, Young, CloseAll, Judged, HoldHours;
    var aged, young := Aged(b.active, row.time, c.maxHoldHours), Young(b.active, row.time, c.maxHoldHours);
    PartsPriced(b.active, row.time, c.maxHoldHours);
    AgesOfParts(b.active, row.time, c.maxHoldHours);
    ClosedByAge(c, aged, row);
    ClosedBySignal(c, young, row);
  }

  /** Over every run, whatever the order of times: CLOSED positions were held for less than the maximum,
      FORCE_CLOSED ones for at least that, and no survivor of a row has reached it. */
  lemma {:induction false} EveryCloseIsJudged(c: Limits, rows: seq<Row>)
    requires AllQuoted(rows)
    ensures AllJudged(c, AfterRows(c, EMPTY, rows).closed)
    ensures |rows| > 0 ==> NoneOverstays(c, AfterRows(c, EMPTY, rows), rows[|rows| - 1].time)
  {
    if |rows| == 0 {
    } else {
      EveryCloseIsJudged(c, rows[..|rows| - 1]);
      RowJudges(c, AfterRows(c, EMPTY, rows[..|rows| - 1]), rows[|rows| - 1]);
      hide AllJudged, NoneOverstays, AfterRow;
    }
  }

  /** A closed position stays as it is: the closed list only grows at its end. */
  lemma {:induction false} ClosedIsFinal(c: Limits, b: Book, rows: seq<Row>, n: nat)
    requires AllPriced(b.active) && AllQuoted(rows) && n <= |rows|
    ensures AfterRows(c, b, rows[..n]).closed <= AfterRows(c, b, rows).closed
  {
    if n == |rows| {
      assert rows[..n] == rows;
    } else {
      var m := |rows| - 1;
      ClosedIsFinal(c, b, rows[..m], n);
      assert rows[..m][..n] == rows[..n];
      RowAppends(c, AfterRows(c, b, rows[..m]), rows[m]);
    }
  }

  lemma RowAppends(c: Limits, b: Book, row: Row)
    requires AllPriced(b.active) && Quoted(row.quotes)
    ensures b.closed <= AfterRow(c, b, row).closed
  {
    hide Aged, Young, CloseAll;
  }

  ghost predicate InOrder(rows: seq<Row>)
  {
    forall i, j :: 0 <= i < j < |rows| ==> rows[i].time <= rows[j].time
  }

  /** Nothing in the book is later than `now`, and nothing closed before it was opened. */
  ghost predicate Past(b: Book, now: real)
  {
    && (forall i :: 0 <= i < |b.active| ==> b.active[i].time <= now)
    && (forall i :: 0 <= i < |b.closed| ==> b.closed[i].entry.time <= b.closed[i].exit.time <= now)
  }

  lemma {:induction false} PartsPast(es: seq<Entry>, now: real, maxHold: real, then': real)
    requires forall i :: 0 <= i < |es| ==> es[i].time <= then'
    ensures forall i :: 0 <= i < |Aged(es, now, maxHold)| ==> Aged(es, now, maxHold)[i].time <= then'
    ensures forall i :: 0 <= i < |Young(es, now, maxHold)| ==> Young(es, now, maxHold)[i].time <= then'
  {
    if |es| == 0 {
    } else {
      PartsPast(es[..|es| - 1], now, maxHold, then');
    }
  }

  lemma RowStaysPast(c: Limits, b: Book, row: Row, before: real)
    requires AllPriced(b.active) && Quoted(row.quotes) && Past(b, before) && before <= row.time
    ensures Past(AfterRow(c, b, row), row.time)
  {
    hide Aged, Young, Priced;
    PartsPriced(b.active, row.time, c.maxHoldHours);
    PartsPast(b.active, row.time, c.maxHoldHours, row.time);
  }

  /** On rows in time order no holding time is negative. */
  lemma {:induction false} NothingClosesEarly(c: Limits, rows: seq<Row>)
    requires AllQuoted(rows) && InOrder(rows) && |rows| > 0
    ensures Past(AfterRows(c, EMPTY, rows), rows[|rows| - 1].time)
  {
    var n := |rows| - 1;
    if n > 0 {
      NothingClosesEarly(c, rows[..n]);
      RowStaysPast(c, AfterRows(c, EMPTY, rows[..n]), rows[n], rows[n - 1].time);
    } else {
      assert AfterRows(c, EMPTY, rows[..0]) == EMPTY;
      RowStaysPast(c, EMPTY, rows[0], rows[0].time);
    }
  }
}
