/** AMIA position objects and their manager, proved against the simulation on values. */
module AmiaPositions {
  import opened Sums
  import opened AmiaLifecycle

  class AMIAPosition {
    const id: PositionId
    const entryTime: real
    const spotEntryPrice: real
    const futuresEntryPrice: real
    const positionSize: real
    const entryScore: real
    var status: PositionStatus
    var exit: Option<Exit>

    constructor (id: PositionId, entryTime: real, spotEntryPrice: real, futuresEntryPrice: real, positionSize: real,
                 entryScore: real)
      ensures this.id == id && this.entryTime == entryTime && this.spotEntryPrice == spotEntryPrice
      ensures this.futuresEntryPrice == futuresEntryPrice && this.positionSize == positionSize
      ensures this.entryScore == entryScore && status == OPEN && exit == None
    {
      this.id, this.entryTime, this.spotEntryPrice := id, entryTime, spotEntryPrice;
      this.futuresEntryPrice, this.positionSize, this.entryScore := futuresEntryPrice, positionSize, entryScore;
      status, exit := OPEN, None;
    }
  }

  /** Equality of positions compares all fields. */
  predicate Equal(p: AMIAPosition, q: AMIAPosition)
    reads p, q
  {
    && p.id == q.id && p.entryTime == q.entryTime
    && p.spotEntryPrice == q.spotEntryPrice && p.futuresEntryPrice == q.futuresEntryPrice
    && p.positionSize == q.positionSize && p.entryScore == q.entryScore
    && p.status == q.status && p.exit == q.exit
  }

  /** What opening fixed in p. */
  function EntryOf(p: AMIAPosition): Entry
  {
    Entry(p.id, p.entryTime, p.spotEntryPrice, p.futuresEntryPrice, p.positionSize, p.entryScore)
  }

  function Entries(ps: seq<AMIAPosition>): (es: seq<Entry>)
    ensures |es| == |ps|
  {
    if |ps| == 0 then [] else Entries(ps[..|ps| - 1]) + [EntryOf(ps[|ps| - 1])]
  }

  lemma EntriesSnoc(ps: seq<AMIAPosition>, p: AMIAPosition)
    ensures Entries(ps + [p]) == Entries(ps) + [EntryOf(p)]
  {
    assert (ps + [p])[..|ps|] == ps;
  }

  ghost predicate AllClosed(ps: seq<AMIAPosition>)
    reads ps
  {
    forall i :: 0 <= i < |ps| ==> ps[i].exit.Some?
  }

  /** What closed positions hold. */
  ghost function Trades(ps: seq<AMIAPosition>): (ts: seq<Trade>)
    reads ps
    requires AllClosed(ps)
    ensures |ts| == |ps|
  {
    if |ps| == 0 then []
    else
      var p := ps[|ps| - 1];
      Trades(ps[..|ps| - 1]) + [Trade(EntryOf(p), p.status, p.exit.value)]
  }

  lemma TradesSnoc(ps: seq<AMIAPosition>, p: AMIAPosition)
    requires AllClosed(ps) && p.exit.Some?
    ensures AllClosed(ps + [p]) && Trades(ps + [p]) == Trades(ps) + [Trade(EntryOf(p), p.status, p.exit.value)]
  {
    assert (ps + [p])[..|ps|] == ps;
  }

  /** The positions of ps that are not in `gone`, in order. */
  function Minus(ps: seq<AMIAPosition>, gone: set<AMIAPosition>): seq<AMIAPosition>
  {
    if |ps| == 0 then []
    else
      var rest := Minus(ps[..|ps| - 1], gone);
      if ps[|ps| - 1] in gone then rest else rest + [ps[|ps| - 1]]
  }

  /** The positions held for at least the maximum time. */
  function AgedOf(ps: seq<AMIAPosition>, now: real, maxHold: real): seq<AMIAPosition>
  {
    if |ps| == 0 then []
    else
      var rest := AgedOf(ps[..|ps| - 1], now, maxHold);
      if HoldHours(ps[|ps| - 1].entryTime, now) >= maxHold then rest + [ps[|ps| - 1]] else rest
  }

  function Elements(ps: seq<AMIAPosition>): set<AMIAPosition>
  {
    set p | p in ps
  }

  lemma {:induction false} MinusMember(ps: seq<AMIAPosition>, gone: set<AMIAPosition>)
    ensures forall p :: p in Minus(ps, gone) <==> p in ps && p !in gone
    ensures |Minus(ps, gone)| <= |ps|
  {
    if |ps| == 0 {
    } else {
      var n := |ps| - 1;
      MinusMember(ps[..n], gone);
      assert forall p :: p in ps <==> p in ps[..n] || p == ps[n];
    }
  }

  lemma {:induction false} MinusTwice(ps: seq<AMIAPosition>, a: set<AMIAPosition>, b: set<AMIAPosition>)
    ensures Minus(Minus(ps, a), b) == Minus(ps, a + b)
  {
    if |ps| == 0 {
    } else {
      var n := |ps| - 1;
      MinusTwice(ps[..n], a, b);
      if ps[n] !in a {
        var r := Minus(ps[..n], a) + [ps[n]];
        assert r[..|r| - 1] == Minus(ps[..n], a);
      }
    }
  }

  lemma {:induction false} MinusNothing(ps: seq<AMIAPosition>, gone: set<AMIAPosition>)
    requires forall p :: p in ps ==> p !in gone
    ensures Minus(ps, gone) == ps
  {
    if |ps| == 0 {
    } else {
      var n := |ps| - 1;
      assert ps[n] in ps;
      MinusNothing(ps[..n], gone);
    }
  }

  lemma {:induction false} MinusAll(ps: seq<AMIAPosition>, gone: set<AMIAPosition>)
    requires forall p :: p in ps ==> p in gone
    ensures Minus(ps, gone) == []
  {
    if |ps| == 0 {
    } else {
      var n := |ps| - 1;
      assert ps[n] in ps;
      MinusAll(ps[..n], gone);
    }
  }

  lemma OnceOnly(ps: seq<AMIAPosition>, i: nat)
    requires Distinct(ps) && i < |ps|
    ensures ps[i] !in ps[..i] && ps[i] !in ps[i + 1..]
  {
  }

  /** Removing the one occurrence of a position. */
  lemma MinusOne(ps: seq<AMIAPosition>, i: nat)
    requires Distinct(ps) && i < |ps|
    ensures Minus(ps, {ps[i]}) == ps[..i] + ps[i + 1..]
  {
    hide *;
    OnceOnly(ps, i);
    var tail := [ps[i]] + ps[i + 1..];
    assert ps == ps[..i] + tail;
    MinusConcat(ps[..i], tail, {ps[i]});
    MinusConcat([ps[i]], ps[i + 1..], {ps[i]});
    MinusNothing(ps[..i], {ps[i]});
    MinusNothing(ps[i + 1..], {ps[i]});
    MinusAll([ps[i]], {ps[i]});
    assert [] + ps[i + 1..] == ps[i + 1..];
  }

  lemma {:induction false} MinusConcat(ps: seq<AMIAPosition>, qs: seq<AMIAPosition>, gone: set<AMIAPosition>)
    ensures Minus(ps + qs, gone) == Minus(ps, gone) + Minus(qs, gone)
  {
    if |qs| == 0 {
      assert ps + qs == ps;
    } else {
      var n := |qs| - 1;
      MinusConcat(ps, qs[..n], gone);
      assert (ps + qs)[..|ps + qs| - 1] == ps + qs[..n];
    }
  }

  lemma {:induction false} AgedMember(ps: seq<AMIAPosition>, now: real, maxHold: real)
    ensures forall p :: p in AgedOf(ps, now, maxHold) <==> p in ps && HoldHours(p.entryTime, now) >= maxHold
  {
    if |ps| == 0 {
    } else {
      var n := |ps| - 1;
      AgedMember(ps[..n], now, maxHold);
      assert forall p :: p in ps <==> p in ps[..n] || p == ps[n];
    }
  }

  lemma {:induction false} AgedDistinct(ps: seq<AMIAPosition>, now: real, maxHold: real)
    requires Distinct(ps)
    ensures Distinct(AgedOf(ps, now, maxHold))
  {
    if |ps| == 0 {
    } else {
      var n := |ps| - 1;
      AgedDistinct(ps[..n], now, maxHold);
      AgedMember(ps[..n], now, maxHold);
      assert ps[n] !in ps[..n];
    }
  }

  /** Selecting aged positions, or removing them, selects the same entries. */
  lemma {:induction false} PartsOfEntries(ps: seq<AMIAPosition>, gone: set<AMIAPosition>, now: real, maxHold: real)
    requires forall p :: p in ps ==> (p in gone <==> HoldHours(p.entryTime, now) >= maxHold)
    ensures Entries(AgedOf(ps, now, maxHold)) == Aged(Entries(ps), now, maxHold)
    ensures Entries(Minus(ps, gone)) == Young(Entries(ps), now, maxHold)
  {
    if |ps| == 0 {
    } else {
      var n := |ps| - 1;
      PartsOfEntries(ps[..n], gone, now, maxHold);
      PartsSnoc(Entries(ps), now, maxHold);
      assert ps[n] in ps;
      assert Entries(ps)[..n] == Entries(ps[..n]);
      EntriesSnoc(AgedOf(ps[..n], now, maxHold), ps[n]);
      EntriesSnoc(Minus(ps[..n], gone), ps[n]);
    }
  }

  lemma {:induction false} EntriesPriced(ps: seq<AMIAPosition>)
    requires forall p :: p in ps ==> p.spotEntryPrice > 0.0 && p.futuresEntryPrice > 0.0
    ensures AllPriced(Entries(ps))
  {
    if |ps| == 0 {
    } else {
      EntriesPriced(ps[..|ps| - 1]);
      assert ps[|ps| - 1] in ps;
    }
  }

  /** Closed positions followed by positions just closed on one row. */
  lemma {:induction false} TradesAfterClosing(
    before: seq<AMIAPosition>, ps: seq<AMIAPosition>, row: Row, status: PositionStatus)
    requires AllClosed(before) && forall p :: p in ps ==> ClosedAs(p, row, status)
    ensures AllClosed(before + ps) && AllPriced(Entries(ps))
    ensures Trades(before + ps) == Trades(before) + CloseAll(Entries(ps), row, status)
  {
    hide *;
    if |ps| == 0 {
      NothingClosed(before, ps, row, status);
    } else {
      var n := |ps| - 1;
      assert ps[n] in ps;
      assert forall p :: p in ps[..n] ==> p in ps;
      TradesAfterClosing(before, ps[..n], row, status);
      OneMoreClosed(before, ps[..n], ps[n], row, status);
      assert ps[..n] + [ps[n]] == ps;
    }
  }

  lemma NothingClosed(before: seq<AMIAPosition>, ps: seq<AMIAPosition>, row: Row, status: PositionStatus)
    requires |ps| == 0 && AllClosed(before)
    ensures AllClosed(before + ps) && AllPriced(Entries(ps))
    ensures Trades(before + ps) == Trades(before) + CloseAll(Entries(ps), row, status)
  {
    assert before + ps == before;
  }

  lemma OneMoreClosed(
    before: seq<AMIAPosition>, ps: seq<AMIAPosition>, p: AMIAPosition, row: Row, status: PositionStatus)
    requires AllClosed(before) && AllClosed(before + ps) && AllPriced(Entries(ps)) && ClosedAs(p, row, status)
    requires Trades(before + ps) == Trades(before) + CloseAll(Entries(ps), row, status)
    ensures AllClosed(before + (ps + [p])) && AllPriced(Entries(ps + [p]))
    ensures Trades(before + (ps + [p])) == Trades(before) + CloseAll(Entries(ps + [p]), row, status)
  {
    hide ExitOf, Entries, Trades;
    TradesSnoc(before + ps, p);
    EntriesSnoc(ps, p);
    assert before + (ps + [p]) == (before + ps) + [p];
    var es := Entries(ps) + [EntryOf(p)];
    var t := CloseAllSnoc(es, row, status);
    assert es[..|es| - 1] == Entries(ps);
    assert CloseAll(es, row, status)[|ps|] == t;
    assert Trades(before) + (CloseAll(Entries(ps), row, status) + [t])
        == (Trades(before) + CloseAll(Entries(ps), row, status)) + [t];
  }

  /** No two positions share an id. */
  ghost predicate UniqueIds(ps: seq<AMIAPosition>)
  {
    forall i, j :: 0 <= i < j < |ps| ==> ps[i].id.counter != ps[j].id.counter
  }

  lemma UniqueIdsDistinct(ps: seq<AMIAPosition>)
    requires UniqueIds(ps)
    ensures Distinct(ps)
  {
  }

  datatype RemoveError = NotInList

  /** Some active position equals this one. */
  ghost predicate HasEqual(active: seq<AMIAPosition>, position: AMIAPosition)
    reads active, position
  {
    exists p :: p in active && Equal(p, position)
  }

  class AMIAPositionManager {
    const maxPositions: nat
    const maxHoldHours: real
    const positionSize: real
    var active: seq<AMIAPosition>
    var closed: seq<AMIAPosition>
    var counter: nat

    function Bounds(): Limits
    {
      Limits(maxPositions, maxHoldHours, positionSize)
    }

    /** No two positions share an id, none is numbered past the counter, active positions are open. */
    ghost predicate Valid()
      reads this, active, closed
    {
      && UniqueIds(active + closed)
      && (forall p :: p in active ==> p.id.counter <= counter)
      && (forall p :: p in closed ==> p.id.counter <= counter)
      && (forall p :: p in active ==>
            p.status == OPEN && p.exit == None && p.spotEntryPrice > 0.0 && p.futuresEntryPrice > 0.0)
      && AllClosed(closed)
    }

    /** The manager's lists as values. */
    ghost function Now(): (b: Book)
      reads this, active, closed
      requires Valid()
      ensures AllPriced(b.active)
    {
      EntriesPriced(active);
      Book(Entries(active), Trades(closed), counter)
    }

    constructor (maxPositions: nat, maxHoldHours: real, positionSize: real)
      ensures Valid() && active == [] && Now() == EMPTY && Bounds() == Limits(maxPositions, maxHoldHours, positionSize)
    {
      this.maxPositions, this.maxHoldHours, this.positionSize := maxPositions, maxHoldHours, positionSize;
      active, closed, counter := [], [], 0;
    }

    /** Opens a position unless the maximum is reached. */
    method OpenPosition(row: Row) returns (r: Option<AMIAPosition>)
      requires Valid() && Quoted(row.quotes)
      modifies this
      ensures Valid() && closed == old(closed)
      ensures r.None? <==> |old(active)| >= maxPositions
      ensures r.None? ==> active == old(active) && counter == old(counter)
      ensures r.Some? ==>
        && fresh(r.value) && active == old(active) + [r.value] && counter == old(counter) + 1
        && EntryOf(r.value) == EntryAt(Bounds(), row, counter) && r.value.status == OPEN
    {
      if |active| >= maxPositions {
        return None;
      }
      counter := counter + 1;
      var position := new AMIAPosition(PositionId(row.time, counter), row.time, row.quotes.spotAsk,
                                       row.quotes.futuresBid, positionSize, row.entryScore);
      OneMore(active, closed, position);
      active := active + [position];
      r := Some(position);
    }

    /** First active position equal to the given one, or -1. */
    method IndexOf(position: AMIAPosition) returns (k: int)
      requires UniqueIds(active)
      ensures -1 <= k < |active|
      ensures k == -1 <==> forall p :: p in active ==> !Equal(p, position)
      ensures k >= 0 ==> Equal(active[k], position) && forall j :: 0 <= j < k ==> !Equal(active[j], position)
      ensures k >= 0 && position in active ==> active[k] == position
    {
      for i := 0 to |active|
        invariant forall j :: 0 <= j < i ==> !Equal(active[j], position)
      {
        if Equal(active[i], position) {
          assert active[i] in active;
          return i;
        }
      }
      return -1;
    }

    /** Closes a position: writes its exit, removes it from the active list by equality, and appends it to the
        closed list. A position equal to no active one is left alone. One that only equals an active position is
        written to before the removal finds nothing equal to it any more and raises. */
    method ClosePosition(position: AMIAPosition, row: Row, force: bool) returns (r: Result<real, RemoveError>)
      requires Valid()
      modifies this, position
      ensures Valid() && counter == old(counter)
      ensures if position in old(active) then
                && active == Minus(old(active), {position}) && closed == old(closed) + [position]
                && ClosedAs(position, row, StatusOf(force)) && r == Success(position.exit.value.totalPnl)
              else if old(HasEqual(active, position)) then
                && active == old(active) && closed == old(closed) && ClosedAs(position, row, StatusOf(force))
                && r == Failure(NotInList)
              else
                && active == old(active) && closed == old(closed) && r == Success(0.0)
                && position.status == old(position.status) && position.exit == old(position.exit)
    {
      hide Minus, UniqueIds, ExitOf;
      SplitUnique(active, closed);
      var k := IndexOf(position);
      if k == -1 {
        assert Equal(position, position);
        return Success(0.0);
      }
      assert active[k] in active && HasEqual(active, position);
      var exit := ExitOf(EntryOf(position), row.time, row.quotes, row.exitScore);
      position.exit := Some(exit);
      position.status := StatusOf(force);
      k := IndexOf(position);
      if k == -1 {
        assert Equal(position, position);
        return Failure(NotInList);
      }
      assert active[k] in active && position in active;
      MoveToClosed(k);
      return Success(exit.totalPnl);
    }

    /** Moves an active position that has just been written to the closed list. */
    method MoveToClosed(k: nat)
      requires k < |active| && UniqueIds(active + closed) && AllClosed(closed) && active[k].exit.Some?
      requires forall p :: p in active ==> p.id.counter <= counter
      requires forall p :: p in closed ==> p.id.counter <= counter
      requires forall p :: p in active && p != active[k] ==>
                 p.status == OPEN && p.exit == None && p.spotEntryPrice > 0.0 && p.futuresEntryPrice > 0.0
      modifies this`active, this`closed
      ensures Valid()
      ensures active == Minus(old(active), {old(active[k])}) && closed == old(closed) + [old(active[k])]
    {
      ghost var before := active;
      SplitUnique(active, closed);
      UniqueIdsDistinct(active);
      MinusOne(active, k);
      MinusMember(active, {active[k]});
      MovedOver(active, closed, k);
      var position := active[k];
      active := active[..k] + active[k + 1..];
      closed := closed + [position];
      assert forall p :: p in active ==> p in before && p != position;
    }

    /** The active positions that reached the maximum holding time, in list order. */
    method CheckForceClosePositions(now: real) returns (aged: seq<AMIAPosition>)
      ensures aged == AgedOf(active, now, maxHoldHours)
    {
      aged := [];
      for i := 0 to |active|
        invariant aged == AgedOf(active[..i], now, maxHoldHours)
      {
        assert active[..i + 1][..i] == active[..i];
        if HoldHours(active[i].entryTime, now) >= maxHoldHours {
          aged := aged + [active[i]];
        }
      }
      assert active[..|active|] == active;
    }

    lemma ListFacts()
      requires Valid()
      ensures AllClosed(closed) && Distinct(active) && forall p :: p in active ==> p !in closed
    {
      SplitUnique(active, closed);
      UniqueIdsDistinct(active);
    }

    /** Closes the given active positions one after the other. */
    method CloseEach(ps: seq<AMIAPosition>, row: Row, force: bool)
      requires Valid() && Distinct(ps)
      requires forall p :: p in ps ==> p in active
      modifies this, Elements(ps)
      ensures Valid() && counter == old(counter)
      ensures active == Minus(old(active), Elements(ps)) && closed == old(closed) + ps
      ensures AllClosed(closed) && AllPriced(Entries(ps))
      ensures Trades(closed) == old(Trades(closed)) + CloseAll(Entries(ps), row, StatusOf(force))
    {
      hide UniqueIds, Minus, ClosedAs, HoldHours, ExitOf, Valid, AllClosed, Trades, Entries, CloseAll;
      ListFacts();
      CloseEachObject(ps, row, force);
      TradesAfterClosing(old(closed), ps, row, StatusOf(force));
    }

    method CloseEachObject(ps: seq<AMIAPosition>, row: Row, force: bool)
      requires Valid() && Distinct(ps)
      requires forall p :: p in ps ==> p in active
      modifies this, Elements(ps)
      ensures Valid() && counter == old(counter)
      ensures active == Minus(old(active), Elements(ps)) && closed == old(closed) + ps
      ensures forall p :: p in ps ==> ClosedAs(p, row, StatusOf(force))
    {
      hide UniqueIds, Minus, ClosedAs, HoldHours, ExitOf, Valid;
      MinusNothing(active, Elements(ps[..0]));
      for i := 0 to |ps|
        invariant Valid() && counter == old(counter)
        invariant active == Minus(old(active), Elements(ps[..i])) && closed == old(closed) + ps[..i]
        invariant forall p :: p in ps[..i] ==> ClosedAs(p, row, StatusOf(force))
      {
        MinusMember(old(active), Elements(ps[..i]));
        assert ps[i] !in ps[..i];
        var r := ClosePosition(ps[i], row, force);
        assert ps[..i + 1] == ps[..i] + [ps[i]];
        MinusTwice(old(active), Elements(ps[..i]), {ps[i]});
        assert Elements(ps[..i + 1]) == Elements(ps[..i]) + {ps[i]};
      }
      assert ps[..|ps|] == ps;
    }

    /** Force closes every active position that reached the maximum holding time. */
    method ForceClose(row: Row)
      requires Valid()
      modifies this, Elements(active)
      ensures Valid() && Elements(active) <= old(Elements(active))
      ensures Now() == AfterForce(Bounds(), old(Now()), row)
    {
      hide UniqueIds, ClosedAs, HoldHours, ExitOf, Trades, Entries, CloseAll, Minus, AgedOf;
      ghost var before := active;
      var aged := CheckForceClosePositions(row.time);
      ListFacts();
      AgedMember(active, row.time, maxHoldHours);
      AgedDistinct(active, row.time, maxHoldHours);
      assert Elements(aged) <= old(Elements(active));
      CloseEach(aged, row, true);
      MinusMember(before, Elements(aged));
      PartsOfEntries(before, Elements(aged), row.time, maxHoldHours);
    }

    /** Acts on the row's signals: an entry if there is room, or else an exit of everything. */
    method ActOnSignals(row: Row)
      requires Valid() && Quoted(row.quotes)
      modifies this, Elements(active)
      ensures Valid() && fresh(Elements(active) - old(Elements(active)))
      ensures Now() == AfterSignals(Bounds(), old(Now()), row)
    {
      hide Valid, UniqueIds, ClosedAs, HoldHours, ExitOf, Trades, CloseAll, Minus, Distinct;
      ghost var before := active;
      if row.entrySignal && |active| < maxPositions {
        var position := OpenPosition(row);
        EntriesSnoc(before, position.value);
      } else if row.exitSignal && |active| > 0 {
        ListFacts();
        CloseEach(active, row, false);
        MinusAll(before, Elements(before));
      }
    }

    /** One row of the simulation. */
    method ProcessRow(row: Row)
      requires Valid() && Quoted(row.quotes)
      modifies this, Elements(active)
      ensures Valid() && fresh(Elements(active) - old(Elements(active)))
      ensures Now() == AfterRow(Bounds(), old(Now()), row)
    {
      hide Valid, AfterForce, AfterSignals;
      ForceClose(row);
      ActOnSignals(row);
    }

    /** Runs all rows; the trades returned are the closed positions. */
    method SimulateTrading(rows: seq<Row>) returns (trades: seq<AMIAPosition>)
      requires Valid() && AllQuoted(rows)
      modifies this, Elements(active)
      ensures Valid() && trades == closed
      ensures Now() == AfterRows(Bounds(), old(Now()), rows)
    {
      for i := 0 to |rows|
        invariant Valid() && fresh(Elements(active) - old(Elements(active)))
        invariant Now() == AfterRows(Bounds(), old(Now()), rows[..i])
      {
        assert rows[..i + 1][..i] == rows[..i];
        ProcessRow(rows[i]);
      }
      assert rows[..|rows|] == rows;
      return closed;
    }
  }

  function StatusOf(force: bool): PositionStatus
  {
    if force then FORCE_CLOSED else CLOSED
  }

  /** p was closed on this row: its status, its exit figures. */
  ghost predicate ClosedAs(p: AMIAPosition, row: Row, status: PositionStatus)
    reads p
  {
    && Priced(EntryOf(p)) && p.status == status
    && p.exit == Some(ExitOf(EntryOf(p), row.time, row.quotes, row.exitScore))
  }

  lemma OneMore(active: seq<AMIAPosition>, closed: seq<AMIAPosition>, p: AMIAPosition)
    requires UniqueIds(active + closed)
    requires forall q :: q in active ==> q.id.counter < p.id.counter
    requires forall q :: q in closed ==> q.id.counter < p.id.counter
    ensures UniqueIds(active + [p] + closed)
  {
    var before, after := active + closed, active + [p] + closed;
    assert forall i :: 0 <= i < |active| ==> after[i] == before[i];
    assert forall i :: |active| < i < |after| ==> after[i] == before[i - 1];
    assert after[|active|] == p;
    assert forall i :: 0 <= i < |before| ==> before[i] in active || before[i] in closed;
  }

  lemma SplitUnique(active: seq<AMIAPosition>, closed: seq<AMIAPosition>)
    requires UniqueIds(active + closed)
    ensures UniqueIds(active) && UniqueIds(closed)
    ensures forall p :: p in active ==> p !in closed
  {
    var all := active + closed;
    assert forall i :: 0 <= i < |active| ==> all[i] == active[i];
    assert forall i :: 0 <= i < |closed| ==> all[|active| + i] == closed[i];
    forall p | p in active
      ensures p !in closed
    {
      var i :| 0 <= i < |active| && active[i] == p;
      forall j | 0 <= j < |closed|
        ensures closed[j] != p
      {
        assert all[|active| + j] == closed[j] && all[i].id.counter != all[|active| + j].id.counter;
      }
    }
  }

  /** Moving one position from the active to the closed list keeps ids unique. */
  lemma MovedOver(active: seq<AMIAPosition>, closed: seq<AMIAPosition>, k: nat)
    requires UniqueIds(active + closed) && k < |active|
    ensures UniqueIds((active[..k] + active[k + 1..]) + (closed + [active[k]]))
  {
    var all := active + closed;
    var moved := (active[..k] + active[k + 1..]) + (closed + [active[k]]);
    var m := |all| - 1;
    assert forall i :: 0 <= i < k ==> moved[i] == all[i];
    assert forall i :: k <= i < m ==> moved[i] == all[i + 1];
    assert moved[m] == all[k];
  }
}
