/** The manager: one book and one statistics record per symbol, an active set, and eviction.
    Books are held as values; `LiveBooks` runs the manager's operations on book objects updated in place. */
module OrderbookManagement {
  import opened Sums
  import opened HftOrderBooks
  import opened BookReplay

  type Symbol = string

  /** A parsed message. Prices and sizes are already decoded. */
  datatype ParsedUpdate = ParsedUpdate(
    symbol: Symbol,
    bidUpdates: seq<PriceSize>,
    askUpdates: seq<PriceSize>,
    timestamp: real,
    isSnapshot: bool)

  // ----- books as values

  type SideValue = SortedDict<Level>

  datatype Book = Book(bids: SideValue, asks: SideValue)

  /** An ordered dictionary of positive sizes. */
  ghost predicate SideOk(d: SideValue)
  {
    d.Valid() && forall p :: p in d.items ==> d.items[p].size > 0.0
  }

  ghost predicate BookOk(b: Book)
  {
    SideOk(b.bids) && SideOk(b.asks) && b.bids.descending && !b.asks.descending
  }

  const EMPTY_BOOK := Book(SortedDict(true, [], map[]), SortedDict(false, [], map[]))

  function PutItem(d: SideValue, u: PriceSize, time: real): SideValue
  {
    if u.size <= 0.0 then d.Pop(u.price) else d.Put(u.price, Level(u.size, time))
  }

  function PutItems(d: SideValue, us: seq<PriceSize>, time: real): SideValue
  {
    if |us| == 0 then d else PutItem(PutItems(d, us[..|us| - 1], time), us[|us| - 1], time)
  }

  function FillFrom(descending: bool, us: seq<PriceSize>, time: real): SideValue
  {
    if |us| == 0 then SortedDict(descending, [], map[])
    else
      var d := FillFrom(descending, us[..|us| - 1], time);
      var u := us[|us| - 1];
      if u.size > 0.0 then d.Put(u.price, Level(u.size, time)) else d
  }

  function UpdatedSide(d: SideValue, u: SideUpdate): SideValue
  {
    match u
    case Diff(items, time) => PutItems(d, items, time)
    case Snapshot(items, time) => FillFrom(d.descending, items, time)
  }

  /** Sorted sides keep their order and carry exactly the levels of the plain-map semantics. */
  lemma {:induction false} PutItemsOk(d: SideValue, us: seq<PriceSize>, time: real)
    requires SideOk(d)
    ensures var r := PutItems(d, us, time);
            SideOk(r) && r.descending == d.descending && r.items == ApplyItems(d.items, us, time)
  {
    if |us| == 0 {
    } else {
      var n := |us| - 1;
      PutItemsOk(d, us[..n], time);
      var before := PutItems(d, us[..n], time);
      before.PopValid(us[n].price);
      before.PutValid(us[n].price, Level(us[n].size, time));
    }
  }

  lemma {:induction false} FillFromOk(descending: bool, us: seq<PriceSize>, time: real)
    ensures var r := FillFrom(descending, us, time);
            SideOk(r) && r.descending == descending && r.items == SnapshotLevels(us, time)
  {
    if |us| == 0 {
    } else {
      var n := |us| - 1;
      FillFromOk(descending, us[..n], time);
      FillFrom(descending, us[..n], time).PutValid(us[n].price, Level(us[n].size, time));
    }
  }

  lemma UpdatedSideOk(d: SideValue, u: SideUpdate)
    requires SideOk(d)
    ensures var r := UpdatedSide(d, u);
            SideOk(r) && r.descending == d.descending && r.items == ApplySide(d.items, u)
  {
    match u
    case Diff(items, time) => PutItemsOk(d, items, time);
    case Snapshot(items, time) => FillFromOk(d.descending, items, time);
  }

  function BidUpdate(u: ParsedUpdate, clock: real): SideUpdate
  {
    var time := UpdateTime(Some(u.timestamp), clock);
    if u.isSnapshot then Snapshot(u.bidUpdates, time) else Diff(u.bidUpdates, time)
  }

  function AskUpdate(u: ParsedUpdate, clock: real): SideUpdate
  {
    var time := UpdateTime(Some(u.timestamp), clock);
    if u.isSnapshot then Snapshot(u.askUpdates, time) else Diff(u.askUpdates, time)
  }

  function UpdatedBook(b: Book, u: ParsedUpdate, clock: real): Book
  {
    Book(UpdatedSide(b.bids, BidUpdate(u, clock)), UpdatedSide(b.asks, AskUpdate(u, clock)))
  }

  // ----- the in-place book computes these books

  /** The book object holds exactly the levels of b. */
  ghost predicate Follows(book: HFTOrderBook, b: Book)
    reads book, book.Repr
    requires book.Valid()
  {
    book.Bids() == b.bids.items && book.Asks() == b.asks.items
  }

  /** What is read off the top of the object is what is read off b. */
  lemma SameTop(book: HFTOrderBook, b: Book)
    requires book.Valid() && BookOk(b) && Follows(book, b)
    ensures |book.bids.keys| == |b.bids.keys| && |book.asks.keys| == |b.asks.keys|
    ensures SpreadOf(book.bids, book.asks) == SpreadOf(b.bids, b.asks)
      && MidOf(book.bids, book.asks) == MidOf(b.bids, b.asks)
    ensures TopUncrossed(book.bids, book.asks) <==> TopUncrossed(b.bids, b.asks)
  {
    ViewKeys(book.bids, book.bidRepr);
    ViewKeys(book.asks, book.askRepr);
    hide SortedDict.Valid;
    KeysFromItems(book.bids, b.bids);
    KeysFromItems(book.asks, b.asks);
  }

  lemma ViewKeys(side: Side, repr: set<HFTOrderBookEntry>)
    requires SideValid(side, repr)
    ensures forall p :: p in View(side, repr) <==> p in side.items
  {
    hide SortedDict.Valid;
  }

  /** A parsed update applied to the book object in place follows the update of the book as a value. */
  method ApplyToBook(book: HFTOrderBook, ghost b: Book, u: ParsedUpdate, sequence: Option<int>, clock: real)
    requires book.Valid() && BookOk(b) && Follows(book, b)
    modifies book.Repr
    ensures book.Valid() && BookOk(UpdatedBook(b, u, clock)) && Follows(book, UpdatedBook(b, u, clock))
    ensures fresh(book.Repr - old(book.Repr))
  {
    UpdatedSideOk(b.bids, BidUpdate(u, clock));
    UpdatedSideOk(b.asks, AskUpdate(u, clock));
    hide SortedDict.Valid, SideValid, View, UpdatedSide, ApplyItems, SnapshotLevels, Shows, SameEntries, EntrySizes,
      UpdateTime;
    if u.isSnapshot {
      book.ApplySnapshot(u.bidUpdates, u.askUpdates, Some(u.timestamp), sequence, clock);
    } else {
      book.ApplyDiff(u.bidUpdates, u.askUpdates, Some(u.timestamp), sequence, clock);
    }
  }

  // ----- statistics

  /** Exponential moving average with the given weight for the new measurement, started by the
      first non-zero one. */
  function MovingAverage(avg: real, x: real, alpha: real): real
  {
    if avg == 0.0 then x else Weighted(alpha, x) + Weighted(1.0 - alpha, avg)
  }

  /** The average never exceeds the maximum. */
  lemma AverageBelowMax(avg: real, top: real, x: real, alpha: real)
    requires avg <= top && 0.0 <= alpha <= 1.0
    ensures MovingAverage(avg, x, alpha) <= Max(top, x)
  {
    hide Weighted;
    WeightedMonotone(alpha, x, Max(top, x));
    WeightedMonotone(1.0 - alpha, avg, Max(top, x));
    WeightsAddUp(alpha, Max(top, x));
  }

  function Weighted(weight: real, x: real): real
  {
    weight * x
  }

  lemma WeightedMonotone(weight: real, x: real, y: real)
    requires x <= y && weight >= 0.0
    ensures Weighted(weight, x) <= Weighted(weight, y)
  {
    assert weight * (y - x) >= 0.0;
  }

  lemma WeightsAddUp(weight: real, x: real)
    ensures Weighted(weight, x) + Weighted(1.0 - weight, x) == x
  {
  }

  datatype OrderbookStats = OrderbookStats(
    lastUpdateTime: real,
    totalUpdates: nat,
    diffUpdates: nat,
    snapshotUpdates: nat,
    parseErrors: nat,
    processingTimeAvg: real,
    processingTimeMax: real,
    bidLevels: nat,
    askLevels: nat,
    spread: Option<real>,
    midPrice: Option<real>,
    isHealthy: bool)

  function NewStats(now: real): OrderbookStats
  {
    OrderbookStats(now, 0, 0, 0, 0, 0.0, 0.0, 0, 0, None, None, true)
  }

  /** The record after one applied update to a book that now is b. */
  function Refreshed(v: OrderbookStats, isSnapshot: bool, processingTime: real, now: real, b: Book): OrderbookStats
  {
    OrderbookStats(
      now,
      v.totalUpdates + 1,
      v.diffUpdates + (if isSnapshot then 0 else 1),
      v.snapshotUpdates + (if isSnapshot then 1 else 0),
      v.parseErrors,
      MovingAverage(v.processingTimeAvg, processingTime, 0.1),
      Max(v.processingTimeMax, processingTime),
      |b.bids.keys|,
      |b.asks.keys|,
      SpreadOf(b.bids, b.asks),
      MidOf(b.bids, b.asks),
      TopUncrossed(b.bids, b.asks))
  }

  /** Counts add up, the average is below the maximum, and the cached figures are the book's own;
      only the health flag needs a first update to be right. */
  ghost predicate Agrees(v: OrderbookStats, b: Book)
  {
    && v.totalUpdates == v.diffUpdates + v.snapshotUpdates
    && v.processingTimeAvg <= v.processingTimeMax
    && v.bidLevels == |b.bids.items| && v.askLevels == |b.asks.items|
    && v.spread == SpreadOf(b.bids, b.asks) && v.midPrice == MidOf(b.bids, b.asks)
    && v.isHealthy == (v.totalUpdates == 0 || Healthy(b.bids.items, b.asks.items))
  }

  /** A refreshed record agrees with the book it was refreshed from. */
  lemma RefreshedAgrees(v: OrderbookStats, previous: Book, isSnapshot: bool, processingTime: real, now: real, b: Book)
    requires Agrees(v, previous) && BookOk(b)
    ensures Agrees(Refreshed(v, isSnapshot, processingTime, now, b), b)
  {
    hide MovingAverage, Max, SpreadOf, MidOf, TopUncrossed, Healthy;
    AverageBelowMax(v.processingTimeAvg, v.processingTimeMax, processingTime, 0.1);
    KeysCount(b.bids);
    KeysCount(b.asks);
    TopDecidesHealth(b.bids, b.asks);
  }

  datatype GlobalStats = GlobalStats(
    totalSymbols: nat,
    activeSymbols: nat,
    totalUpdates: nat,
    processingErrors: nat,
    avgProcessingTime: real,
    maxProcessingTime: real,
    staleOrderbooks: nat)

  // ----- the manager's state and its operations as functions

  datatype State = State(
    books: map<Symbol, Book>,
    stats: map<Symbol, OrderbookStats>,
    active: set<Symbol>,
    global: GlobalStats,
    handlers: nat,
    running: bool)

  const INITIAL := State(map[], map[], {}, GlobalStats(0, 0, 0, 0, 0.0, 0.0, 0), 0, false)

  /** Clock readings taken while one update is processed. */
  datatype Clocks = Clocks(start: real, added: real, applied: real, measured: real, recorded: real)

  function ProcessingTime(c: Clocks): real
  {
    (c.measured - c.start) * 1000000.0
  }

  function Added(st: State, s: Symbol, now: real): State
  {
    var books := if s in st.books then st.books else st.books[s := EMPTY_BOOK];
    var stats := if s in st.books then st.stats else st.stats[s := NewStats(now)];
    var active := st.active + {s};
    st.(books := books, stats := stats, active := active,
        global := st.global.(activeSymbols := |active|, totalSymbols := |books|))
  }

  function Removed(st: State, s: Symbol): State
  {
    var active := st.active - {s};
    st.(active := active, global := st.global.(activeSymbols := |active|))
  }

  function GlobalAfter(g: GlobalStats, processingTime: real): GlobalStats
  {
    g.(totalUpdates := g.totalUpdates + 1,
       avgProcessingTime := MovingAverage(g.avgProcessingTime, processingTime, 0.01),
       maxProcessingTime := Max(g.maxProcessingTime, processingTime))
  }

  /** Book, record and global counters after a parsed update, before handlers are told. */
  function Recorded(st: State, u: ParsedUpdate, c: Clocks): State
    requires u.symbol in st.books && u.symbol in st.stats
  {
    var book := UpdatedBook(st.books[u.symbol], u, c.applied);
    st.(books := st.books[u.symbol := book],
        stats := st.stats[u.symbol := Refreshed(st.stats[u.symbol], u.isSnapshot, ProcessingTime(c), c.recorded, book)],
        global := GlobalAfter(st.global, ProcessingTime(c)))
  }

  /** The exception path: the error is counted, the state is otherwise left as it was. */
  function Failed(st: State, s: Symbol): State
  {
    st.(stats := if s in st.stats then st.stats[s := st.stats[s].(parseErrors := st.stats[s].parseErrors + 1)]
        else st.stats,
        global := st.global.(processingErrors := st.global.processingErrors + 1))
  }

  /** A parsed update. With a handler registered, building the OrderBook for it raises after the
      book has changed, so the call counts an error and reports failure. */
  function Applied(st: State, u: ParsedUpdate, c: Clocks): (State, bool)
    requires SameKeys(st)
  {
    var recorded := Recorded(TrackedFor(st, u, c), u, c);
    if st.handlers > 0 then (Failed(recorded, u.symbol), false) else (recorded, true)
  }

  function Stale(st: State, now: real, threshold: real): set<Symbol>
  {
    set s | s in st.stats && now - st.stats[s].lastUpdateTime > threshold
  }

  function Cleaned(st: State, now: real, threshold: real): State
  {
    var stale := Stale(st, now, threshold);
    var books := st.books - (stale - st.active);
    st.(books := books, stats := st.stats - (stale - st.active),
        global := st.global.(staleOrderbooks := |stale|, totalSymbols := |books|))
  }

  function Stopped(st: State): State
  {
    if st.running then State(map[], map[], {}, st.global, st.handlers, false) else st
  }

  ghost predicate SameKeys(st: State)
  {
    forall s :: s in st.books <==> s in st.stats
  }

  /** What holds in every reachable state. */
  ghost predicate Invariant(st: State)
  {
    && SameKeys(st)
    && (forall s :: s in st.active ==> s in st.books)
    && (forall s :: s in st.books ==> BookOk(st.books[s]) && Agrees(st.stats[s], st.books[s]))
    && st.global.avgProcessingTime <= st.global.maxProcessingTime
  }

  /** The published symbol counts are current; only stopping leaves them behind. */
  predicate CountsCurrent(st: State)
  {
    st.global.totalSymbols == |st.books| && st.global.activeSymbols == |st.active|
  }

  // ----- every operation keeps the invariant

  lemma EmptyBookOk()
    ensures BookOk(EMPTY_BOOK) && forall now :: Agrees(NewStats(now), EMPTY_BOOK)
  {
  }

  lemma AddedKeeps(st: State, s: Symbol, now: real)
    requires Invariant(st)
    ensures Invariant(Added(st, s, now)) && CountsCurrent(Added(st, s, now)) && s in Added(st, s, now).books
  {
    hide BookOk, Agrees;
    EmptyBookOk();
  }

  lemma UpdatedBookOk(b: Book, u: ParsedUpdate, clock: real)
    requires BookOk(b)
    ensures BookOk(UpdatedBook(b, u, clock))
  {
    UpdatedSideOk(b.bids, BidUpdate(u, clock));
    UpdatedSideOk(b.asks, AskUpdate(u, clock));
    hide UpdatedSide, ApplySide, SideOk, BidUpdate, AskUpdate;
  }

  lemma RecordedKeeps(st: State, u: ParsedUpdate, c: Clocks)
    requires Invariant(st) && u.symbol in st.books
    ensures Invariant(Recorded(st, u, c)) && (CountsCurrent(st) ==> CountsCurrent(Recorded(st, u, c)))
  {
    hide BookOk, Agrees, UpdatedBook, Refreshed, MovingAverage, Max, ProcessingTime;
    var book := UpdatedBook(st.books[u.symbol], u, c.applied);
    UpdatedBookOk(st.books[u.symbol], u, c.applied);
    RefreshedAgrees(st.stats[u.symbol], st.books[u.symbol], u.isSnapshot, ProcessingTime(c), c.recorded, book);
    AverageBelowMax(st.global.avgProcessingTime, st.global.maxProcessingTime, ProcessingTime(c), 0.01);
    assert |st.books[u.symbol := book]| == |st.books|;
  }

  lemma FailedKeeps(st: State, s: Symbol)
    requires Invariant(st)
    ensures Invariant(Failed(st, s)) && (CountsCurrent(st) ==> CountsCurrent(Failed(st, s)))
  {
    hide BookOk, Healthy, SpreadOf, MidOf, Agrees;
    if s in st.stats {
      ErrorAgrees(st.stats[s], st.books[s]);
    }
  }

  /** Counting an error leaves a record as right as it was. */
  lemma ErrorAgrees(v: OrderbookStats, b: Book)
    requires Agrees(v, b)
    ensures Agrees(v.(parseErrors := v.parseErrors + 1), b)
  {
    hide Healthy, SpreadOf, MidOf;
  }

  /** The state in which the symbol of an update is tracked. */
  function TrackedFor(st: State, u: ParsedUpdate, c: Clocks): State
  {
    if u.symbol in st.books then st else Added(st, u.symbol, c.added)
  }

  lemma TrackedKeeps(st: State, u: ParsedUpdate, c: Clocks)
    requires Invariant(st)
    ensures var r := TrackedFor(st, u, c);
            && Invariant(r) && u.symbol in r.books && u.symbol in r.stats
            && (CountsCurrent(st) ==> CountsCurrent(r))
  {
    AddedKeeps(st, u.symbol, c.added);
    hide BookOk, Agrees, Added, CountsCurrent;
  }

  lemma AppliedIs(st: State, u: ParsedUpdate, c: Clocks)
    requires Invariant(st)
    ensures var r := TrackedFor(st, u, c);
            && u.symbol in r.books && u.symbol in r.stats
            && Applied(st, u, c)
               == if st.handlers > 0 then (Failed(Recorded(r, u, c), u.symbol), false) else (Recorded(r, u, c), true)
  {
    hide Invariant, Recorded, Failed;
    TrackedKeeps(st, u, c);
  }

  lemma AppliedKeeps(st: State, u: ParsedUpdate, c: Clocks)
    requires Invariant(st)
    ensures Invariant(Applied(st, u, c).0)
    ensures CountsCurrent(st) ==> CountsCurrent(Applied(st, u, c).0)
  {
    hide *;
    TrackedKeeps(st, u, c);
    RecordedKeeps(TrackedFor(st, u, c), u, c);
    FailedKeeps(Recorded(TrackedFor(st, u, c), u, c), u.symbol);
    AppliedIs(st, u, c);
  }

  /** Cleanup evicts exactly the inactive symbols whose last update is past the threshold, and leaves
      every other book and record alone. */
  lemma CleanupEvictsExactly(st: State, now: real, threshold: real, s: Symbol)
    requires SameKeys(st)
    ensures var r := Cleaned(st, now, threshold);
            && (s in r.books <==>
                  s in st.books && (s in st.active || now - st.stats[s].lastUpdateTime <= threshold))
            && (s in r.books <==> s in r.stats)
            && (s in r.books ==> r.books[s] == st.books[s] && r.stats[s] == st.stats[s])
  {
    assert s in st.books <==> s in st.stats;
  }

  lemma CleanedKeeps(st: State, now: real, threshold: real)
    requires Invariant(st)
    ensures Invariant(Cleaned(st, now, threshold))
    ensures CountsCurrent(st) ==> CountsCurrent(Cleaned(st, now, threshold))
  {
    hide Cleaned, BookOk, Agrees, CountsCurrent;
    var r := Cleaned(st, now, threshold);
    CleanedRest(st, now, threshold);
    CleanedEntries(st, r, now, threshold);
  }

  lemma CleanedRest(st: State, now: real, threshold: real)
    ensures var r := Cleaned(st, now, threshold);
            && r.active == st.active
            && r.global.avgProcessingTime == st.global.avgProcessingTime
            && r.global.maxProcessingTime == st.global.maxProcessingTime
            && (CountsCurrent(st) ==> CountsCurrent(r))
  {
    hide Stale;
  }

  lemma CleanedEntries(st: State, r: State, now: real, threshold: real)
    requires Invariant(st) && r == Cleaned(st, now, threshold)
    ensures SameKeys(r)
    ensures forall s :: s in st.active ==> s in r.books
    ensures forall s :: s in r.books ==> BookOk(r.books[s]) && Agrees(r.stats[s], r.books[s])
  {
    hide BookOk, Agrees, Stale, Cleaned;
    forall s
      ensures s in r.books <==> s in r.stats
      ensures s in st.active ==> s in r.books
      ensures s in r.books ==> BookOk(r.books[s]) && Agrees(r.stats[s], r.books[s])
    {
      CleanupEvictsExactly(st, now, threshold, s);
    }
  }

  /** Everything but the update's own symbol and the global counters is the same in both states. */
  ghost predicate OthersSame(st: State, r: State, symbol: Symbol)
  {
    forall s :: s in st.books && s != symbol ==>
      s in r.books && r.books[s] == st.books[s] && (s in st.stats ==> s in r.stats && r.stats[s] == st.stats[s])
  }

  lemma OthersSameTransitive(a: State, b: State, c: State, symbol: Symbol)
    requires OthersSame(a, b, symbol) && OthersSame(b, c, symbol) && SameKeys(a) && SameKeys(b)
    ensures OthersSame(a, c, symbol)
  {
  }

  /** The book of the update's symbol is `before` with the update applied. */
  ghost predicate TookUpdate(before: Book, r: State, u: ParsedUpdate, c: Clocks)
  {
    && u.symbol in r.books
    && r.books[u.symbol].bids.items == ApplySide(before.bids.items, BidUpdate(u, c.applied))
    && r.books[u.symbol].asks.items == ApplySide(before.asks.items, AskUpdate(u, c.applied))
  }

  function BookOf(st: State, s: Symbol): Book
  {
    if s in st.books then st.books[s] else EMPTY_BOOK
  }

  lemma TrackedEffect(st: State, u: ParsedUpdate, c: Clocks)
    ensures var r := TrackedFor(st, u, c);
            && BookOf(r, u.symbol) == BookOf(st, u.symbol)
            && OthersSame(st, r, u.symbol)
            && r.handlers == st.handlers
            && r.global.totalUpdates == st.global.totalUpdates
            && r.global.processingErrors == st.global.processingErrors
  {
  }

  lemma RecordedBook(st: State, u: ParsedUpdate, c: Clocks)
    requires u.symbol in st.books && u.symbol in st.stats && BookOk(st.books[u.symbol])
    ensures TookUpdate(st.books[u.symbol], Recorded(st, u, c), u, c)
  {
    UpdatedSideOk(st.books[u.symbol].bids, BidUpdate(u, c.applied));
    UpdatedSideOk(st.books[u.symbol].asks, AskUpdate(u, c.applied));
    hide UpdatedSide, ApplySide, Refreshed, ProcessingTime, MovingAverage, Max, BidUpdate, AskUpdate, SideOk;
  }

  lemma RecordedEffect(st: State, u: ParsedUpdate, c: Clocks)
    requires u.symbol in st.books && u.symbol in st.stats
    ensures var r := Recorded(st, u, c);
            && OthersSame(st, r, u.symbol)
            && r.global.totalUpdates == st.global.totalUpdates + 1
            && r.global.processingErrors == st.global.processingErrors
  {
    hide UpdatedBook, Refreshed, ProcessingTime, MovingAverage, Max;
  }

  lemma FailedEffect(st: State, s: Symbol)
    ensures var r := Failed(st, s);
            && r.books == st.books && OthersSame(st, r, s)
            && r.global.totalUpdates == st.global.totalUpdates
            && r.global.processingErrors == st.global.processingErrors + 1
  {
  }

  lemma InvariantMeans(st: State, s: Symbol)
    requires Invariant(st)
    ensures SameKeys(st) && (s in st.books ==> s in st.stats && BookOk(st.books[s]))
  {
    hide BookOk, Agrees;
  }

  /** An update is reported as processed exactly when no handler is registered; the book and its
      counters take the update either way, and no other symbol changes. */
  lemma HandlersMakeUpdatesFail(st: State, u: ParsedUpdate, c: Clocks)
    requires Invariant(st)
    ensures Applied(st, u, c).1 <==> st.handlers == 0
    ensures TookUpdate(BookOf(st, u.symbol), Applied(st, u, c).0, u, c)
    ensures OthersSame(st, Applied(st, u, c).0, u.symbol)
    ensures Applied(st, u, c).0.global.totalUpdates == st.global.totalUpdates + 1
    ensures Applied(st, u, c).0.global.processingErrors
         == st.global.processingErrors + (if st.handlers == 0 then 0 else 1)
  {
    hide *;
    var tracked := TrackedFor(st, u, c);
    TrackedKeeps(st, u, c);
    InvariantMeans(st, u.symbol);
    InvariantMeans(tracked, u.symbol);
    TrackedEffect(st, u, c);
    var recorded := Recorded(tracked, u, c);
    RecordedKeeps(tracked, u, c);
    InvariantMeans(recorded, u.symbol);
    RecordedBook(tracked, u, c);
    RecordedEffect(tracked, u, c);
    BookOfTracked(tracked, u.symbol);
    FailedEffect(recorded, u.symbol);
    AppliedIs(st, u, c);
    OthersSameTransitive(st, tracked, recorded, u.symbol);
    OthersSameTransitive(st, recorded, Failed(recorded, u.symbol), u.symbol);
    TookUpdateByBooks(BookOf(st, u.symbol), recorded, Failed(recorded, u.symbol), u, c);
  }

  lemma BookOfTracked(st: State, s: Symbol)
    requires s in st.books
    ensures BookOf(st, s) == st.books[s]
  {
  }

  lemma TookUpdateByBooks(before: Book, a: State, b: State, u: ParsedUpdate, c: Clocks)
    requires a.books == b.books && TookUpdate(before, a, u, c)
    ensures TookUpdate(before, b, u, c)
  {
  }

  // ----- whole runs

  datatype Op =
    | AddSymbolOp(symbol: Symbol, now: real)
    | RemoveSymbolOp(symbol: Symbol)
    | UpdateOp(update: ParsedUpdate, clocks: Clocks)
    | CleanupOp(now: real)
    | AddHandlerOp
    | StartOp
    | StopOp

  function Step(threshold: real, st: State, op: Op): State
    requires Invariant(st)
  {
    match op
    case AddSymbolOp(s, now) => Added(st, s, now)
    case RemoveSymbolOp(s) => Removed(st, s)
    case UpdateOp(u, c) => Applied(st, u, c).0
    case CleanupOp(now) => Cleaned(st, now, threshold)
    case AddHandlerOp => st.(handlers := st.handlers + 1)
    case StartOp => st.(running := true)
    case StopOp => Stopped(st)
  }

  lemma StepKeeps(threshold: real, st: State, op: Op)
    requires Invariant(st)
    ensures Invariant(Step(threshold, st, op))
    ensures CountsCurrent(st) && (op.StopOp? ==> !st.running) ==> CountsCurrent(Step(threshold, st, op))
  {
    hide Added, Applied, Cleaned, Removed, Stopped, Invariant, CountsCurrent;
    match op
    case AddSymbolOp(s, now) => AddedKeeps(st, s, now);
    case RemoveSymbolOp(s) => RemovedKeeps(st, s);
    case UpdateOp(u, c) => AppliedKeeps(st, u, c);
    case CleanupOp(now) => CleanedKeeps(st, now, threshold);
    case AddHandlerOp => FlagsKeep(st, st.(handlers := st.handlers + 1));
    case StartOp => FlagsKeep(st, st.(running := true));
    case StopOp => StoppedKeeps(st);
  }

  lemma RemovedKeeps(st: State, s: Symbol)
    requires Invariant(st)
    ensures Invariant(Removed(st, s)) && (CountsCurrent(st) ==> CountsCurrent(Removed(st, s)))
  {
    hide BookOk, Agrees;
  }

  lemma StoppedKeeps(st: State)
    requires Invariant(st)
    ensures Invariant(Stopped(st)) && (CountsCurrent(st) && !st.running ==> CountsCurrent(Stopped(st)))
  {
    hide BookOk, Agrees;
  }

  lemma FlagsKeep(st: State, r: State)
    requires Invariant(st)
    requires r.books == st.books && r.stats == st.stats && r.active == st.active && r.global == st.global
    ensures Invariant(r) && (CountsCurrent(st) ==> CountsCurrent(r))
  {
    hide BookOk, Agrees;
  }

  /** The state after a run from the initial state. */
  function Run(threshold: real, ops: seq<Op>): (st: State)
    ensures Invariant(st)
  {
    if |ops| == 0 then INITIAL
    else
      var before := Run(threshold, ops[..|ops| - 1]);
      StepKeeps(threshold, before, ops[|ops| - 1]);
      Step(threshold, before, ops[|ops| - 1])
  }

  /** The bid updates a symbol's current book has seen: evicting or clearing the book starts afresh. */
  ghost function BidStream(threshold: real, ops: seq<Op>, s: Symbol): seq<SideUpdate>
  {
    if |ops| == 0 || s !in Run(threshold, ops).books then []
    else
      var op := ops[|ops| - 1];
      var before := BidStream(threshold, ops[..|ops| - 1], s);
      if op.UpdateOp? && op.update.symbol == s then before + [BidUpdate(op.update, op.clocks.applied)] else before
  }

  ghost function AskStream(threshold: real, ops: seq<Op>, s: Symbol): seq<SideUpdate>
  {
    if |ops| == 0 || s !in Run(threshold, ops).books then []
    else
      var op := ops[|ops| - 1];
      var before := AskStream(threshold, ops[..|ops| - 1], s);
      if op.UpdateOp? && op.update.symbol == s then before + [AskUpdate(op.update, op.clocks.applied)] else before
  }

  /** An operation other than an update of s leaves a surviving book of s as it was. */
  lemma StepElsewhere(threshold: real, st: State, op: Op, s: Symbol)
    requires Invariant(st) && s in Step(threshold, st, op).books && !(op.UpdateOp? && op.update.symbol == s)
    ensures Step(threshold, st, op).books[s] == BookOf(st, s)
  {
    hide Invariant, Applied, Stale;
    match op
    case UpdateOp(u, c) => UpdateElsewhere(st, u, c, s);
    case _ =>
  }

  lemma UpdateElsewhere(st: State, u: ParsedUpdate, c: Clocks, s: Symbol)
    requires Invariant(st) && u.symbol != s
    ensures s in Applied(st, u, c).0.books ==> Applied(st, u, c).0.books[s] == BookOf(st, s)
  {
    hide Invariant, Refreshed, UpdatedBook;
    TrackedKeeps(st, u, c);
    AppliedIs(st, u, c);
  }

  /** The book of s, empty when untracked, is the replay of its stream. */
  ghost predicate Replays(threshold: real, ops: seq<Op>, s: Symbol)
  {
    var b := BookOf(Run(threshold, ops), s);
    && b.bids.items == Replay(BidStream(threshold, ops, s))
    && b.asks.items == Replay(AskStream(threshold, ops, s))
  }

  lemma UntrackedReplays(threshold: real, ops: seq<Op>, s: Symbol)
    requires s !in Run(threshold, ops).books
    ensures Replays(threshold, ops, s)
  {
  }

  /** The run and the streams after one more operation. */
  lemma RunSnoc(threshold: real, ops: seq<Op>, s: Symbol)
    requires |ops| > 0 && s in Run(threshold, ops).books
    ensures var op := ops[|ops| - 1];
            var before := ops[..|ops| - 1];
            && Run(threshold, ops) == Step(threshold, Run(threshold, before), op)
            && BidStream(threshold, ops, s)
               == BidStream(threshold, before, s)
                  + (if op.UpdateOp? && op.update.symbol == s then [BidUpdate(op.update, op.clocks.applied)] else [])
            && AskStream(threshold, ops, s)
               == AskStream(threshold, before, s)
                  + (if op.UpdateOp? && op.update.symbol == s then [AskUpdate(op.update, op.clocks.applied)] else [])
  {
    hide Step, Invariant, BidUpdate, AskUpdate;
  }

  /** Replay through the manager: after any run, each tracked book holds exactly what replaying its
      own updates leaves, whatever happened to other symbols, handlers and the active set. */
  lemma {:induction false} RunReplays(threshold: real, ops: seq<Op>, s: Symbol)
    ensures Replays(threshold, ops, s)
  {
    if |ops| == 0 || s !in Run(threshold, ops).books {
      hide Step, Invariant;
      UntrackedReplays(threshold, ops, s);
    } else {
      RunReplays(threshold, ops[..|ops| - 1], s);
      RunReplaysStep(threshold, ops, s);
    }
  }

  lemma RunReplaysStep(threshold: real, ops: seq<Op>, s: Symbol)
    requires |ops| > 0 && s in Run(threshold, ops).books && Replays(threshold, ops[..|ops| - 1], s)
    ensures Replays(threshold, ops, s)
  {
    hide Step, Invariant, Run, BidStream, AskStream, ApplySide, Replay;
    var op := ops[|ops| - 1];
    var before := ops[..|ops| - 1];
    var st := Run(threshold, before);
    RunSnoc(threshold, ops, s);
    if op.UpdateOp? && op.update.symbol == s {
      StepUpdates(threshold, st, op);
      ReplaySnoc(BidStream(threshold, before, s), BidUpdate(op.update, op.clocks.applied));
      ReplaySnoc(AskStream(threshold, before, s), AskUpdate(op.update, op.clocks.applied));
    } else {
      StepElsewhere(threshold, st, op, s);
      assert BidStream(threshold, before, s) + [] == BidStream(threshold, before, s);
      assert AskStream(threshold, before, s) + [] == AskStream(threshold, before, s);
    }
  }

  lemma StepUpdates(threshold: real, st: State, op: Op)
    requires Invariant(st) && op.UpdateOp?
    ensures TookUpdate(BookOf(st, op.update.symbol), Step(threshold, st, op), op.update, op.clocks)
  {
    hide Invariant, Applied, TookUpdate;
    HandlersMakeUpdatesFail(st, op.update, op.clocks);
  }

  lemma ReplaySnoc(stream: seq<SideUpdate>, u: SideUpdate)
    ensures Replay(stream + [u]) == ApplySide(Replay(stream), u)
  {
    assert (stream + [u])[..|stream|] == stream;
  }

  // ----- the manager itself

  class OrderbookManager {
    const staleThreshold: real
    var orderbooks: map<Symbol, Book>
    var stats: map<Symbol, OrderbookStats>
    var activeSymbols: set<Symbol>
    var globalStats: GlobalStats
    var handlerCount: nat
    var running: bool

    function Now(): State
      reads this
    {
      State(orderbooks, stats, activeSymbols, globalStats, handlerCount, running)
    }

    constructor (staleThreshold: real)
      ensures this.staleThreshold == staleThreshold && Now() == INITIAL && Invariant(Now()) && CountsCurrent(Now())
    {
      this.staleThreshold := staleThreshold;
      orderbooks, stats, activeSymbols := map[], map[], {};
      globalStats := GlobalStats(0, 0, 0, 0, 0.0, 0.0, 0);
      handlerCount, running := 0, false;
    }

    method AddSymbol(symbol: Symbol, now: real)
      modifies this
      ensures Now() == Added(old(Now()), symbol, now)
    {
      if symbol !in orderbooks {
        orderbooks := orderbooks[symbol := EMPTY_BOOK];
        stats := stats[symbol := NewStats(now)];
      }
      activeSymbols := activeSymbols + {symbol};
      globalStats := globalStats.(activeSymbols := |activeSymbols|);
      globalStats := globalStats.(totalSymbols := |orderbooks|);
    }

    method RemoveSymbol(symbol: Symbol)
      modifies this
      ensures Now() == Removed(old(Now()), symbol)
    {
      activeSymbols := activeSymbols - {symbol};
      globalStats := globalStats.(activeSymbols := |activeSymbols|);
    }

    /** Counts the update, refreshes the symbol's cached figures and the global averages. */
    method UpdateStats(symbol: Symbol, isSnapshot: bool, processingTime: real, now: real)
      requires symbol in orderbooks && symbol in stats
      modifies this`stats, this`globalStats
      ensures stats == old(stats)[symbol := Refreshed(old(stats)[symbol], isSnapshot, processingTime, now,
                                                      orderbooks[symbol])]
      ensures globalStats == GlobalAfter(old(globalStats), processingTime)
    {
      hide MovingAverage, Max, SpreadOf, MidOf, TopUncrossed;
      var s := stats[symbol];
      var book := orderbooks[symbol];
      if isSnapshot {
        s := s.(snapshotUpdates := s.snapshotUpdates + 1);
      } else {
        s := s.(diffUpdates := s.diffUpdates + 1);
      }
      s := s.(totalUpdates := s.totalUpdates + 1, lastUpdateTime := now);
      s := s.(processingTimeAvg := MovingAverage(s.processingTimeAvg, processingTime, 0.1),
              processingTimeMax := Max(s.processingTimeMax, processingTime));
      s := s.(bidLevels := |book.bids.keys|, askLevels := |book.asks.keys|);
      s := s.(spread := SpreadOf(book.bids, book.asks), midPrice := MidOf(book.bids, book.asks),
              isHealthy := TopUncrossed(book.bids, book.asks));
      stats := stats[symbol := s];
      globalStats := GlobalAfter(globalStats, processingTime);
    }

    /** Makes sure the symbol of an update is tracked. */
    method EnsureTracked(u: ParsedUpdate, c: Clocks)
      modifies this
      ensures Now() == TrackedFor(old(Now()), u, c)
    {
      hide Added;
      if u.symbol !in orderbooks {
        AddSymbol(u.symbol, c.added);
      }
    }

    /** Updates the book, then everything computed from it. */
    method RecordUpdate(u: ParsedUpdate, c: Clocks)
      requires u.symbol in orderbooks && u.symbol in stats
      modifies this`orderbooks, this`stats, this`globalStats
      ensures Now() == Recorded(old(Now()), u, c)
    {
      hide Refreshed, GlobalAfter, ProcessingTime, UpdatedBook;
      orderbooks := orderbooks[u.symbol := UpdatedBook(orderbooks[u.symbol], u, c.applied)];
      UpdateStats(u.symbol, u.isSnapshot, ProcessingTime(c), c.recorded);
    }

    method CountError(symbol: Symbol)
      modifies this`stats, this`globalStats
      ensures Now() == Failed(old(Now()), symbol)
    {
      if symbol in stats {
        stats := stats[symbol := stats[symbol].(parseErrors := stats[symbol].parseErrors + 1)];
      }
      globalStats := globalStats.(processingErrors := globalStats.processingErrors + 1);
    }

    /** Applies a parsed update and reports whether the call succeeded. */
    method ApplyParsedUpdate(u: ParsedUpdate, c: Clocks) returns (ok: bool)
      requires Invariant(Now())
      modifies this
      ensures (Now(), ok) == Applied(old(Now()), u, c) && Invariant(Now())
    {
      hide Invariant, Applied, Recorded, Failed, Added;
      AppliedKeeps(Now(), u, c);
      AppliedIs(Now(), u, c);
      TrackedEffect(Now(), u, c);
      EnsureTracked(u, c);
      RecordUpdate(u, c);
      if handlerCount > 0 {
        CountError(u.symbol);
        return false;
      }
      return true;
    }

    /** Processes a raw message: without a processor, or when it parses to nothing, nothing changes. */
    method ProcessDiffUpdate(processorKnown: bool, parsed: Option<ParsedUpdate>, c: Clocks) returns (ok: bool)
      requires Invariant(Now())
      modifies this
      ensures Invariant(Now())
      ensures if processorKnown && parsed.Some? then (Now(), ok) == Applied(old(Now()), parsed.value, c)
              else Now() == old(Now()) && !ok
    {
      if !processorKnown {
        return false;
      }
      if parsed.None? {
        return false;
      }
      ok := ApplyParsedUpdate(parsed.value, c);
    }

    /** Evicts inactive symbols that have not been updated for longer than the threshold. */
    method CleanupStaleOrderbooks(now: real)
      requires Invariant(Now())
      modifies this
      ensures Now() == Cleaned(old(Now()), now, staleThreshold) && Invariant(Now())
    {
      hide Invariant, Stale;
      CleanedKeeps(Now(), now, staleThreshold);
      var staleSymbols := FindStale(now);
      EvictInactive(staleSymbols);
      globalStats := globalStats.(staleOrderbooks := |staleSymbols|, totalSymbols := |orderbooks|);
    }

    /** Drops the given symbols unless they are active. */
    method EvictInactive(symbols: set<Symbol>)
      modifies this`orderbooks, this`stats
      ensures orderbooks == old(orderbooks) - (symbols - activeSymbols)
      ensures stats == old(stats) - (symbols - activeSymbols)
    {
      var rest := symbols;
      while rest != {}
        invariant rest <= symbols
        invariant orderbooks == old(orderbooks) - (symbols - rest - activeSymbols)
        invariant stats == old(stats) - (symbols - rest - activeSymbols)
        decreases rest
      {
        var symbol :| symbol in rest;
        if symbol !in activeSymbols {
          orderbooks := orderbooks - {symbol};
          stats := stats - {symbol};
        }
        rest := rest - {symbol};
      }
      assert symbols - {} == symbols;
    }

    method FindStale(now: real) returns (stale: set<Symbol>)
      ensures stale == Stale(Now(), now, staleThreshold)
    {
      stale := {};
      var rest := stats.Keys;
      while rest != {}
        invariant rest <= stats.Keys
        invariant stale == set s | s in stats && s !in rest && now - stats[s].lastUpdateTime > staleThreshold
        decreases rest
      {
        var symbol :| symbol in rest;
        var age := now - stats[symbol].lastUpdateTime;
        if age > staleThreshold {
          stale := stale + {symbol};
        }
        rest := rest - {symbol};
      }
    }

    method AddUpdateHandler()
      modifies this`handlerCount
      ensures Now() == old(Now()).(handlers := old(handlerCount) + 1)
    {
      handlerCount := handlerCount + 1;
    }

    method Start()
      modifies this`running
      ensures Now() == old(Now()).(running := true)
    {
      if running {
        return;
      }
      running := true;
    }

    method Stop()
      modifies this
      ensures Now() == Stopped(old(Now()))
    {
      if !running {
        return;
      }
      running := false;
      orderbooks, stats, activeSymbols := map[], map[], {};
    }
  }
}
