/** The manager's dictionary of book objects, updated in place over a whole run. */
module LiveBooks {
  import opened Sums
  import opened HftOrderBooks
  import opened OrderbookManagement

  type Books = map<Symbol, HFTOrderBook>

  ghost function Footprint(books: Books): set<object>
    reads books.Values
  {
    set s, o | s in books && o in books[s].Repr :: o
  }

  /** The object is valid and holds the levels of b. */
  ghost predicate Holds(book: HFTOrderBook, b: Book)
    reads book, book.Repr
    ensures Holds(book, b) ==> book in book.Repr
  {
    book.Valid() && BookOk(b) && Follows(book, b)
  }

  /** The books hold the given values and share nothing. */
  ghost predicate Live(books: Books, values: map<Symbol, Book>)
    reads books.Values, Footprint(books)
  {
    && (forall s :: s in books <==> s in values)
    && (forall s :: s in books ==> Holds(books[s], values[s]))
    && forall s, t :: s in books && t in books && s != t ==> books[s].Repr !! books[t].Repr
  }

  function WithBook(values: map<Symbol, Book>, s: Symbol): map<Symbol, Book>
  {
    if s in values then values else values[s := EMPTY_BOOK]
  }

  /** A new book object is empty. */
  method NewBook(clock: real) returns (book: HFTOrderBook)
    ensures Holds(book, EMPTY_BOOK) && fresh(book.Repr)
  {
    EmptyBookOk();
    book := new HFTOrderBook(0, None, clock);
  }

  /** One book takes an update in place. */
  method UpdateBook(book: HFTOrderBook, ghost b: Book, u: ParsedUpdate, clock: real)
    requires Holds(book, b)
    modifies book.Repr
    ensures Holds(book, UpdatedBook(b, u, clock)) && fresh(book.Repr - old(book.Repr))
  {
    hide BookOk, UpdatedBook;
    ApplyToBook(book, b, u, None, clock);
  }

  /** Tracks a symbol: a new one gets an empty book object. */
  method Track(books: Books, ghost values: map<Symbol, Book>, s: Symbol, clock: real) returns (r: Books)
    requires Live(books, values)
    ensures s in r && Live(r, WithBook(values, s)) && fresh(Footprint(r) - Footprint(books))
  {
    hide Holds;
    if s in books {
      return books;
    }
    var book := NewBook(clock);
    r := books[s := book];
  }

  /** Updates one book in place; no other book changes. */
  method Update(books: Books, ghost values: map<Symbol, Book>, u: ParsedUpdate, clock: real)
    requires Live(books, values) && u.symbol in books
    modifies books[u.symbol].Repr
    ensures Live(books, values[u.symbol := UpdatedBook(values[u.symbol], u, clock)])
    ensures fresh(Footprint(books) - old(Footprint(books)))
  {
    hide Holds, UpdatedBook;
    UpdateBook(books[u.symbol], values[u.symbol], u, clock);
  }

  /** Tracks the symbol if need be, then updates its book. */
  method TrackAndUpdate(books: Books, ghost values: map<Symbol, Book>, u: ParsedUpdate, added: real, applied: real)
    returns (r: Books)
    requires Live(books, values)
    modifies Footprint(books)
    ensures Live(r, WithUpdate(values, u, applied)) && fresh(Footprint(r) - old(Footprint(books)))
  {
    hide Live, Holds, UpdatedBook;
    TracksSymbol(books, values, u.symbol);
    r := Track(books, values, u.symbol, added);
    TracksSymbol(r, WithBook(values, u.symbol), u.symbol);
    OwnBook(r, u.symbol);
    Update(r, WithBook(values, u.symbol), u, applied);
  }

  lemma TracksSymbol(books: Books, values: map<Symbol, Book>, s: Symbol)
    requires Live(books, values)
    ensures s in books <==> s in values
  {
    hide Holds;
  }

  lemma OwnBook(books: Books, s: Symbol)
    requires s in books
    ensures books[s].Repr <= Footprint(books)
  {
  }

  /** The values after the symbol is tracked and its book updated. */
  ghost function WithUpdate(values: map<Symbol, Book>, u: ParsedUpdate, clock: real): map<Symbol, Book>
  {
    var tracked := WithBook(values, u.symbol);
    tracked[u.symbol := UpdatedBook(tracked[u.symbol], u, clock)]
  }

  // ----- operations of the manager

  /** What an operation does to the values. */
  ghost function BooksAfter(threshold: real, st: State, op: Op): map<Symbol, Book>
  {
    match op
    case AddSymbolOp(s, _) => WithBook(st.books, s)
    case UpdateOp(u, c) => WithUpdate(st.books, u, c.applied)
    case CleanupOp(now) => st.books - (Stale(st, now, threshold) - st.active)
    case StopOp => if st.running then map[] else st.books
    case _ => st.books
  }

  lemma UpdateBooks(st: State, u: ParsedUpdate, c: Clocks)
    requires Invariant(st)
    ensures SameKeys(st) && Applied(st, u, c).0.books == WithUpdate(st.books, u, c.applied)
  {
    hide *;
    InvariantMeans(st, u.symbol);
    AppliedIs(st, u, c);
    TrackedBooks(st, u, c);
    RecordedBooks(TrackedFor(st, u, c), u, c);
    FailedBooks(Recorded(TrackedFor(st, u, c), u, c), u.symbol);
    WithUpdateIs(st.books, u, c.applied);
  }

  lemma TrackedBooks(st: State, u: ParsedUpdate, c: Clocks)
    ensures TrackedFor(st, u, c).books == WithBook(st.books, u.symbol)
  {
  }

  lemma RecordedBooks(st: State, u: ParsedUpdate, c: Clocks)
    requires u.symbol in st.books && u.symbol in st.stats
    ensures Recorded(st, u, c).books == st.books[u.symbol := UpdatedBook(st.books[u.symbol], u, c.applied)]
  {
    hide UpdatedBook, Refreshed;
  }

  lemma FailedBooks(st: State, s: Symbol)
    ensures Failed(st, s).books == st.books
  {
  }

  lemma WithUpdateIs(values: map<Symbol, Book>, u: ParsedUpdate, clock: real)
    ensures u.symbol in WithBook(values, u.symbol)
    ensures WithUpdate(values, u, clock)
         == WithBook(values, u.symbol)[u.symbol := UpdatedBook(WithBook(values, u.symbol)[u.symbol], u, clock)]
  {
    hide UpdatedBook;
  }

  lemma StepBooks(threshold: real, st: State, op: Op)
    requires Invariant(st)
    ensures Step(threshold, st, op).books == BooksAfter(threshold, st, op)
  {
    hide Invariant, BookOk, Agrees, Applied, WithUpdate, Stale, NewStats;
    if op.UpdateOp? {
      UpdateBooks(st, op.update, op.clocks);
    }
  }

  lemma LiveRest(books: Books, values: map<Symbol, Book>, gone: set<Symbol>)
    requires Live(books, values)
    ensures Live(books - gone, values - gone) && Footprint(books - gone) <= Footprint(books)
  {
    hide Holds;
  }

  lemma NothingLive()
    ensures Live(map[], map[]) && Footprint(map[]) == {}
  {
  }

  /** The same operation on the objects; which symbols are evicted is read off the records. */
  method StepObjects(threshold: real, books: Books, st: State, op: Op) returns (r: Books)
    requires Live(books, st.books)
    modifies Footprint(books)
    ensures Live(r, BooksAfter(threshold, st, op)) && fresh(Footprint(r) - old(Footprint(books)))
  {
    hide Live, Footprint, WithUpdate, WithBook, Stale;
    match op
    case AddSymbolOp(s, now) =>
      r := Track(books, st.books, s, now);
    case UpdateOp(u, c) =>
      r := TrackAndUpdate(books, st.books, u, c.added, c.applied);
    case CleanupOp(now) =>
      var gone := Stale(st, now, threshold) - st.active;
      LiveRest(books, st.books, gone);
      r := books - gone;
    case StopOp =>
      NothingLive();
      r := if st.running then map[] else books;
    case _ =>
      r := books;
  }

  // ----- whole runs

  /** The record's cached figures are what is read off the book object; the health flag needs a first update. */
  ghost predicate Cached(v: OrderbookStats, book: HFTOrderBook)
    reads book, book.Repr
    requires book.Valid()
  {
    && v.bidLevels == |book.bids.keys| && v.askLevels == |book.asks.keys|
    && v.spread == SpreadOf(book.bids, book.asks) && v.midPrice == MidOf(book.bids, book.asks)
    && v.isHealthy == (v.totalUpdates == 0 || TopUncrossed(book.bids, book.asks))
  }

  lemma CachedFigures(v: OrderbookStats, b: Book, book: HFTOrderBook)
    requires Holds(book, b) && Agrees(v, b)
    ensures book.Valid() && Cached(v, book)
  {
    hide SortedDict.Valid, SideValid, SpreadOf, MidOf, TopUncrossed, Healthy;
    SameTop(book, b);
    KeysCount(b.bids);
    KeysCount(b.asks);
    TopDecidesHealth(b.bids, b.asks);
  }

  /** Every tracked object carries the figures that the manager has cached for it. */
  ghost predicate AllCached(books: Books, st: State)
    reads books.Values, Footprint(books)
  {
    forall s :: s in books ==> s in st.stats && books[s].Valid() && Cached(st.stats[s], books[s])
  }

  lemma LiveIsCached(books: Books, st: State)
    requires Invariant(st) && Live(books, st.books)
    ensures AllCached(books, st)
  {
    hide BookOk, Agrees, Holds, Cached;
    forall s | s in books
      ensures s in st.stats && books[s].Valid() && Cached(st.stats[s], books[s])
    {
      CachedFigures(st.stats[s], st.books[s], books[s]);
    }
  }

  /** Over every run of the manager, the book objects updated in place share nothing, hold exactly the levels of the
      manager's state, and carry the figures cached for them. */
  method RunObjects(threshold: real, ops: seq<Op>) returns (books: Books)
    ensures Live(books, Run(threshold, ops).books) && fresh(Footprint(books))
    ensures AllCached(books, Run(threshold, ops))
  {
    hide Live, Footprint, Step, Invariant;
    var st := INITIAL;
    books := map[];
    NothingLive();
    for i := 0 to |ops|
      invariant st == Run(threshold, ops[..i]) && Live(books, st.books) && fresh(Footprint(books))
    {
      assert ops[..i + 1][..i] == ops[..i];
      books := StepObjects(threshold, books, st, ops[i]);
      StepBooks(threshold, st, ops[i]);
      st := Step(threshold, st, ops[i]);
    }
    assert ops[..|ops|] == ops;
    LiveIsCached(books, st);
  }
}
