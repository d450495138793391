/** Runs over one cache object: the clock readings decide the cutoffs. */
module DeduplicationRuns {
  import opened Sums
  import opened Deduplication

  /** A batch insert with its two clock readings: the one that decides whether a cleanup is due and the one it evicts
      by. */
  datatype Call<T> = Call(items: seq<T>, currentTime: real, now: real)

  // ----- book tickers: a cleanup at most once per interval

  /** The cutoff of the cleanup before a batch, if there is one. */
  function BookCutoff(call: Call<BookTickerSnapshot>, lastCleanup: real): Option<real>
  {
    if call.items == [] || call.currentTime - lastCleanup < CACHE_CLEANUP_INTERVAL then None
    else Some(call.now - CACHE_LIFE)
  }

  /** Time of the last cleanup after these calls. */
  function LastCleanup(calls: seq<Call<BookTickerSnapshot>>, start: real): real
  {
    if |calls| == 0 then start
    else
      var n := |calls| - 1;
      var before := LastCleanup(calls[..n], start);
      if BookCutoff(calls[n], before).Some? then calls[n].currentTime else before
  }

  /** A batch, and not an empty one, that comes five minutes or more after the given time. */
  ghost predicate Due(call: Call<BookTickerSnapshot>, since: real)
  {
    call.items != [] && call.currentTime >= since + 300.0
  }

  /** Call m was due, and none after it. */
  ghost predicate LastDue(calls: seq<Call<BookTickerSnapshot>>, start: real, m: nat)
    requires m < |calls|
  {
    && Due(calls[m], LastCleanup(calls[..m], start))
    && forall j :: m < j < |calls| ==> !Due(calls[j], calls[m].currentTime)
  }

  lemma LastDueSnoc(calls: seq<Call<BookTickerSnapshot>>, start: real, m: nat)
    requires m < |calls| - 1
    ensures LastDue(calls, start, m)
       <==> LastDue(calls[..|calls| - 1], start, m) && !Due(calls[|calls| - 1], calls[m].currentTime)
  {
    hide LastCleanup, Due;
    var n := |calls| - 1;
    assert calls[..n][..m] == calls[..m] && forall j :: 0 <= j < n ==> calls[..n][j] == calls[j];
  }

  /** The last cleanup was that of the last call that was due when it came; without one, it is where the run started. */
  lemma {:induction false} LastCleanupExactly(calls: seq<Call<BookTickerSnapshot>>, start: real)
    ensures var last := LastCleanup(calls, start);
            || (last == start && forall j :: 0 <= j < |calls| ==> !Due(calls[j], start))
            || exists m :: 0 <= m < |calls| && last == calls[m].currentTime && LastDue(calls, start, m)
  {
    if |calls| == 0 {
    } else {
      hide Due, LastDue;
      var n := |calls| - 1;
      var before := LastCleanup(calls[..n], start);
      LastCleanupExactly(calls[..n], start);
      assert forall j :: 0 <= j < n ==> calls[..n][j] == calls[j];
      DueMeans(calls[n], before);
      if Due(calls[n], before) {
        JustDue(calls, start);
      } else if m :| 0 <= m < n && before == calls[..n][m].currentTime && LastDue(calls[..n], start, m) {
        LastDueSnoc(calls, start, m);
      }
    }
  }

  lemma DueMeans(call: Call<BookTickerSnapshot>, since: real)
    ensures BookCutoff(call, since).Some? <==> Due(call, since)
  {
  }

  lemma JustDue(calls: seq<Call<BookTickerSnapshot>>, start: real)
    requires |calls| > 0 && Due(calls[|calls| - 1], LastCleanup(calls[..|calls| - 1], start))
    ensures LastDue(calls, start, |calls| - 1)
  {
  }

  /** The batches with the cutoffs that the clock gives them. */
  function BookBatches(calls: seq<Call<BookTickerSnapshot>>, start: real): (r: seq<Batch<BookTickerSnapshot>>)
    ensures |r| == |calls|
  {
    if |calls| == 0 then []
    else
      var n := |calls| - 1;
      BookBatches(calls[..n], start) + [Batch(calls[n].items, BookCutoff(calls[n], LastCleanup(calls[..n], start)))]
  }

  /** An empty batch changes nothing. */
  lemma EmptyBatch<T>(seen: set<Key>, key: T -> Key)
    ensures Kept([], key, Evict(seen, None)) == [] && Evict(seen, None) + KeysOf([], key) == seen
  {
  }

  /** One more batch of a run. */
  lemma OneMore<T>(seen: set<Key>, batches: seq<Batch<T>>, b: Batch<T>, key: T -> Key)
    ensures var cached := Evict(SeenAfter(seen, batches, key), b.cutoff);
            && SeenAfter(seen, batches + [b], key) == cached + KeysOf(b.items, key)
            && Emitted(seen, batches + [b], key) == Emitted(seen, batches, key) + Kept(b.items, key, cached)
  {
    hide Kept, KeysOf, Evict;
    assert (batches + [b])[..|batches|] == batches;
  }

  /** Batches inserted through one cache: what is written and what is cached is what the run says. */
  method InsertBookTickers(cache: BookTickerCache, calls: seq<Call<BookTickerSnapshot>>)
    returns (written: seq<BookTickerSnapshot>)
    modifies cache
    ensures var batches := BookBatches(calls, old(cache.lastCleanup));
            && written == Emitted(old(cache.Seen()), batches, BookKey)
            && cache.Seen() == SeenAfter(old(cache.Seen()), batches, BookKey)
            && cache.lastCleanup == LastCleanup(calls, old(cache.lastCleanup))
  {
    hide Kept, KeysOf, Evict, Emitted, SeenAfter, BookTickerCache.Seen, BookKey;
    ghost var start, seen := cache.lastCleanup, cache.Seen();
    written := [];
    NoBatches(seen, BookKey);
    for i := 0 to |calls|
      invariant written == Emitted(seen, BookBatches(calls[..i], start), BookKey)
      invariant cache.Seen() == SeenAfter(seen, BookBatches(calls[..i], start), BookKey)
      invariant cache.lastCleanup == LastCleanup(calls[..i], start)
    {
      assert calls[..i + 1][..i] == calls[..i];
      EmptyBatch(cache.Seen(), BookKey);
      OneMore(seen, BookBatches(calls[..i], start), Batch(calls[i].items, BookCutoff(calls[i], cache.lastCleanup)),
              BookKey);
      var r, hits := cache.DeduplicateBatch(calls[i].items, calls[i].currentTime, calls[i].now);
      written := written + r;
    }
    assert calls[..|calls|] == calls;
  }

  lemma NoBatches<T>(seen: set<Key>, key: T -> Key)
    ensures Emitted(seen, [], key) == [] && SeenAfter(seen, [], key) == seen
  {
  }

  lemma {:induction false} BookBatchAt(calls: seq<Call<BookTickerSnapshot>>, start: real, m: nat)
    requires m < |calls|
    ensures BookBatches(calls, start)[m] == Batch(calls[m].items, BookCutoff(calls[m], LastCleanup(calls[..m], start)))
  {
    var n := |calls| - 1;
    if m < n {
      BookBatchAt(calls[..n], start, m);
      assert calls[..n][..m] == calls[..m];
    }
  }

  /** No call came ten minutes or more after the timestamp of k. */
  ghost predicate Young<T>(calls: seq<Call<T>>, k: Key)
  {
    forall m :: 0 <= m < |calls| ==> calls[m].now < k.timestamp + 600.0
  }

  /** A book ticker is written once if it came at all, and never if it was cached at the start, as long as no insert
      comes ten minutes or more after its timestamp. */
  lemma BookTickerWrittenOnce(seen: set<Key>, calls: seq<Call<BookTickerSnapshot>>, start: real, k: Key)
    requires Young(calls, k)
    ensures CountKey(Emitted(seen, BookBatches(calls, start), BookKey), BookKey, k)
         == if k !in seen && (exists j :: 0 <= j < |calls| && k in KeysOf(calls[j].items, BookKey)) then 1 else 0
  {
    hide CountKey, Emitted, KeysOf, LastCleanup, BookBatches;
    var batches := BookBatches(calls, start);
    forall m | 0 <= m < |calls|
      ensures !Evicts(batches[m], k) && batches[m].items == calls[m].items
    {
      BookBatchAt(calls, start, m);
    }
    EmittedOnce(seen, batches, BookKey, k);
  }

  /** Call m cleans up and finds k ten minutes old. */
  ghost predicate BookEvicted(calls: seq<Call<BookTickerSnapshot>>, start: real, m: nat, k: Key)
    requires m < |calls|
  {
    && calls[m].items != [] && calls[m].currentTime >= LastCleanup(calls[..m], start) + 300.0
    && calls[m].now >= k.timestamp + 600.0
  }

  /** A book ticker whose key came in call j and comes again in the last call is written again if and only if one of the
      calls since, the last included, cleaned up and found it ten minutes old. */
  lemma BookTickerWrittenAgain(seen: set<Key>, calls: seq<Call<BookTickerSnapshot>>, start: real, j: nat, k: Key)
    requires j + 1 < |calls| && k in KeysOf(calls[j].items, BookKey)
    requires forall m :: j < m < |calls| - 1 ==> k !in KeysOf(calls[m].items, BookKey)
    requires k in KeysOf(calls[|calls| - 1].items, BookKey)
    ensures var n := |calls| - 1;
            var before := Emitted(seen, BookBatches(calls[..n], start), BookKey);
            var all := Emitted(seen, BookBatches(calls, start), BookKey);
            && before <= all
            && (k in KeysOf(all[|before|..], BookKey)
                <==> exists m :: j < m < |calls| && BookEvicted(calls, start, m, k))
  {
    hide Emitted, KeysOf, SeenAfter, Kept, Evict, LastCleanup, BookBatches, BookKey;
    var n := |calls| - 1;
    var batches := BookBatches(calls, start);
    BatchesSnoc(calls, start);
    forall m | 0 <= m < |calls|
      ensures batches[m].items == calls[m].items && (Evicts(batches[m], k) <==> BookEvicted(calls, start, m, k))
    {
      BookBatchAt(calls, start, m);
    }
    OneMore(seen, batches[..n], batches[n], BookKey);
    EmittedAgain(seen, batches, BookKey, j, k);
    var cached := Evict(SeenAfter(seen, batches[..n], BookKey), batches[n].cutoff);
    var before := Emitted(seen, batches[..n], BookKey);
    assert Emitted(seen, batches, BookKey)[|before|..] == Kept(batches[n].items, BookKey, cached);
  }

  lemma BatchesSnoc(calls: seq<Call<BookTickerSnapshot>>, start: real)
    requires |calls| > 0
    ensures var n := |calls| - 1;
            && BookBatches(calls, start)[..n] == BookBatches(calls[..n], start)
            && BookBatches(calls, start) == BookBatches(calls, start)[..n] + [BookBatches(calls, start)[n]]
  {
  }

  // ----- the same in records

  function OfBook(symbolId: int, timestamp: real): BookTickerSnapshot -> bool
  {
    (s: BookTickerSnapshot) => s.symbolId == symbolId && s.timestamp == timestamp
  }

  /** A missing trade id counts as an empty one. */
  function OfTrade(symbolId: int, timestamp: real, tradeId: string): TradeSnapshot -> bool
  {
    (s: TradeSnapshot) =>
      s.symbolId == symbolId && s.timestamp == timestamp
      && if s.tradeId.Some? then s.tradeId.value == tradeId else tradeId == ""
  }

  /** A record of the batch has this key. */
  ghost predicate Comes<T>(calls: seq<Call<T>>, p: T -> bool)
  {
    exists j, i :: 0 <= j < |calls| && 0 <= i < |calls[j].items| && p(calls[j].items[i])
  }

  lemma {:induction false} CountIsFilter<T(!new)>(items: seq<T>, key: T -> Key, k: Key, p: T -> bool)
    requires forall x :: x in items ==> (key(x) == k <==> p(x))
    ensures CountKey(items, key, k) == |Filter(items, p)|
  {
    if |items| == 0 {
    } else {
      var n := |items| - 1;
      assert items[n] in items;
      CountIsFilter(items[..n], key, k, p);
    }
  }

  lemma ComesMeans<T(!new)>(calls: seq<Call<T>>, key: T -> Key, k: Key, p: T -> bool)
    requires forall x: T :: key(x) == k <==> p(x)
    ensures (exists j :: 0 <= j < |calls| && k in KeysOf(calls[j].items, key)) <==> Comes(calls, p)
  {
    if j :| 0 <= j < |calls| && k in KeysOf(calls[j].items, key) {
      var i :| 0 <= i < |calls[j].items| && k == key(calls[j].items[i]);
      assert p(calls[j].items[i]);
    }
    if j, i :| 0 <= j < |calls| && 0 <= i < |calls[j].items| && p(calls[j].items[i]) {
      assert key(calls[j].items[i]) in KeysOf(calls[j].items, key);
    }
  }

  /** Of all book tickers of one symbol and time exactly one is written, if any came and none was cached at the start,
      as long as every insert comes less than ten minutes after that time. */
  lemma OneBookTickerWritten(
    seen: set<Key>, calls: seq<Call<BookTickerSnapshot>>, start: real, symbolId: int, timestamp: real)
    requires forall m :: 0 <= m < |calls| ==> calls[m].now < timestamp + 600.0
    ensures |Filter(Emitted(seen, BookBatches(calls, start), BookKey), OfBook(symbolId, timestamp))|
         == if Key(symbolId, timestamp, "") !in seen && Comes(calls, OfBook(symbolId, timestamp)) then 1 else 0
  {
    hide Emitted, BookBatches, Filter, CountKey, Comes, KeysOf;
    var k, p := Key(symbolId, timestamp, ""), OfBook(symbolId, timestamp);
    assert forall x: BookTickerSnapshot :: BookKey(x) == k <==> p(x);
    BookTickerWrittenOnce(seen, calls, start, k);
    CountIsFilter(Emitted(seen, BookBatches(calls, start), BookKey), BookKey, k, p);
    ComesMeans(calls, BookKey, k, p);
  }

  /** The same for trades of one symbol, time and id. */
  lemma OneTradeWritten(
    seen: set<Key>, calls: seq<Call<TradeSnapshot>>, symbolId: int, timestamp: real, tradeId: string)
    requires forall m :: 0 <= m < |calls| ==> calls[m].now < timestamp + 600.0
    ensures |Filter(Emitted(seen, TradeBatches(calls), TradeKey), OfTrade(symbolId, timestamp, tradeId))|
         == if Key(symbolId, timestamp, tradeId) !in seen && Comes(calls, OfTrade(symbolId, timestamp, tradeId)) then 1
            else 0
  {
    hide Emitted, TradeBatches, Filter, CountKey, Comes, KeysOf;
    var k, p := Key(symbolId, timestamp, tradeId), OfTrade(symbolId, timestamp, tradeId);
    assert forall x: TradeSnapshot :: TradeKey(x) == k <==> p(x);
    TradeWrittenOnce(seen, calls, k);
    CountIsFilter(Emitted(seen, TradeBatches(calls), TradeKey), TradeKey, k, p);
    ComesMeans(calls, TradeKey, k, p);
  }

  // ----- trades: a cleanup before every batch

  function TradeBatches(calls: seq<Call<TradeSnapshot>>): (r: seq<Batch<TradeSnapshot>>)
    ensures |r| == |calls|
    ensures forall m :: 0 <= m < |calls| ==>
      r[m] == Batch(calls[m].items, if calls[m].items == [] then None else Some(calls[m].now - CACHE_LIFE))
  {
    if |calls| == 0 then []
    else
      var n := |calls| - 1;
      TradeBatches(calls[..n])
      + [Batch(calls[n].items, if calls[n].items == [] then None else Some(calls[n].now - CACHE_LIFE))]
  }

  /** The same for the trade cache. */
  method InsertTrades(cache: TradeCache, calls: seq<Call<TradeSnapshot>>) returns (written: seq<TradeSnapshot>)
    requires cache.Valid()
    modifies cache
    ensures cache.Valid() && written == Emitted(old(cache.Seen()), TradeBatches(calls), TradeKey)
    ensures cache.Seen() == SeenAfter(old(cache.Seen()), TradeBatches(calls), TradeKey)
  {
    hide Kept, KeysOf, Evict, Emitted, SeenAfter, TradeCache.Seen, TradeCache.Valid, TradeKey;
    ghost var seen := cache.Seen();
    written := [];
    NoBatches(seen, TradeKey);
    for i := 0 to |calls|
      invariant cache.Valid() && written == Emitted(seen, TradeBatches(calls[..i]), TradeKey)
      invariant cache.Seen() == SeenAfter(seen, TradeBatches(calls[..i]), TradeKey)
    {
      assert calls[..i + 1][..i] == calls[..i];
      EmptyBatch(cache.Seen(), TradeKey);
      OneMore(seen, TradeBatches(calls[..i]), TradeBatches(calls[..i + 1])[i], TradeKey);
      var r, hits := cache.DeduplicateBatch(calls[i].items, calls[i].now);
      written := written + r;
    }
    assert calls[..|calls|] == calls;
  }

  /** A trade is written once under the same condition. */
  lemma TradeWrittenOnce(seen: set<Key>, calls: seq<Call<TradeSnapshot>>, k: Key)
    requires Young(calls, k)
    ensures CountKey(Emitted(seen, TradeBatches(calls), TradeKey), TradeKey, k)
         == if k !in seen && (exists j :: 0 <= j < |calls| && k in KeysOf(calls[j].items, TradeKey)) then 1 else 0
  {
    hide CountKey, Emitted, KeysOf;
    EmittedOnce(seen, TradeBatches(calls), TradeKey, k);
  }
}
