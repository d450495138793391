/** In-memory deduplication of snapshot batches across calls: the caches in front of the database. */
module Deduplication {
  import opened Sums

  /** What identifies a record; book tickers and trades without an id carry an empty trade id. */
  datatype Key = Key(symbolId: int, timestamp: real, tradeId: string)

  ghost function KeysOf<T>(items: seq<T>, key: T -> Key): set<Key>
  {
    set i | 0 <= i < |items| :: key(items[i])
  }

  /** The items whose key is neither cached nor the key of an earlier item. */
  ghost function Kept<T>(items: seq<T>, key: T -> Key, seen: set<Key>): seq<T>
  {
    if |items| == 0 then []
    else
      var n := |items| - 1;
      var before := Kept(items[..n], key, seen);
      if key(items[n]) in seen + KeysOf(items[..n], key) then before else before + [items[n]]
  }

  /** What a cleanup leaves: keys with a timestamp after the cutoff. */
  ghost function Evict(seen: set<Key>, cutoff: Option<real>): set<Key>
  {
    if cutoff.None? then seen else set k | k in seen && k.timestamp > cutoff.value
  }

  // One batch.

  lemma KeysOfSnoc<T>(items: seq<T>, x: T, key: T -> Key)
    ensures KeysOf(items + [x], key) == KeysOf(items, key) + {key(x)}
  {
    var all := items + [x];
    forall k
      ensures k in KeysOf(all, key) <==> k in KeysOf(items, key) || k == key(x)
    {
      if k in KeysOf(items, key) {
        var i :| 0 <= i < |items| && k == key(items[i]);
        assert all[i] == items[i];
      }
      assert all[|items|] == x;
    }
  }

  /** One more item of a batch: a cache hit, or kept. */
  lemma KeptSnoc<T>(items: seq<T>, n: nat, key: T -> Key, seen: set<Key>)
    requires n < |items|
    ensures KeysOf(items[..n + 1], key) == KeysOf(items[..n], key) + {key(items[n])}
    ensures Kept(items[..n + 1], key, seen)
      == if key(items[n]) in seen + KeysOf(items[..n], key) then Kept(items[..n], key, seen)
         else Kept(items[..n], key, seen) + [items[n]]
  {
    assert items[..n + 1] == items[..n] + [items[n]] && items[..n + 1][..n] == items[..n];
    KeysOfSnoc(items[..n], items[n], key);
  }

  lemma NothingYet<T>(items: seq<T>, key: T -> Key, seen: set<Key>)
    ensures Kept(items[..0], key, seen) == [] && KeysOf(items[..0], key) == {}
  {
  }

  /** The keys kept are exactly the keys of the batch that were not cached. */
  lemma {:induction false} KeptKeys<T>(items: seq<T>, key: T -> Key, seen: set<Key>)
    ensures KeysOf(Kept(items, key, seen), key) == KeysOf(items, key) - seen
  {
    if |items| == 0 {
    } else {
      var n := |items| - 1;
      var before := Kept(items[..n], key, seen);
      KeptKeys(items[..n], key, seen);
      assert items == items[..n] + [items[n]];
      KeysOfSnoc(items[..n], items[n], key);
      KeysOfSnoc(before, items[n], key);
    }
  }

  ghost predicate DistinctKeys<T, K>(items: seq<T>, key: T -> K)
  {
    forall i, j :: 0 <= i < j < |items| ==> key(items[i]) != key(items[j])
  }

  /** No key is kept twice. */
  lemma {:induction false} KeptDistinct<T>(items: seq<T>, key: T -> Key, seen: set<Key>)
    ensures DistinctKeys(Kept(items, key, seen), key)
  {
    if |items| == 0 {
    } else {
      var n := |items| - 1;
      KeptDistinct(items[..n], key, seen);
      KeptKeys(items[..n], key, seen);
      var before := Kept(items[..n], key, seen);
      assert forall i :: 0 <= i < |before| ==> key(before[i]) in KeysOf(before, key);
    }
  }

  ghost predicate FirstWithKey<T>(items: seq<T>, key: T -> Key, i: nat)
    requires i < |items|
  {
    forall j :: 0 <= j < i ==> key(items[j]) != key(items[i])
  }

  /** x is the first item with its key. */
  ghost predicate IsFirst<T>(items: seq<T>, key: T -> Key, x: T)
  {
    exists i :: 0 <= i < |items| && items[i] == x && FirstWithKey(items, key, i)
  }

  lemma FirstSnoc<T>(items: seq<T>, key: T -> Key, x: T)
    requires |items| > 0
    ensures var n := |items| - 1;
            IsFirst(items, key, x) <==>
              IsFirst(items[..n], key, x) || (items[n] == x && key(x) !in KeysOf(items[..n], key))
  {
    var n := |items| - 1;
    var before := items[..n];
    assert forall i :: 0 <= i < n ==> before[i] == items[i];
    assert FirstWithKey(items, key, n) <==> key(items[n]) !in KeysOf(before, key);
    if i :| 0 <= i < n && before[i] == x && FirstWithKey(before, key, i) {
      assert items[i] == x && FirstWithKey(items, key, i);
    }
    if i :| 0 <= i < n && items[i] == x && FirstWithKey(items, key, i) {
      assert before[i] == x && FirstWithKey(before, key, i);
    }
  }

  /** Of several items with one key the first is kept, never a later one. */
  lemma {:induction false} FirstOccurrenceWins<T>(items: seq<T>, key: T -> Key, seen: set<Key>, x: T)
    ensures x in Kept(items, key, seen) <==> key(x) !in seen && IsFirst(items, key, x)
  {
    if |items| == 0 {
    } else {
      hide IsFirst, KeysOf;
      FirstOccurrenceWins(items[..|items| - 1], key, seen, x);
      FirstSnoc(items, key, x);
    }
  }

  /** Items whose keys are all cached leave nothing, whatever the batch looks like. */
  lemma {:induction false} CachedLeavesNothing<T>(items: seq<T>, key: T -> Key, seen: set<Key>)
    requires KeysOf(items, key) <= seen
    ensures Kept(items, key, seen) == []
  {
    KeptKeys(items, key, seen);
    if Kept(items, key, seen) != [] {
      FirstKey(Kept(items, key, seen), key);
    }
  }

  lemma FirstKey<T>(items: seq<T>, key: T -> Key)
    requires items != []
    ensures key(items[0]) in KeysOf(items, key)
  {
  }

  // Runs of batches.

  /** A batch, and the cutoff of the cleanup before it if there was one. */
  datatype Batch<T> = Batch(items: seq<T>, cutoff: Option<real>)

  ghost function SeenAfter<T>(seen: set<Key>, batches: seq<Batch<T>>, key: T -> Key): set<Key>
  {
    if |batches| == 0 then seen
    else
      var n := |batches| - 1;
      Evict(SeenAfter(seen, batches[..n], key), batches[n].cutoff) + KeysOf(batches[n].items, key)
  }

  ghost function Emitted<T>(seen: set<Key>, batches: seq<Batch<T>>, key: T -> Key): seq<T>
  {
    if |batches| == 0 then []
    else
      var n := |batches| - 1;
      Emitted(seen, batches[..n], key)
      + Kept(batches[n].items, key, Evict(SeenAfter(seen, batches[..n], key), batches[n].cutoff))
  }

  predicate Evicts<T>(b: Batch<T>, k: Key)
  {
    b.cutoff.Some? && k.timestamp <= b.cutoff.value
  }

  /** Some cleanup before one of the batches from j on evicts k. */
  ghost predicate EvictedFrom<T>(batches: seq<Batch<T>>, j: nat, k: Key)
  {
    exists m :: j <= m < |batches| && Evicts(batches[m], k)
  }

  /** k is in batch j and no cleanup after that batch evicts it. */
  ghost predicate RememberedFrom<T>(batches: seq<Batch<T>>, key: T -> Key, j: nat, k: Key)
    requires j < |batches|
  {
    k in KeysOf(batches[j].items, key) && !EvictedFrom(batches, j + 1, k)
  }

  lemma EvictedSnoc<T>(batches: seq<Batch<T>>, j: nat, k: Key)
    requires |batches| > 0 && j < |batches|
    ensures var n := |batches| - 1;
            EvictedFrom(batches, j, k) <==> EvictedFrom(batches[..n], j, k) || Evicts(batches[n], k)
  {
    var n := |batches| - 1;
    if EvictedFrom(batches[..n], j, k) {
      var m :| j <= m < n && Evicts(batches[..n][m], k);
      assert Evicts(batches[m], k);
    }
    if EvictedFrom(batches, j, k) {
      var m :| j <= m < |batches| && Evicts(batches[m], k);
      if m < n {
        assert Evicts(batches[..n][m], k);
      }
    }
  }

  /** A key is cached exactly when it was cached at the start, or came in some batch, and no cleanup since evicted
      it. */
  lemma {:induction false} SeenExactly<T>(seen: set<Key>, batches: seq<Batch<T>>, key: T -> Key, k: Key)
    ensures k in SeenAfter(seen, batches, key) <==>
      || (k in seen && !EvictedFrom(batches, 0, k))
      || exists j :: 0 <= j < |batches| && RememberedFrom(batches, key, j, k)
  {
    if |batches| == 0 {
    } else {
      var n := |batches| - 1;
      SeenExactly(seen, batches[..n], key, k);
      EvictedSnoc(batches, 0, k);
      assert RememberedFrom(batches, key, n, k) <==> k in KeysOf(batches[n].items, key);
      forall j | 0 <= j < n
        ensures RememberedFrom(batches, key, j, k)
          <==> RememberedFrom(batches[..n], key, j, k) && !Evicts(batches[n], k)
      {
        EvictedSnoc(batches, j + 1, k);
      }
    }
  }

  /** A key emitted before comes through again exactly when a cleanup after its last batch, up to and
      including the one before this batch, found its timestamp at or before the cutoff. */
  lemma EmittedAgain<T>(seen: set<Key>, batches: seq<Batch<T>>, key: T -> Key, j: nat, k: Key)
    requires j + 1 < |batches| && k in KeysOf(batches[j].items, key)
    requires forall m :: j < m < |batches| - 1 ==> k !in KeysOf(batches[m].items, key)
    requires k in KeysOf(batches[|batches| - 1].items, key)
    ensures var n := |batches| - 1;
            k in KeysOf(Kept(batches[n].items, key, Evict(SeenAfter(seen, batches[..n], key), batches[n].cutoff)), key)
            <==> EvictedFrom(batches, j + 1, k)
  {
    var n := |batches| - 1;
    var before := batches[..n];
    KeptKeys(batches[n].items, key, Evict(SeenAfter(seen, before, key), batches[n].cutoff));
    SeenExactly(seen, before, key, k);
    EvictedSnoc(batches, j + 1, k);
    if !EvictedFrom(before, j + 1, k) {
      assert RememberedFrom(before, key, j, k);
    } else {
      var m :| j + 1 <= m < n && Evicts(before[m], k);
      assert EvictedFrom(before, 0, k);
      forall i | 0 <= i < n
        ensures !RememberedFrom(before, key, i, k)
      {
        if i <= j {
          assert EvictedFrom(before, i + 1, k);
        } else {
          assert before[i] == batches[i];
        }
      }
    }
  }

  ghost function CountKey<T>(items: seq<T>, key: T -> Key, k: Key): nat
  {
    if |items| == 0 then 0
    else
      var n := |items| - 1;
      CountKey(items[..n], key, k) + if key(items[n]) == k then 1 else 0
  }

  lemma {:induction false} CountConcat<T>(xs: seq<T>, ys: seq<T>, key: T -> Key, k: Key)
    ensures CountKey(xs + ys, key, k) == CountKey(xs, key, k) + CountKey(ys, key, k)
  {
    if |ys| == 0 {
      assert xs + ys == xs;
    } else {
      var n := |ys| - 1;
      CountConcat(xs, ys[..n], key, k);
      assert (xs + ys)[..|xs + ys| - 1] == xs + ys[..n];
    }
  }

  /** A kept key is kept once. */
  lemma {:induction false} KeptCount<T>(items: seq<T>, key: T -> Key, seen: set<Key>, k: Key)
    ensures CountKey(Kept(items, key, seen), key, k) == if k in KeysOf(items, key) - seen then 1 else 0
  {
    if |items| == 0 {
    } else {
      var n := |items| - 1;
      KeptCount(items[..n], key, seen, k);
      assert items == items[..n] + [items[n]];
      KeysOfSnoc(items[..n], items[n], key);
      var before := Kept(items[..n], key, seen);
      assert (before + [items[n]])[..|before|] == before;
    }
  }

  /** Over a run in which no cleanup evicts k, records with key k reach the database once if k came in
      some batch and was not cached at the start, and never otherwise. */
  lemma {:induction false} EmittedOnce<T>(seen: set<Key>, batches: seq<Batch<T>>, key: T -> Key, k: Key)
    requires !EvictedFrom(batches, 0, k)
    ensures CountKey(Emitted(seen, batches, key), key, k)
      == if k !in seen && (exists j :: 0 <= j < |batches| && k in KeysOf(batches[j].items, key)) then 1 else 0
  {
    if |batches| == 0 {
    } else {
      hide Kept, Evict, KeysOf, CountKey, SeenAfter, Emitted, EvictedFrom, Evicts;
      var n := |batches| - 1;
      EvictedSnoc(batches, 0, k);
      EmittedOnce(seen, batches[..n], key, k);
      OneMoreBatch(seen, batches, key, k);
      EverSeen(seen, batches[..n], key, k);
      assert forall j :: 0 <= j < n ==> batches[..n][j] == batches[j];
    }
  }

  /** What one more batch adds to the records emitted with key k. */
  lemma OneMoreBatch<T>(seen: set<Key>, batches: seq<Batch<T>>, key: T -> Key, k: Key)
    requires |batches| > 0 && !Evicts(batches[|batches| - 1], k)
    ensures var n := |batches| - 1;
            CountKey(Emitted(seen, batches, key), key, k)
              == CountKey(Emitted(seen, batches[..n], key), key, k)
                 + if k in KeysOf(batches[n].items, key) && k !in SeenAfter(seen, batches[..n], key) then 1 else 0
  {
    hide Kept, Evict, KeysOf, CountKey, SeenAfter;
    var n := |batches| - 1;
    var cached := SeenAfter(seen, batches[..n], key);
    KeptCount(batches[n].items, key, Evict(cached, batches[n].cutoff), k);
    CountConcat(Emitted(seen, batches[..n], key), Kept(batches[n].items, key, Evict(cached, batches[n].cutoff)), key,
                k);
    NotEvicted(cached, batches[n], k);
  }

  lemma NotEvicted<T>(seen: set<Key>, b: Batch<T>, k: Key)
    requires !Evicts(b, k)
    ensures k in Evict(seen, b.cutoff) <==> k in seen
  {
  }

  /** Without an eviction of k the cache remembers every batch. */
  lemma EverSeen<T>(seen: set<Key>, batches: seq<Batch<T>>, key: T -> Key, k: Key)
    requires !EvictedFrom(batches, 0, k)
    ensures k in SeenAfter(seen, batches, key) <==>
      k in seen || exists j :: 0 <= j < |batches| && k in KeysOf(batches[j].items, key)
  {
    SeenExactly(seen, batches, key, k);
    assert forall j :: 0 <= j < |batches| ==>
      (RememberedFrom(batches, key, j, k) <==> k in KeysOf(batches[j].items, key));
  }

  // The second pass: a dictionary from key to item, then its values.

  /** The item that represents key k: the first one, replaced by each later one that is newer. */
  ghost function Survivor<T, K>(items: seq<T>, key: T -> K, newer: (T, T) -> bool, k: K): Option<T>
  {
    if |items| == 0 then None
    else
      var n := |items| - 1;
      var before := Survivor(items[..n], key, newer, k);
      if key(items[n]) != k then before
      else if before.None? || newer(items[n], before.value) then Some(items[n])
      else before
  }

  ghost predicate HasKey<T, K>(items: seq<T>, key: T -> K, k: K)
  {
    exists i :: 0 <= i < |items| && key(items[i]) == k
  }

  lemma HasKeySnoc<T, K>(items: seq<T>, key: T -> K, k: K)
    requires |items| > 0
    ensures HasKey(items, key, k) <==> HasKey(items[..|items| - 1], key, k) || key(items[|items| - 1]) == k
  {
    var n := |items| - 1;
    if i :| 0 <= i < |items| && key(items[i]) == k {
      assert i < n ==> key(items[..n][i]) == k;
    }
    if i :| 0 <= i < n && key(items[..n][i]) == k {
      assert key(items[i]) == k;
    }
  }

  lemma {:induction false} SurvivorKey<T, K>(items: seq<T>, key: T -> K, newer: (T, T) -> bool, k: K)
    ensures Survivor(items, key, newer, k).Some? ==> key(Survivor(items, key, newer, k).value) == k
    ensures Survivor(items, key, newer, k).Some? <==> HasKey(items, key, k)
  {
    if |items| == 0 {
    } else {
      var n := |items| - 1;
      hide HasKey;
      SurvivorKey(items[..n], key, newer, k);
      HasKeySnoc(items, key, k);
    }
  }

  /** Collects the items by key in order of first appearance; on a repeated key `newer` decides whether
      the later item replaces the earlier one. With distinct keys nothing is dropped or moved. */
  method CollectByKey<T, K(!new, ==)>(items: seq<T>, key: T -> K, newer: (T, T) -> bool) returns (r: seq<T>)
    ensures DistinctKeys(r, key)
    ensures forall j :: 0 <= j < |r| ==> Survivor(items, key, newer, key(r[j])) == Some(r[j])
    ensures forall i :: 0 <= i < |items| ==> HasKey(r, key, key(items[i]))
    ensures DistinctKeys(items, key) ==> r == items
  {
    hide Survivor;
    var order: seq<K>, values: map<K, T> := [], map[];
    SurvivorsOfNothing(items, key, newer);
    for i := 0 to |items|
      invariant Holds(items[..i], key, newer, order, values)
      invariant DistinctKeys(items, key) ==>
        |order| == i && forall j :: 0 <= j < i ==> order[j] == key(items[j]) && values[order[j]] == items[j]
    {
      var k := key(items[i]);
      SurvivorsSnoc(items, key, newer, i);
      if k !in values {
        order := order + [k];
        values := values[k := items[i]];
      } else if newer(items[i], values[k]) {
        values := values[k := items[i]];
      }
    }
    assert items[..|items|] == items;
    r := seq(|order|, j requires 0 <= j < |order| && order[j] in values => values[order[j]]);
    CollectedIs(items, key, newer, order, values, r);
    forall i | 0 <= i < |items|
      ensures HasKey(r, key, key(items[i]))
    {
      KeyCollected(items, key, newer, order, values, r, i);
    }
  }

  lemma SurvivorsOfNothing<T, K(!new)>(items: seq<T>, key: T -> K, newer: (T, T) -> bool)
    ensures forall k :: Survivor(items[..0], key, newer, k) == None
  {
  }

  lemma SurvivorsSnoc<T, K(!new)>(items: seq<T>, key: T -> K, newer: (T, T) -> bool, i: nat)
    requires i < |items|
    ensures forall k :: Survivor(items[..i + 1], key, newer, k) ==
              var before := Survivor(items[..i], key, newer, k);
              if key(items[i]) == k && (before.None? || newer(items[i], before.value)) then Some(items[i]) else before
  {
    forall k
      ensures Survivor(items[..i + 1], key, newer, k) ==
                var before := Survivor(items[..i], key, newer, k);
                if key(items[i]) == k && (before.None? || newer(items[i], before.value)) then Some(items[i]) else before
    {
      assert items[..i + 1][..i] == items[..i];
    }
  }

  /** What the dictionary holds after the loop: per key its survivor. */
  ghost predicate Holds<T, K(!new)>(items: seq<T>, key: T -> K, newer: (T, T) -> bool, order: seq<K>, values: map<K, T>)
  {
    && (forall k :: k in values <==> k in order)
    && (forall k :: Survivor(items, key, newer, k) == if k in values then Some(values[k]) else None)
    && forall j, l :: 0 <= j < l < |order| ==> order[j] != order[l]
  }

  ghost predicate Listed<T, K(!new)>(order: seq<K>, values: map<K, T>, r: seq<T>)
  {
    |r| == |order| && forall j :: 0 <= j < |r| ==> order[j] in values && r[j] == values[order[j]]
  }

  /** The values in order of their keys are the survivors. */
  lemma CollectedIs<T, K(!new)>(
    items: seq<T>, key: T -> K, newer: (T, T) -> bool, order: seq<K>, values: map<K, T>, r: seq<T>)
    requires Holds(items, key, newer, order, values) && Listed(order, values, r)
    ensures forall j :: 0 <= j < |r| ==> key(r[j]) == order[j] && Survivor(items, key, newer, key(r[j])) == Some(r[j])
    ensures DistinctKeys(r, key)
  {
    forall j | 0 <= j < |r|
      ensures key(r[j]) == order[j] && Survivor(items, key, newer, order[j]) == Some(r[j])
    {
      OneCollected(items, key, newer, order, values, r, j);
    }
    hide Survivor, Holds;
    assert forall j, l :: 0 <= j < l < |order| ==> order[j] != order[l];
  }

  lemma OneCollected<T, K(!new)>(
    items: seq<T>, key: T -> K, newer: (T, T) -> bool, order: seq<K>, values: map<K, T>, r: seq<T>, j: nat)
    requires Holds(items, key, newer, order, values) && Listed(order, values, r) && j < |r|
    ensures key(r[j]) == order[j] && Survivor(items, key, newer, order[j]) == Some(r[j])
  {
    hide Survivor;
    SurvivorKey(items, key, newer, order[j]);
  }

  /** Every item's key is collected. */
  lemma KeyCollected<T, K(!new)>(
    items: seq<T>, key: T -> K, newer: (T, T) -> bool, order: seq<K>, values: map<K, T>, r: seq<T>, i: nat)
    requires Holds(items, key, newer, order, values) && Listed(order, values, r) && i < |items|
    ensures HasKey(r, key, key(items[i]))
  {
    hide Survivor;
    var k := key(items[i]);
    assert HasKey(items, key, k);
    SurvivorKey(items, key, newer, k);
    var j :| 0 <= j < |order| && order[j] == k;
    OneCollected(items, key, newer, order, values, r, j);
  }

  const CACHE_CLEANUP_INTERVAL := 300.0
  const CACHE_LIFE := 600.0

  datatype BookTickerSnapshot = BookTickerSnapshot(
    symbolId: int, bidPrice: real, bidQty: real, askPrice: real, askQty: real, timestamp: real, createdAt: Option<real>)

  function BookKey(s: BookTickerSnapshot): Key
  {
    Key(s.symbolId, s.timestamp, "")
  }

  /** A later record replaces an earlier one only if both creation times are known and its own is later. */
  predicate CreatedLater(s: BookTickerSnapshot, existing: BookTickerSnapshot)
  {
    s.createdAt.Some? && existing.createdAt.Some? && s.createdAt.value > existing.createdAt.value
  }

  /** No record of the batch with the key of x is later than x. */
  ghost predicate IsLatest(items: seq<BookTickerSnapshot>, x: BookTickerSnapshot)
  {
    forall j :: 0 <= j < |items| && BookKey(items[j]) == BookKey(x) ==> !CreatedLater(items[j], x)
  }

  /** Starting from a first record x, replacing by later ones ends at x, or at one that is later than x. */
  lemma {:induction false} SurvivorFromFirst(items: seq<BookTickerSnapshot>, i: nat, x: BookTickerSnapshot)
    requires i < |items| && items[i] == x && FirstWithKey(items, BookKey, i)
    ensures var r := Survivor(items, BookKey, CreatedLater, BookKey(x));
            r.Some? && if IsLatest(items, x) then r.value == x else CreatedLater(r.value, x)
  {
    var n := |items| - 1;
    if i == n {
      SurvivorKey(items[..n], BookKey, CreatedLater, BookKey(x));
      NoEarlier(items, i);
    } else {
      SurvivorFromFirst(items[..n], i, x);
      LatestSnoc(items, x);
    }
  }

  lemma NoEarlier(items: seq<BookTickerSnapshot>, i: nat)
    requires i == |items| - 1 && FirstWithKey(items, BookKey, i)
    ensures !HasKey(items[..i], BookKey, BookKey(items[i])) && IsLatest(items, items[i])
  {
  }

  lemma LatestSnoc(items: seq<BookTickerSnapshot>, x: BookTickerSnapshot)
    requires |items| > 0
    ensures var n := |items| - 1;
            IsLatest(items, x) <==>
              IsLatest(items[..n], x) && (BookKey(items[n]) == BookKey(x) ==> !CreatedLater(items[n], x))
  {
    var n := |items| - 1;
    assert forall j :: 0 <= j < n ==> items[..n][j] == items[j];
  }

  /** The record that a batch writes for an uncached key, which is the first, is the one that keeping the latest would
      write if and only if no later record of the batch with its key was created later. */
  lemma LatestKeptExactly(items: seq<BookTickerSnapshot>, seen: set<Key>, i: nat)
    requires i < |items| && FirstWithKey(items, BookKey, i) && BookKey(items[i]) !in seen
    ensures items[i] in Kept(items, BookKey, seen)
    ensures Survivor(items, BookKey, CreatedLater, BookKey(items[i])) == Some(items[i]) <==> IsLatest(items, items[i])
  {
    FirstOccurrenceWins(items, BookKey, seen, items[i]);
    SurvivorFromFirst(items, i, items[i]);
  }

  /** A batch that writes the older of two records with one key. */
  lemma OlderIsKept(seen: set<Key>)
    requires Key(1, 0.0, "") !in seen
    ensures var older := BookTickerSnapshot(1, 99.0, 1.0, 100.0, 1.0, 0.0, Some(1.0));
            var newer := older.(bidPrice := 98.0, createdAt := Some(2.0));
            && Kept([older, newer], BookKey, seen) == [older]
            && Survivor([older, newer], BookKey, CreatedLater, BookKey(older)) == Some(newer)
  {
    var older := BookTickerSnapshot(1, 99.0, 1.0, 100.0, 1.0, 0.0, Some(1.0));
    var newer := older.(bidPrice := 98.0, createdAt := Some(2.0));
    var items := [older, newer];
    assert items[..1] == [older] && [older][..0] == [];
    assert BookKey(newer) in KeysOf([older], BookKey) by {
      FirstKey([older], BookKey);
    }
    assert KeysOf([older][..0], BookKey) == {};
    assert Kept([older], BookKey, seen) == [older];
    assert Survivor([older][..0], BookKey, CreatedLater, BookKey(older)) == None;
    assert Survivor([older], BookKey, CreatedLater, BookKey(older)) == Some(older);
  }

  method AnyOf<T>(xs: set<T>) returns (x: T)
    requires xs != {}
    ensures x in xs
  {
    x :| x in xs;
  }

  function LaterThan(ts: set<real>, cutoff: real): set<real>
  {
    set t | t in ts && t > cutoff
  }

  lemma LaterMeans(ts: set<real>, cutoff: real, t: real)
    ensures t in LaterThan(ts, cutoff) <==> t in ts && t > cutoff
  {
  }

  lemma LaterOfNothing(cutoff: real)
    ensures LaterThan({}, cutoff) == {}
  {
  }

  /** The book ticker cache: a set of timestamps per symbol. */
  class BookTickerCache {
    var timestamps: map<int, set<real>>
    var lastCleanup: real

    ghost function Seen(): set<Key>
      reads this
    {
      set s, t | s in timestamps && t in timestamps[s] :: Key(s, t, "")
    }

    constructor (currentTime: real)
      ensures Seen() == {} && lastCleanup == currentTime
    {
      timestamps, lastCleanup := map[], currentTime;
    }

    /** The cutoff a cleanup at this time uses, if one is due. */
    ghost function CutoffAt(currentTime: real, now: real): Option<real>
      reads this
    {
      if currentTime - lastCleanup < CACHE_CLEANUP_INTERVAL then None else Some(now - CACHE_LIFE)
    }

    /** Drops old timestamps of every symbol, at most once per interval. */
    method CleanupTimestampCache(currentTime: real, now: real)
      modifies this
      ensures Seen() == Evict(old(Seen()), old(CutoffAt(currentTime, now)))
      ensures lastCleanup == if old(CutoffAt(currentTime, now)).None? then old(lastCleanup) else currentTime
    {
      if currentTime - lastCleanup < CACHE_CLEANUP_INTERVAL {
        return;
      }
      hide LaterThan;
      var cutoff := now - CACHE_LIFE;
      EvictOld(cutoff);
      lastCleanup := currentTime;
      forall k
        ensures k in Seen() <==> k in old(Seen()) && k.timestamp > cutoff
      {
        assert k in Seen() <==> k.tradeId == "" && k.timestamp in Lookup(timestamps, k.symbolId, {});
        assert k in old(Seen()) <==> k.tradeId == "" && k.timestamp in Lookup(old(timestamps), k.symbolId, {});
        LaterMeans(Lookup(old(timestamps), k.symbolId, {}), cutoff, k.timestamp);
      }
    }

    /** Keeps, per symbol, the timestamps after the cutoff, and drops symbols left without any. */
    method EvictOld(cutoff: real)
      modifies this`timestamps
      ensures forall s :: Lookup(timestamps, s, {}) == LaterThan(Lookup(old(timestamps), s, {}), cutoff)
    {
      hide LaterThan;
      LaterOfNothing(cutoff);
      var keys := timestamps.Keys;
      while keys != {}
        invariant forall s :: s in keys ==>
          s in timestamps && s in old(timestamps) && timestamps[s] == old(timestamps)[s]
        invariant forall s :: s !in keys ==>
          Lookup(timestamps, s, {}) == LaterThan(Lookup(old(timestamps), s, {}), cutoff)
        decreases |keys|
      {
        var s := AnyOf(keys);
        var kept := LaterThan(timestamps[s], cutoff);
        timestamps := timestamps[s := kept];
        if kept == {} {
          timestamps := timestamps - {s};
        }
        keys := keys - {s};
      }
    }

    method IsDuplicateTimestamp(symbolId: int, timestamp: real) returns (duplicate: bool)
      modifies this`timestamps
      ensures duplicate <==> Key(symbolId, timestamp, "") in old(Seen())
      ensures Seen() == old(Seen()) + {Key(symbolId, timestamp, "")}
    {
      var known := Lookup(timestamps, symbolId, {});
      if timestamp in known {
        return true;
      }
      timestamps := timestamps[symbolId := known + {timestamp}];
      return false;
    }

    /** The in-memory part of a batch insert: the records to write. An empty batch does not even clean up. */
    method DeduplicateBatch(snapshots: seq<BookTickerSnapshot>, currentTime: real, now: real)
      returns (r: seq<BookTickerSnapshot>, cacheHits: nat)
      modifies this
      ensures snapshots == [] ==> r == [] && cacheHits == 0 && Seen() == old(Seen()) && lastCleanup == old(lastCleanup)
      ensures snapshots != [] ==>
        var cached := Evict(old(Seen()), old(CutoffAt(currentTime, now)));
        && r == Kept(snapshots, BookKey, cached) && Seen() == cached + KeysOf(snapshots, BookKey)
        && lastCleanup == if old(CutoffAt(currentTime, now)).None? then old(lastCleanup) else currentTime
      ensures |r| + cacheHits == |snapshots|
    {
      hide Kept, KeysOf, Evict, Seen, DistinctKeys;
      if |snapshots| == 0 {
        return [], 0;
      }
      CleanupTimestampCache(currentTime, now);
      ghost var cached, cleaned := Seen(), lastCleanup;
      NothingYet(snapshots, BookKey, cached);
      var filtered := [];
      cacheHits := 0;
      for i := 0 to |snapshots|
        invariant filtered == Kept(snapshots[..i], BookKey, cached)
        invariant Seen() == cached + KeysOf(snapshots[..i], BookKey) && lastCleanup == cleaned
        invariant |filtered| + cacheHits == i
      {
        KeptSnoc(snapshots, i, BookKey, cached);
        var duplicate := IsDuplicateTimestamp(snapshots[i].symbolId, snapshots[i].timestamp);
        if !duplicate {
          filtered := filtered + [snapshots[i]];
        } else {
          cacheHits := cacheHits + 1;
        }
      }
      assert snapshots[..|snapshots|] == snapshots;
      KeptDistinct(snapshots, BookKey, cached);
      r := CollectByKey(filtered, BookKey, CreatedLater);
    }
  }

  datatype TradeSnapshot = TradeSnapshot(
    symbolId: int, price: real, quantity: real, side: string, timestamp: real, tradeId: Option<string>)

  function TradeKey(s: TradeSnapshot): Key
  {
    Key(s.symbolId, s.timestamp, if s.tradeId.Some? then s.tradeId.value else "")
  }

  /** The second pass tells a missing trade id from an empty one. */
  function FullTradeKey(s: TradeSnapshot): (int, real, Option<string>)
  {
    (s.symbolId, s.timestamp, s.tradeId)
  }

  /** Entries of the trade cache: a timestamp with its trade id, or alone when the id is empty. */
  datatype TradeEntry = WithId(timestamp: real, tradeId: string) | TimestampOnly(timestamp: real)

  function EntryOf(timestamp: real, tradeId: string): TradeEntry
  {
    if tradeId != "" then WithId(timestamp, tradeId) else TimestampOnly(timestamp)
  }

  function EntriesAfter(es: set<TradeEntry>, cutoff: real): set<TradeEntry>
  {
    set e | e in es && e.timestamp > cutoff
  }

  lemma AfterMeans(es: set<TradeEntry>, cutoff: real, e: TradeEntry)
    ensures e in EntriesAfter(es, cutoff) <==> e in es && e.timestamp > cutoff
  {
  }

  lemma AfterOfNothing(cutoff: real)
    ensures EntriesAfter({}, cutoff) == {}
  {
  }

  class TradeCache {
    var entries: map<int, set<TradeEntry>>

    ghost predicate Valid()
      reads this
    {
      forall s, e :: s in entries && e in entries[s] && e.WithId? ==> e.tradeId != ""
    }

    ghost function Seen(): set<Key>
      reads this
    {
      set s, e | s in entries && e in entries[s] :: Key(s, e.timestamp, if e.WithId? then e.tradeId else "")
    }

    constructor ()
      ensures Valid() && Seen() == {}
    {
      entries := map[];
    }

    /** k is cached exactly when its entry is stored. */
    lemma SeenEntry(k: Key)
      requires Valid()
      ensures k in Seen() <==> k.symbolId in entries && EntryOf(k.timestamp, k.tradeId) in entries[k.symbolId]
    {
      if k in Seen() {
        var s, e :| s in entries && e in entries[s] && k == Key(s, e.timestamp, if e.WithId? then e.tradeId else "");
        assert e == EntryOf(k.timestamp, k.tradeId);
      }
    }

    /** Drops old entries of every symbol, on every batch. */
    method CleanupTradeTimestampCache(now: real)
      requires Valid()
      modifies this
      ensures Valid() && Seen() == Evict(old(Seen()), Some(now - CACHE_LIFE))
    {
      hide EntriesAfter;
      var cutoff := now - CACHE_LIFE;
      SeenEntries();
      EvictOld(cutoff);
      SeenEntries();
      forall k
        ensures k in Seen() <==> k in old(Seen()) && k.timestamp > cutoff
      {
        AfterMeans(Lookup(old(entries), k.symbolId, {}), cutoff, EntryOf(k.timestamp, k.tradeId));
      }
    }

    lemma SeenEntries()
      requires Valid()
      ensures forall k :: k in Seen() <==> EntryOf(k.timestamp, k.tradeId) in Lookup(entries, k.symbolId, {})
    {
      hide Valid, EntryOf;
      forall k
        ensures k in Seen() <==> EntryOf(k.timestamp, k.tradeId) in Lookup(entries, k.symbolId, {})
      {
        SeenEntry(k);
      }
    }

    /** Keeps, per symbol, the entries after the cutoff, and drops symbols left without any. */
    method EvictOld(cutoff: real)
      requires Valid()
      modifies this
      ensures Valid()
      ensures forall s :: Lookup(entries, s, {}) == EntriesAfter(Lookup(old(entries), s, {}), cutoff)
    {
      hide EntriesAfter;
      AfterOfNothing(cutoff);
      ghost var before := entries;
      var keys := entries.Keys;
      while keys != {}
        invariant forall s :: s in keys ==> s in entries && s in before && entries[s] == before[s]
        invariant forall s :: s !in keys ==> Lookup(entries, s, {}) == EntriesAfter(Lookup(before, s, {}), cutoff)
        decreases |keys|
      {
        var s := AnyOf(keys);
        var kept := EntriesAfter(entries[s], cutoff);
        entries := entries[s := kept];
        if kept == {} {
          entries := entries - {s};
        }
        keys := keys - {s};
      }
      FewerEntries(before, entries, cutoff);
    }

    lemma FewerEntries(before: map<int, set<TradeEntry>>, after: map<int, set<TradeEntry>>, cutoff: real)
      requires forall s, e :: s in before && e in before[s] && e.WithId? ==> e.tradeId != ""
      requires forall s :: Lookup(after, s, {}) == EntriesAfter(Lookup(before, s, {}), cutoff)
      ensures forall s, e :: s in after && e in after[s] && e.WithId? ==> e.tradeId != ""
    {
      hide EntriesAfter;
      forall s, e | s in after && e in after[s] && e.WithId?
        ensures e.tradeId != ""
      {
        assert e in Lookup(after, s, {});
        AfterMeans(Lookup(before, s, {}), cutoff, e);
      }
    }

    method IsDuplicateTradeTimestamp(symbolId: int, timestamp: real, tradeId: string) returns (duplicate: bool)
      requires Valid()
      modifies this
      ensures Valid()
      ensures duplicate <==> Key(symbolId, timestamp, tradeId) in old(Seen())
      ensures Seen() == old(Seen()) + {Key(symbolId, timestamp, tradeId)}
    {
      var added := Key(symbolId, timestamp, tradeId);
      forall k
        ensures k in Seen() <==> k.symbolId in entries && EntryOf(k.timestamp, k.tradeId) in entries[k.symbolId]
      {
        SeenEntry(k);
      }
      var known, entry := Lookup(entries, symbolId, {}), EntryOf(timestamp, tradeId);
      if entry in known {
        assert added in Seen();
        return true;
      }
      entries := entries[symbolId := known + {entry}];
      forall k
        ensures k in Seen() <==> k in old(Seen()) || k == added
      {
        SeenEntry(k);
      }
      return false;
    }

    method DeduplicateBatch(snapshots: seq<TradeSnapshot>, now: real) returns (r: seq<TradeSnapshot>, cacheHits: nat)
      requires Valid()
      modifies this
      ensures Valid()
      ensures snapshots == [] ==> r == [] && cacheHits == 0 && Seen() == old(Seen())
      ensures snapshots != [] ==>
        var cached := Evict(old(Seen()), Some(now - CACHE_LIFE));
        && r == Kept(snapshots, TradeKey, cached) && Seen() == cached + KeysOf(snapshots, TradeKey)
      ensures |r| + cacheHits == |snapshots|
    {
      hide Kept, KeysOf, Evict, Seen, Valid, DistinctKeys;
      if |snapshots| == 0 {
        return [], 0;
      }
      CleanupTradeTimestampCache(now);
      ghost var cached := Seen();
      NothingYet(snapshots, TradeKey, cached);
      var filtered := [];
      cacheHits := 0;
      for i := 0 to |snapshots|
        invariant Valid() && filtered == Kept(snapshots[..i], TradeKey, cached)
        invariant Seen() == cached + KeysOf(snapshots[..i], TradeKey)
        invariant |filtered| + cacheHits == i
      {
        KeptSnoc(snapshots, i, TradeKey, cached);
        var s := snapshots[i];
        var duplicate := IsDuplicateTradeTimestamp(
          s.symbolId, s.timestamp, if s.tradeId.Some? then s.tradeId.value else "");
        if !duplicate {
          filtered := filtered + [s];
        } else {
          cacheHits := cacheHits + 1;
        }
      }
      assert snapshots[..|snapshots|] == snapshots;
      KeptDistinct(snapshots, TradeKey, cached);
      FullKeysDistinct(filtered);
      r := CollectByKey(filtered, FullTradeKey, (s: TradeSnapshot, existing: TradeSnapshot) => true);
    }
  }

  lemma FullKeysDistinct(items: seq<TradeSnapshot>)
    requires DistinctKeys(items, TradeKey)
    ensures DistinctKeys(items, FullTradeKey)
  {
    forall i, j | 0 <= i < j < |items|
      ensures FullTradeKey(items[i]) != FullTradeKey(items[j])
    {
      assert TradeKey(items[i]) != TradeKey(items[j]);
    }
  }
}
