/** The order book: two sorted dictionaries of mutable price levels, updated in place. */
module HftOrderBooks {
  import opened Sums
  import opened OrderedKeys

  /** A sorted dictionary with real keys: its keys in order, and its entries. */
  datatype SortedDict<!V> = SortedDict(descending: bool, keys: seq<real>, items: map<real, V>)
  {
    ghost predicate Valid()
    {
      Ordered(descending, keys) && forall k :: k in keys <==> k in items
    }

    function Put(k: real, v: V): SortedDict<V>
    {
      SortedDict(descending, Insert(descending, keys, k), items[k := v])
    }

    function Pop(k: real): SortedDict<V>
    {
      SortedDict(descending, Remove(keys, k), map x | x in items && x != k :: items[x])
    }

    lemma PutValid(k: real, v: V)
      requires Valid()
      ensures Put(k, v).Valid()
    {
      InsertOrdered(descending, keys, k);
    }

    lemma PopValid(k: real)
      requires Valid()
      ensures Pop(k).Valid()
    {
      RemoveOrdered(descending, keys, k);
    }

    /** The first key is the best one, and there is one exactly when the dictionary is not empty. */
    lemma FirstIsBest()
      requires Valid()
      ensures |keys| > 0 <==> |items| > 0
      ensures |keys| > 0 ==> keys[0] in items && forall k :: k in items && k != keys[0] ==>
        Before(descending, keys[0], k)
    {
      assert forall k :: k in items ==> k in keys;
      if |keys| > 0 {
        assert keys[0] in keys;
        assert keys[0] in items;
      } else {
        assert forall k :: k !in items;
        assert items.Keys == {};
      }
    }
  }

  class HFTOrderBookEntry {
    const price: real
    var size: real
    var timestamp: real

    constructor (price: real, size: real, timestamp: real)
      ensures this.price == price && this.size == size && this.timestamp == timestamp
    {
      this.price, this.size, this.timestamp := price, size, timestamp;
    }
  }

  type Side = SortedDict<HFTOrderBookEntry>

  /** A level as a value: what one dictionary entry means. */
  datatype Level = Level(size: real, timestamp: real)

  type Levels = map<real, Level>

  datatype PriceSize = PriceSize(price: real, size: real)

  /** The given time, or the clock reading when it is missing or zero. */
  function UpdateTime(stamp: Option<real>, clock: real): real
  {
    if stamp.Some? && stamp.value != 0.0 then stamp.value else clock
  }

  lemma UpdateTimeIs(stamp: Option<real>, clock: real)
    ensures UpdateTime(stamp, clock) == if stamp.Some? && stamp.value != 0.0 then stamp.value else clock
  {
  }

  /** Effect of one diff item: non-positive sizes remove the level. */
  function ApplyItem(m: Levels, u: PriceSize, time: real): Levels
  {
    if u.size <= 0.0 then map p | p in m && p != u.price :: m[p] else m[u.price := Level(u.size, time)]
  }

  function ApplyItems(m: Levels, us: seq<PriceSize>, time: real): Levels
  {
    if |us| == 0 then m else ApplyItem(ApplyItems(m, us[..|us| - 1], time), us[|us| - 1], time)
  }

  /** Levels of a snapshot: items with non-positive sizes are ignored. */
  function SnapshotLevels(us: seq<PriceSize>, time: real): Levels
  {
    if |us| == 0 then map[]
    else
      var m := SnapshotLevels(us[..|us| - 1], time);
      var u := us[|us| - 1];
      if u.size > 0.0 then m[u.price := Level(u.size, time)] else m
  }

  /** The dictionary is in order, owns its entries, and each entry sits under its own price. */
  ghost predicate SideValid(side: Side, repr: set<HFTOrderBookEntry>)
    reads repr
  {
    && side.Valid()
    && forall p :: p in side.items ==>
         side.items[p] in repr && side.items[p].price == p && side.items[p].size > 0.0
  }

  /** What one side of the book means: a plain map from prices to levels. */
  ghost function View(side: Side, repr: set<HFTOrderBookEntry>): Levels
    reads repr
    requires SideValid(side, repr)
  {
    map p | p in side.items :: Level(side.items[p].size, side.items[p].timestamp)
  }

  /** No item of the update removes the level at p. */
  ghost predicate Keeps(us: seq<PriceSize>, p: real)
  {
    forall i :: 0 <= i < |us| && us[i].price == p ==> us[i].size > 0.0
  }

  /** Levels that the update does not remove are the same entry objects before and after. */
  ghost predicate SameEntries(before: Side, after: Side, us: seq<PriceSize>)
  {
    forall p :: p in before.items && Keeps(us, p) ==> p in after.items && after.items[p] == before.items[p]
  }

  /** Size that an entry for price p shows to its readers after the items: the last positive one for p before the
      first that removes the level; once removed the entry is out of reach of later items. */
  ghost function LiveSize(size: real, us: seq<PriceSize>, p: real): real
  {
    if |us| == 0 then size
    else
      var n := |us| - 1;
      if us[n].price == p && us[n].size > 0.0 && Keeps(us[..n], p) then us[n].size else LiveSize(size, us[..n], p)
  }

  ghost function EntrySizes(side: Side, repr: set<HFTOrderBookEntry>): map<real, real>
    reads repr
    requires SideValid(side, repr)
  {
    map p | p in side.items :: side.items[p].size
  }

  /** The entries of a side, as they were before the items, now show their live sizes. */
  ghost predicate Shows(side: Side, repr: set<HFTOrderBookEntry>, before: map<real, real>, us: seq<PriceSize>)
    reads repr
  {
    forall p :: p in side.items ==>
      side.items[p] in repr && p in before && side.items[p].size == LiveSize(before[p], us, p)
  }

  /** A removed level's entry does not come back. */
  ghost predicate Detached(before: Side, after: Side, us: seq<PriceSize>)
  {
    forall p :: p in before.items && !Keeps(us, p) && p in after.items ==> after.items[p] != before.items[p]
  }

  lemma KeepsSnoc(us: seq<PriceSize>, i: nat, p: real)
    requires i < |us|
    ensures Keeps(us[..i + 1], p) <==> Keeps(us[..i], p) && (us[i].price == p ==> us[i].size > 0.0)
  {
    assert forall k :: 0 <= k < i ==> us[..i][k] == us[..i + 1][k];
    assert us[..i + 1][i] == us[i];
  }

  lemma LiveSizeSnoc(size: real, us: seq<PriceSize>, i: nat, p: real)
    requires i < |us|
    ensures LiveSize(size, us[..i + 1], p)
         == if us[i].price == p && us[i].size > 0.0 && Keeps(us[..i], p) then us[i].size else LiveSize(size, us[..i], p)
  {
    assert us[..i + 1][..i] == us[..i];
  }

  lemma NothingApplied(side: Side, repr: set<HFTOrderBookEntry>, us: seq<PriceSize>)
    requires SideValid(side, repr)
    ensures SameEntries(side, side, us[..0]) && Detached(side, side, us[..0])
    ensures Shows(side, repr, EntrySizes(side, repr), us[..0])
  {
    hide SortedDict.Valid;
  }

  /** One side of a diff, applied in place: present levels are overwritten in their entry object. */
  method ApplyUpdates(side: Side, ghost repr: set<HFTOrderBookEntry>, updates: seq<PriceSize>, time: real)
    returns (r: Side, ghost after: set<HFTOrderBookEntry>)
    requires SideValid(side, repr)
    modifies repr
    ensures repr <= after && fresh(after - repr)
    ensures SideValid(r, after) && r.descending == side.descending
    ensures View(r, after) == ApplyItems(old(View(side, repr)), updates, time)
    ensures SameEntries(side, r, updates)
    ensures Shows(side, repr, old(EntrySizes(side, repr)), updates)
  {
    hide ApplyItem, SortedDict.Valid, Keeps, LiveSize;
    r, after := side, repr;
    NothingApplied(side, repr, updates);
    for i := 0 to |updates|
      invariant repr <= after && fresh(after - repr)
      invariant SideValid(r, after) && r.descending == side.descending
      invariant View(r, after) == ApplyItems(old(View(side, repr)), updates[..i], time)
      invariant SameEntries(side, r, updates[..i]) && Detached(side, r, updates[..i])
      invariant Shows(side, repr, old(EntrySizes(side, repr)), updates[..i])
    {
      assert updates[..i + 1][..i] == updates[..i];
      r, after := ApplyNext(side, repr, r, after, updates, i, time, old(EntrySizes(side, repr)));
    }
    assert updates[..|updates|] == updates;
  }

  lemma PricesMatch(side: Side, repr: set<HFTOrderBookEntry>)
    requires SideValid(side, repr)
    ensures forall p :: p in side.items ==> side.items[p].price == p
  {
    hide SortedDict.Valid;
  }

  /** One more item of a diff, with what it does to the entries present at the start. */
  method ApplyNext(
    start: Side, ghost startRepr: set<HFTOrderBookEntry>, side: Side, ghost repr: set<HFTOrderBookEntry>,
    updates: seq<PriceSize>, i: nat, time: real, ghost before: map<real, real>)
    returns (r: Side, ghost after: set<HFTOrderBookEntry>)
    requires SideValid(side, repr) && startRepr <= repr && i < |updates|
    requires forall p :: p in start.items ==> start.items[p].price == p
    requires SameEntries(start, side, updates[..i]) && Detached(start, side, updates[..i])
    requires Shows(start, startRepr, before, updates[..i])
    modifies repr
    ensures repr <= after && fresh(after - repr)
    ensures SideValid(r, after) && r.descending == side.descending
    ensures View(r, after) == ApplyItem(old(View(side, repr)), updates[i], time)
    ensures SameEntries(start, r, updates[..i + 1]) && Detached(start, r, updates[..i + 1])
    ensures Shows(start, startRepr, before, updates[..i + 1])
  {
    hide ApplyItem, SideValid, View, Keeps, LiveSize;
    var u := updates[i];
    PricesMatch(side, repr);
    r, after := ApplyUpdate(side, repr, u, time);
    forall p | p in start.items
      ensures Keeps(updates[..i + 1], p) ==> p in r.items && r.items[p] == start.items[p]
      ensures !Keeps(updates[..i + 1], p) && p in r.items ==> r.items[p] != start.items[p]
      ensures start.items[p].size == LiveSize(before[p], updates[..i + 1], p)
    {
      assert start.items[p] in repr;
      KeepsSnoc(updates, i, p);
      LiveSizeSnoc(before[p], updates, i, p);
    }
  }

  /** What one item does to the entry objects: only the entry at its price is written, and only by a positive size. */
  twostate predicate OnlyWrites(side: Side, repr: set<HFTOrderBookEntry>, u: PriceSize)
    reads repr
  {
    forall e :: e in repr ==>
      e.size == if u.size > 0.0 && u.price in side.items && e == side.items[u.price] then u.size else old(e.size)
  }

  /** The entries of r are those of the side, or new ones. */
  ghost predicate KeepsOrAdds(side: Side, repr: set<HFTOrderBookEntry>, r: Side, u: PriceSize)
  {
    && (forall p :: p in r.items ==> (p in side.items && r.items[p] == side.items[p]) || r.items[p] !in repr)
    && (forall p :: p in side.items && (u.price == p ==> u.size > 0.0) ==> p in r.items && r.items[p] == side.items[p])
    && (u.size <= 0.0 ==> u.price !in r.items)
  }

  method ApplyUpdate(side: Side, ghost repr: set<HFTOrderBookEntry>, u: PriceSize, time: real)
    returns (r: Side, ghost after: set<HFTOrderBookEntry>)
    requires SideValid(side, repr)
    modifies repr
    ensures repr <= after && fresh(after - repr)
    ensures SideValid(r, after) && r.descending == side.descending
    ensures View(r, after) == ApplyItem(old(View(side, repr)), u, time)
    ensures OnlyWrites(side, repr, u) && KeepsOrAdds(side, repr, r, u)
  {
    hide SortedDict.Valid;
    r, after := side, repr;
    if u.size <= 0.0 {
      r := RemoveLevel(side, repr, u, time);
    } else if u.price in side.items {
      OverwriteLevel(side, repr, u, time);
    } else {
      r, after := InsertLevel(side, repr, u, time);
    }
  }

  method RemoveLevel(side: Side, ghost repr: set<HFTOrderBookEntry>, u: PriceSize, time: real) returns (r: Side)
    requires SideValid(side, repr) && u.size <= 0.0
    ensures SideValid(r, repr) && r.descending == side.descending && KeepsOrAdds(side, repr, r, u)
    ensures View(r, repr) == ApplyItem(View(side, repr), u, time)
  {
    hide SortedDict.Valid;
    side.PopValid(u.price);
    r := side.Pop(u.price);
  }

  method OverwriteLevel(side: Side, ghost repr: set<HFTOrderBookEntry>, u: PriceSize, time: real)
    requires SideValid(side, repr) && u.size > 0.0 && u.price in side.items
    modifies side.items[u.price]
    ensures SideValid(side, repr)
    ensures View(side, repr) == ApplyItem(old(View(side, repr)), u, time)
    ensures side.items[u.price].size == u.size
  {
    hide SortedDict.Valid;
    var entry := side.items[u.price];
    entry.size := u.size;
    entry.timestamp := time;
    assert forall p :: p in side.items && p != u.price ==> side.items[p] != entry;
  }

  method InsertLevel(side: Side, ghost repr: set<HFTOrderBookEntry>, u: PriceSize, time: real)
    returns (r: Side, ghost after: set<HFTOrderBookEntry>)
    requires SideValid(side, repr) && u.size > 0.0 && u.price !in side.items
    ensures repr <= after && fresh(after - repr)
    ensures SideValid(r, after) && r.descending == side.descending && KeepsOrAdds(side, repr, r, u)
    ensures View(r, after) == View(side, repr)[u.price := Level(u.size, time)]
  {
    hide SortedDict.Valid;
    var entry := new HFTOrderBookEntry(u.price, u.size, time);
    side.PutValid(u.price, entry);
    r := side.Put(u.price, entry);
    after := repr + {entry};
  }

  /** One side of a snapshot: fresh entries for the positive sizes, in order. */
  method FillSide(descending: bool, updates: seq<PriceSize>, time: real)
    returns (r: Side, ghost repr: set<HFTOrderBookEntry>)
    ensures fresh(repr) && SideValid(r, repr) && r.descending == descending
    ensures View(r, repr) == SnapshotLevels(updates, time)
  {
    hide SortedDict.Valid;
    r, repr := EmptySide(descending);
    for i := 0 to |updates|
      invariant fresh(repr) && SideValid(r, repr) && r.descending == descending
      invariant View(r, repr) == SnapshotLevels(updates[..i], time)
    {
      assert updates[..i + 1][..i] == updates[..i];
      if updates[i].size > 0.0 {
        r, repr := FillLevel(r, repr, updates[i], time);
      }
    }
    assert updates[..|updates|] == updates;
  }

  method EmptySide(descending: bool) returns (r: Side, ghost repr: set<HFTOrderBookEntry>)
    ensures repr == {} && SideValid(r, repr) && r.descending == descending && View(r, repr) == map[]
  {
    r, repr := SortedDict(descending, [], map[]), {};
  }

  /** One positive item of a snapshot: a new entry, replacing one for the same price. */
  method FillLevel(side: Side, ghost repr: set<HFTOrderBookEntry>, u: PriceSize, time: real)
    returns (r: Side, ghost after: set<HFTOrderBookEntry>)
    requires SideValid(side, repr) && u.size > 0.0
    ensures repr <= after && fresh(after - repr)
    ensures SideValid(r, after) && r.descending == side.descending
    ensures View(r, after) == View(side, repr)[u.price := Level(u.size, time)]
  {
    hide SortedDict.Valid;
    var entry := new HFTOrderBookEntry(u.price, u.size, time);
    side.PutValid(u.price, entry);
    r := side.Put(u.price, entry);
    after := repr + {entry};
  }

  // ----- best levels and depth

  /** r is the live entry at the best price of the side, none exactly when the side is empty. */
  ghost predicate IsBest(side: Side, r: Option<HFTOrderBookEntry>)
  {
    match r
    case None => side.items == map[]
    case Some(e) =>
      && e.price in side.items && e == side.items[e.price]
      && forall p :: p in side.items && p != e.price ==> Before(side.descending, e.price, p)
  }

  method First(side: Side, ghost repr: set<HFTOrderBookEntry>) returns (r: Option<HFTOrderBookEntry>)
    requires SideValid(side, repr)
    ensures IsBest(side, r)
  {
    side.FirstIsBest();
    if |side.keys| == 0 {
      assert forall p :: p !in side.items;
      return None;
    }
    var best := side.keys[0];
    assert best in side.items && side.items[best].price == best;
    return Some(side.items[best]);
  }

  /** Frozen copy of a level, as an OrderBook holds it. */
  datatype OrderBookEntry = OrderBookEntry(price: real, size: real)

  datatype OrderBook = OrderBook(symbol: int, bids: seq<OrderBookEntry>, asks: seq<OrderBookEntry>, timestamp: real)

  datatype StructError = MissingSymbol

  /** Number of levels a depth request returns. */
  function DepthCount(levels: int, available: nat): nat
  {
    if levels <= 0 then 0 else if levels <= available then levels else available
  }

  /** es are the live entries at the best min(levels, n) prices, best first. */
  ghost predicate IsDepth(side: Side, levels: int, es: seq<HFTOrderBookEntry>)
  {
    && |es| == DepthCount(levels, |side.items|)
    && (forall i :: 0 <= i < |es| ==> es[i].price in side.items && es[i] == side.items[es[i].price])
    && (forall i, j :: 0 <= i < j < |es| ==> Before(side.descending, es[i].price, es[j].price))
    && forall p :: p in side.items ==>
         (exists i :: 0 <= i < |es| && es[i].price == p)
         || forall i :: 0 <= i < |es| ==> Before(side.descending, es[i].price, p)
  }

  method Take(side: Side, ghost repr: set<HFTOrderBookEntry>, levels: int) returns (es: seq<HFTOrderBookEntry>)
    requires SideValid(side, repr)
    ensures IsDepth(side, levels, es)
  {
    es := [];
    for i := 0 to |side.keys|
      invariant |es| == i
      invariant forall k :: 0 <= k < i ==> side.keys[k] in side.items && es[k] == side.items[side.keys[k]]
      invariant i <= DepthCount(levels, |side.keys|)
    {
      if i >= levels {
        break;
      }
      assert side.keys[i] in side.keys && side.keys[i] in side.items;
      es := es + [side.items[side.keys[i]]];
    }
    KeysCount(side);
    forall p | p in side.items
      ensures (exists i :: 0 <= i < |es| && es[i].price == p)
              || forall i :: 0 <= i < |es| ==> Before(side.descending, es[i].price, p)
    {
      assert p in side.keys;
      var k :| 0 <= k < |side.keys| && side.keys[k] == p;
      if k < |es| {
        assert es[k].price == p;
      }
    }
  }

  /** cs are the sizes of the best min(levels, n) prices of m, best first. */
  ghost predicate BestLevels(m: Levels, descending: bool, levels: int, cs: seq<OrderBookEntry>)
  {
    && |cs| == DepthCount(levels, |m|)
    && (forall i :: 0 <= i < |cs| ==> cs[i].price in m && cs[i].size == m[cs[i].price].size)
    && (forall i, j :: 0 <= i < j < |cs| ==> Before(descending, cs[i].price, cs[j].price))
    && forall p :: p in m ==>
         (exists i :: 0 <= i < |cs| && cs[i].price == p)
         || forall i :: 0 <= i < |cs| ==> Before(descending, cs[i].price, p)
  }

  method CopyEntries(side: Side, ghost repr: set<HFTOrderBookEntry>, levels: int, es: seq<HFTOrderBookEntry>)
    returns (cs: seq<OrderBookEntry>)
    requires SideValid(side, repr) && IsDepth(side, levels, es)
    ensures BestLevels(View(side, repr), side.descending, levels, cs)
  {
    cs := [];
    for i := 0 to |es|
      invariant |cs| == i
      invariant forall k :: 0 <= k < i ==> cs[k] == OrderBookEntry(es[k].price, es[k].size)
    {
      cs := cs + [OrderBookEntry(es[i].price, es[i].size)];
    }
    assert View(side, repr).Keys == side.items.Keys;
    forall p | p in side.items
      ensures (exists i :: 0 <= i < |cs| && cs[i].price == p)
              || forall i :: 0 <= i < |cs| ==> Before(side.descending, cs[i].price, p)
    {
      if k :| 0 <= k < |es| && es[k].price == p {
        assert cs[k].price == p;
      }
    }
  }

  /** A valid dictionary has one key per entry. */
  lemma KeysCount<V>(side: SortedDict<V>)
    requires side.Valid()
    ensures |side.keys| == |side.items|
  {
    OrderedCount(side.descending, side.keys);
    assert forall k :: k in side.keys <==> k in side.items.Keys;
    assert (set k | k in side.keys) == side.items.Keys;
  }

  lemma {:induction false} OrderedCount(descending: bool, ks: seq<real>)
    requires Ordered(descending, ks)
    ensures |set k | k in ks| == |ks|
  {
    if |ks| == 0 {
    } else {
      OrderedTail(descending, ks);
      OrderedCount(descending, ks[1..]);
      assert (set k | k in ks) == {ks[0]} + set k | k in ks[1..];
    }
  }

  // ----- top of book

  function BestOf<V>(side: SortedDict<V>): Option<real>
  {
    if |side.keys| == 0 then None else Some(side.keys[0])
  }

  function SpreadOf<V>(bids: SortedDict<V>, asks: SortedDict<V>): Option<real>
  {
    if BestOf(bids).None? || BestOf(asks).None? then None else Some(BestOf(asks).value - BestOf(bids).value)
  }

  function MidOf<V>(bids: SortedDict<V>, asks: SortedDict<V>): Option<real>
  {
    if BestOf(bids).None? || BestOf(asks).None? then None else Some((BestOf(bids).value + BestOf(asks).value) / 2.0)
  }

  /** Both sides are present and every bid is below every ask. */
  ghost predicate Healthy<V>(bids: map<real, V>, asks: map<real, V>)
  {
    && (exists p :: p in bids) && (exists q :: q in asks)
    && forall p, q :: p in bids && q in asks ==> p < q
  }

  /** The check of the two best levels. */
  predicate TopUncrossed<V>(bids: SortedDict<V>, asks: SortedDict<V>)
  {
    BestOf(bids).Some? && BestOf(asks).Some? && BestOf(bids).value < BestOf(asks).value
  }

  lemma BestIsFirst(side: Side, best: Option<HFTOrderBookEntry>)
    requires side.Valid() && IsBest(side, best)
    ensures BestOf(side) == if best.None? then None else Some(best.value.price)
  {
    side.FirstIsBest();
  }

  /** The check of the two best levels decides about the whole book: it passes exactly when both
      sides are present and every bid is below every ask. */
  lemma TopDecidesHealth<V>(bids: SortedDict<V>, asks: SortedDict<V>)
    requires bids.Valid() && asks.Valid() && bids.descending && !asks.descending
    ensures TopUncrossed(bids, asks) <==> Healthy(bids.items, asks.items)
  {
    bids.FirstIsBest();
    asks.FirstIsBest();
    assert |bids.keys| > 0 ==> bids.keys[0] in bids.items;
    assert |asks.keys| > 0 ==> asks.keys[0] in asks.items;
    assert forall p :: p in bids.items ==> p in bids.keys;
    assert forall q :: q in asks.items ==> q in asks.keys;
  }

  /** The spread is the smallest gap between an ask and a bid. */
  lemma SpreadIsSmallestGap<V>(bids: SortedDict<V>, asks: SortedDict<V>)
    requires bids.Valid() && asks.Valid() && bids.descending && !asks.descending
    requires SpreadOf(bids, asks).Some?
    ensures forall p, q :: p in bids.items && q in asks.items ==> q - p >= SpreadOf(bids, asks).value
    ensures exists p, q :: p in bids.items && q in asks.items && q - p == SpreadOf(bids, asks).value
  {
    bids.FirstIsBest();
    asks.FirstIsBest();
    var p, q := bids.keys[0], asks.keys[0];
    assert p in bids.items && q in asks.items && q - p == SpreadOf(bids, asks).value;
  }

  /** The same prices give the same key sequence, so everything read off the keys is decided by the
      plain map. */
  /** The mid price lies halfway between the highest bid and the lowest ask; it is missing exactly when a side is
      empty. */
  lemma MidIsHalfway<V>(bids: SortedDict<V>, asks: SortedDict<V>) returns (bid: real, ask: real)
    requires bids.Valid() && asks.Valid() && bids.descending && !asks.descending
    ensures MidOf(bids, asks).Some? <==> |bids.items| > 0 && |asks.items| > 0
    ensures MidOf(bids, asks).Some? ==>
      && bid in bids.items && (forall p :: p in bids.items ==> p <= bid)
      && ask in asks.items && (forall q :: q in asks.items ==> ask <= q)
      && 2.0 * MidOf(bids, asks).value == bid + ask
  {
    bid, ask := 0.0, 0.0;
    bids.FirstIsBest();
    asks.FirstIsBest();
    if MidOf(bids, asks).Some? {
      bid, ask := bids.keys[0], asks.keys[0];
    }
  }

  lemma KeysFromItems<V, W>(a: SortedDict<V>, b: SortedDict<W>)
    requires a.Valid() && b.Valid() && a.descending == b.descending
    requires forall k :: k in a.items <==> k in b.items
    ensures a.keys == b.keys
  {
    OrderedUnique(a.descending, a.keys, b.keys);
  }

  class HFTOrderBook {
    const symbol: int
    var bids: Side
    var asks: Side
    var timestamp: real
    var sequence: int
    var isSnapshot: bool
    ghost var bidRepr: set<HFTOrderBookEntry>
    ghost var askRepr: set<HFTOrderBookEntry>
    ghost var Repr: set<object>

    ghost predicate Valid()
      reads this, Repr
      ensures Valid() ==> this in Repr
    {
      && this in Repr && bidRepr <= Repr && askRepr <= Repr && bidRepr !! askRepr
      && SideValid(bids, bidRepr) && SideValid(asks, askRepr)
      && bids.descending && !asks.descending
    }

    ghost function Bids(): Levels
      reads this, Repr
      requires Valid()
    {
      View(bids, bidRepr)
    }

    ghost function Asks(): Levels
      reads this, Repr
      requires Valid()
    {
      View(asks, askRepr)
    }

    constructor (symbol: int, stamp: Option<real>, clock: real)
      ensures Valid() && fresh(Repr)
      ensures Bids() == map[] && Asks() == map[] && sequence == 0 && !isSnapshot
      ensures bids.keys == [] && asks.keys == []
      ensures this.symbol == symbol && timestamp == UpdateTime(stamp, clock)
    {
      this.symbol, this.timestamp := symbol, UpdateTime(stamp, clock);
      bids := SortedDict(true, [], map[]);
      asks := SortedDict(false, [], map[]);
      sequence, isSnapshot := 0, false;
      bidRepr, askRepr, Repr := {}, {}, {this};
    }

    /** The bid loop of a diff. */
    method ApplyBids(updates: seq<PriceSize>, time: real)
      requires Valid()
      modifies this, bidRepr
      ensures askRepr == old(askRepr) && old(bidRepr) <= bidRepr
      ensures Shows(old(bids), old(bidRepr), old(EntrySizes(bids, bidRepr)), updates)
      ensures Valid() && fresh(Repr - old(Repr)) && old(Repr) <= Repr
      ensures Bids() == ApplyItems(old(Bids()), updates, time) && Asks() == old(Asks())
      ensures asks == old(asks) && SameMeta(old(timestamp), old(sequence), old(isSnapshot))
      ensures SameEntries(old(bids), bids, updates)
    {
      hide Ordered, ApplyItems, SortedDict.Valid, SideValid, View, SameEntries, Shows, EntrySizes;
      var side, repr := ApplyUpdates(bids, bidRepr, updates, time);
      bids, bidRepr := side, repr;
      Repr := Repr + repr;
    }

    /** The ask loop of a diff. */
    method ApplyAsks(updates: seq<PriceSize>, time: real)
      requires Valid()
      modifies this, askRepr
      ensures bidRepr == old(bidRepr) && old(askRepr) <= askRepr
      ensures Shows(old(asks), old(askRepr), old(EntrySizes(asks, askRepr)), updates)
      ensures Valid() && fresh(Repr - old(Repr)) && old(Repr) <= Repr
      ensures Asks() == ApplyItems(old(Asks()), updates, time) && Bids() == old(Bids())
      ensures bids == old(bids) && SameMeta(old(timestamp), old(sequence), old(isSnapshot))
      ensures SameEntries(old(asks), asks, updates)
    {
      hide Ordered, ApplyItems, SortedDict.Valid, SideValid, View, SameEntries, Shows, EntrySizes;
      var side, repr := ApplyUpdates(asks, askRepr, updates, time);
      asks, askRepr := side, repr;
      Repr := Repr + repr;
    }

    ghost predicate SameMeta(time: real, seqNo: int, snapshot: bool)
      reads this
    {
      timestamp == time && sequence == seqNo && isSnapshot == snapshot
    }

    /** Applies a diff in place. Levels that no item removes keep their entry object, and every entry held by a
        reader shows its live size. */
    method ApplyDiff(
      bidUpdates: seq<PriceSize>, askUpdates: seq<PriceSize>, stamp: Option<real>, seqNo: Option<int>, clock: real)
      requires Valid()
      modifies Repr
      ensures Valid() && fresh(Repr - old(Repr)) && old(Repr) <= Repr
      ensures Bids() == ApplyItems(old(Bids()), bidUpdates, UpdateTime(stamp, clock))
      ensures Asks() == ApplyItems(old(Asks()), askUpdates, UpdateTime(stamp, clock))
      ensures SameMeta(UpdateTime(stamp, clock), if seqNo.Some? then seqNo.value else old(sequence), old(isSnapshot))
      ensures timestamp == if stamp.Some? && stamp.value != 0.0 then stamp.value else clock
      ensures SameEntries(old(bids), bids, bidUpdates) && SameEntries(old(asks), asks, askUpdates)
      ensures Shows(old(bids), old(bidRepr), old(EntrySizes(bids, bidRepr)), bidUpdates)
      ensures Shows(old(asks), old(askRepr), old(EntrySizes(asks, askRepr)), askUpdates)
    {
      hide Shows, EntrySizes, Ordered, ApplyItems, SortedDict.Valid, SideValid, View, SameEntries, UpdateTime;
      UpdateTimeIs(stamp, clock);
      var time := UpdateTime(stamp, clock);
      ApplyBids(bidUpdates, time);
      ApplyAsks(askUpdates, time);
      if seqNo.Some? {
        sequence := seqNo.value;
      }
      timestamp := time;
    }

    /** The bid loop of a snapshot, after clearing. */
    method FillBids(updates: seq<PriceSize>, time: real)
      requires Valid()
      modifies this
      ensures Valid() && fresh(Repr - old(Repr)) && old(Repr) <= Repr
      ensures Bids() == SnapshotLevels(updates, time) && Asks() == old(Asks())
      ensures SameMeta(old(timestamp), old(sequence), old(isSnapshot))
    {
      hide Ordered, SnapshotLevels, SortedDict.Valid, SideValid, View;
      var side, repr := FillSide(true, updates, time);
      bids, bidRepr := side, repr;
      Repr := Repr + repr;
    }

    /** The ask loop of a snapshot, after clearing. */
    method FillAsks(updates: seq<PriceSize>, time: real)
      requires Valid()
      modifies this
      ensures Valid() && fresh(Repr - old(Repr)) && old(Repr) <= Repr
      ensures Asks() == SnapshotLevels(updates, time) && Bids() == old(Bids())
      ensures SameMeta(old(timestamp), old(sequence), old(isSnapshot))
    {
      hide Ordered, SnapshotLevels, SortedDict.Valid, SideValid, View;
      var side, repr := FillSide(false, updates, time);
      asks, askRepr := side, repr;
      Repr := Repr + repr;
    }

    /** Replaces the whole book. */
    method ApplySnapshot(
      bidLevels: seq<PriceSize>, askLevels: seq<PriceSize>, stamp: Option<real>, seqNo: Option<int>, clock: real)
      requires Valid()
      modifies this
      ensures Valid() && fresh(Repr - old(Repr)) && old(Repr) <= Repr
      ensures Bids() == SnapshotLevels(bidLevels, UpdateTime(stamp, clock))
      ensures Asks() == SnapshotLevels(askLevels, UpdateTime(stamp, clock))
      ensures SameMeta(UpdateTime(stamp, clock), if seqNo.Some? then seqNo.value else old(sequence), true)
      ensures timestamp == if stamp.Some? && stamp.value != 0.0 then stamp.value else clock
      ensures forall e :: e in old(bidRepr) || e in old(askRepr) ==> e.size == old(e.size)
    {
      hide Ordered, SnapshotLevels, SortedDict.Valid, SideValid, View, UpdateTime;
      UpdateTimeIs(stamp, clock);
      var time := UpdateTime(stamp, clock);
      FillBids(bidLevels, time);
      FillAsks(askLevels, time);
      timestamp := time;
      isSnapshot := true;
      if seqNo.Some? {
        sequence := seqNo.value;
      }
    }

    /** The highest bid, none exactly when there are no bids. */
    method GetBestBid() returns (r: Option<HFTOrderBookEntry>)
      requires Valid()
      ensures IsBest(bids, r)
    {
      r := First(bids, bidRepr);
    }

    /** The lowest ask, none exactly when there are no asks. */
    method GetBestAsk() returns (r: Option<HFTOrderBookEntry>)
      requires Valid()
      ensures IsBest(asks, r)
    {
      r := First(asks, askRepr);
    }

    method GetSpread() returns (r: Option<real>)
      requires Valid()
      ensures r == SpreadOf(bids, asks)
    {
      var bestBid := GetBestBid();
      var bestAsk := GetBestAsk();
      BestIsFirst(bids, bestBid);
      BestIsFirst(asks, bestAsk);
      if bestBid.None? || bestAsk.None? {
        return None;
      }
      return Some(bestAsk.value.price - bestBid.value.price);
    }

    method GetMidPrice() returns (r: Option<real>)
      requires Valid()
      ensures r == MidOf(bids, asks)
    {
      var bestBid := GetBestBid();
      var bestAsk := GetBestAsk();
      BestIsFirst(bids, bestBid);
      BestIsFirst(asks, bestAsk);
      if bestBid.None? || bestAsk.None? {
        return None;
      }
      return Some((bestBid.value.price + bestAsk.value.price) / 2.0);
    }

    /** True exactly when both sides are present and every bid is below every ask. */
    method IsValid() returns (b: bool)
      requires Valid()
      ensures b <==> Healthy(bids.items, asks.items)
    {
      TopDecidesHealth(bids, asks);
      var bestBid := GetBestBid();
      var bestAsk := GetBestAsk();
      BestIsFirst(bids, bestBid);
      BestIsFirst(asks, bestAsk);
      if bestBid.None? || bestAsk.None? {
        return false;
      }
      if bestBid.value.price >= bestAsk.value.price {
        return false;
      }
      return true;
    }

    /** The best levels of both sides: the live entry objects, not copies. */
    method GetDepth(levels: int) returns (bidEntries: seq<HFTOrderBookEntry>, askEntries: seq<HFTOrderBookEntry>)
      requires Valid()
      ensures IsDepth(bids, levels, bidEntries) && IsDepth(asks, levels, askEntries)
    {
      bidEntries := Take(bids, bidRepr, levels);
      askEntries := Take(asks, askRepr, levels);
    }

    /** Frozen copies of the best levels: values that no later update can change. */
    method CopyDepth(levels: int) returns (bidCopies: seq<OrderBookEntry>, askCopies: seq<OrderBookEntry>)
      requires Valid()
      ensures BestLevels(Bids(), true, levels, bidCopies) && BestLevels(Asks(), false, levels, askCopies)
    {
      var bidEntries, askEntries := GetDepth(levels);
      bidCopies := CopyEntries(bids, bidRepr, levels, bidEntries);
      askCopies := CopyEntries(asks, askRepr, levels, askEntries);
    }

    /** The copies are never delivered: the OrderBook struct has a required symbol field that this
        conversion does not pass, so building it raises. */
    method ToOrderbook(levels: int) returns (r: Result<OrderBook, StructError>)
      requires Valid()
      ensures r == Failure(MissingSymbol)
    {
      var bidCopies, askCopies := CopyDepth(levels);
      return Failure(MissingSymbol);
    }
  }
}
