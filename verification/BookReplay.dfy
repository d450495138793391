/** What a stream of diffs and snapshots leaves in one side of a book. */
module BookReplay {
  import opened Sums
  import opened OrderedKeys
  import opened HftOrderBooks

  /** One update to one side, as a book applies it. */
  datatype SideUpdate =
    | Diff(items: seq<PriceSize>, time: real)
    | Snapshot(items: seq<PriceSize>, time: real)

  function ApplySide(m: Levels, u: SideUpdate): Levels
  {
    match u
    case Diff(items, time) => ApplyItems(m, items, time)
    case Snapshot(items, time) => SnapshotLevels(items, time)
  }

  /** The side after the whole stream, starting from an empty book. */
  function Replay(stream: seq<SideUpdate>): Levels
  {
    if |stream| == 0 then map[] else ApplySide(Replay(stream[..|stream| - 1]), stream[|stream| - 1])
  }

  /** Size carried by the last item for price p. */
  function LastSize(us: seq<PriceSize>, p: real): Option<real>
  {
    if |us| == 0 then None
    else if us[|us| - 1].price == p then Some(us[|us| - 1].size)
    else LastSize(us[..|us| - 1], p)
  }

  predicate IsPositive(u: PriceSize)
  {
    u.size > 0.0
  }

  /** The items that still matter: since the last snapshot, and of the snapshot the positive ones. */
  function Effective(stream: seq<SideUpdate>): seq<PriceSize>
  {
    if |stream| == 0 then []
    else
      var u := stream[|stream| - 1];
      match u
      case Diff(items, _) => Effective(stream[..|stream| - 1]) + items
      case Snapshot(items, _) => Filter(items, IsPositive)
  }

  lemma {:induction false} LastSizeConcat(us: seq<PriceSize>, vs: seq<PriceSize>, p: real)
    ensures LastSize(us + vs, p) == if LastSize(vs, p).Some? then LastSize(vs, p) else LastSize(us, p)
  {
    if |vs| == 0 {
      assert us + vs == us;
    } else {
      var n := |vs| - 1;
      assert (us + vs)[..|us + vs| - 1] == us + vs[..n];
      LastSizeConcat(us, vs[..n], p);
    }
  }

  /** A diff decides a level by its last item for that price, and leaves other prices alone. */
  lemma {:induction false} DiffDecidedByLast(m: Levels, us: seq<PriceSize>, time: real, p: real)
    ensures var r := ApplyItems(m, us, time);
            match LastSize(us, p)
            case None => (p in r <==> p in m) && (p in m ==> r[p] == m[p])
            case Some(size) => (p in r <==> size > 0.0) && (p in r ==> r[p] == Level(size, time))
  {
    if |us| == 0 {
    } else {
      DiffDecidedByLast(m, us[..|us| - 1], time, p);
    }
  }

  /** A snapshot decides a level by its last positive item for that price. */
  lemma {:induction false} SnapshotDecidedByLast(us: seq<PriceSize>, time: real, p: real)
    ensures var r := SnapshotLevels(us, time);
            match LastSize(Filter(us, IsPositive), p)
            case None => p !in r
            case Some(size) => size > 0.0 && p in r && r[p] == Level(size, time)
  {
    if |us| == 0 {
    } else {
      var n := |us| - 1;
      SnapshotDecidedByLast(us[..n], time, p);
      if IsPositive(us[n]) {
        var f := Filter(us[..n], IsPositive) + [us[n]];
        assert f[..|f| - 1] == Filter(us[..n], IsPositive);
      }
    }
  }

  /** Replay: after any stream, the level at p is present exactly when the last effective item for p
      has a positive size, and that is its size; so every stored size is positive. */
  lemma {:induction false} ReplayDecidedByLast(stream: seq<SideUpdate>, p: real)
    ensures var last := LastSize(Effective(stream), p);
            && (p in Replay(stream) <==> last.Some? && last.value > 0.0)
            && (p in Replay(stream) ==> Replay(stream)[p].size == last.value)
  {
    if |stream| == 0 {
    } else {
      var n := |stream| - 1;
      ReplayDecidedByLast(stream[..n], p);
      match stream[n]
      case Diff(items, time) =>
        LastSizeConcat(Effective(stream[..n]), items, p);
        DiffDecidedByLast(Replay(stream[..n]), items, time, p);
      case Snapshot(items, time) =>
        SnapshotDecidedByLast(items, time, p);
    }
  }

  /** Nothing before a snapshot matters. */
  lemma {:induction false} SnapshotForgets(before: seq<SideUpdate>, s: SideUpdate, after: seq<SideUpdate>)
    requires s.Snapshot?
    ensures Replay(before + [s] + after) == Replay([s] + after)
  {
    if |after| == 0 {
      assert before + [s] + after == before + [s];
      assert [s] + after == [s];
    } else {
      var n := |after| - 1;
      SnapshotForgets(before, s, after[..n]);
      assert (before + [s] + after)[..|before| + 1 + n] == before + [s] + after[..n];
      assert ([s] + after)[..1 + n] == [s] + after[..n];
    }
  }

  /** Two diffs at the same time are one diff of the concatenation. */
  lemma {:induction false} DiffsCompose(m: Levels, us: seq<PriceSize>, vs: seq<PriceSize>, time: real)
    ensures ApplyItems(ApplyItems(m, us, time), vs, time) == ApplyItems(m, us + vs, time)
  {
    if |vs| == 0 {
      assert us + vs == us;
    } else {
      var n := |vs| - 1;
      assert (us + vs)[..|us + vs| - 1] == us + vs[..n];
      DiffsCompose(m, us, vs[..n], time);
    }
  }

  function Sizes(m: Levels): map<real, real>
  {
    map p | p in m :: m[p].size
  }

  /** At different times they still leave the same prices and sizes. */
  lemma DiffsComposeSizes(m: Levels, us: seq<PriceSize>, vs: seq<PriceSize>, t0: real, t1: real)
    ensures Sizes(ApplyItems(ApplyItems(m, us, t0), vs, t1)) == Sizes(ApplyItems(m, us + vs, t1))
  {
    var a, b := ApplyItems(ApplyItems(m, us, t0), vs, t1), ApplyItems(m, us + vs, t1);
    forall p
      ensures (p in a <==> p in b) && (p in a ==> a[p].size == b[p].size)
    {
      LastSizeConcat(us, vs, p);
      DiffDecidedByLast(m, us, t0, p);
      DiffDecidedByLast(ApplyItems(m, us, t0), vs, t1, p);
      DiffDecidedByLast(m, us + vs, t1, p);
    }
  }

  function AsItems(cs: seq<OrderBookEntry>): seq<PriceSize>
  {
    seq(|cs|, i requires 0 <= i < |cs| => PriceSize(cs[i].price, cs[i].size))
  }

  lemma {:induction false} LastSizeOnce(us: seq<PriceSize>, p: real, i: nat)
    requires i < |us| && us[i].price == p
    requires forall j :: 0 <= j < |us| && us[j].price == p ==> j == i
    ensures LastSize(us, p) == Some(us[i].size)
  {
    var n := |us| - 1;
    if i < n {
      LastSizeOnce(us[..n], p, i);
    }
  }

  lemma {:induction false} LastSizeNever(us: seq<PriceSize>, p: real)
    requires forall j :: 0 <= j < |us| ==> us[j].price != p
    ensures LastSize(us, p) == None
  {
    if |us| == 0 {
    } else {
      LastSizeNever(us[..|us| - 1], p);
    }
  }

  lemma {:induction false} FilterAll(us: seq<PriceSize>)
    requires forall i :: 0 <= i < |us| ==> IsPositive(us[i])
    ensures Filter(us, IsPositive) == us
  {
    if |us| == 0 {
    } else {
      FilterAll(us[..|us| - 1]);
    }
  }

  /** The prices named by a copy. */
  ghost function Prices(cs: seq<OrderBookEntry>): set<real>
  {
    if |cs| == 0 then {} else Prices(cs[..|cs| - 1]) + {cs[|cs| - 1].price}
  }

  lemma {:induction false} PricesMember(cs: seq<OrderBookEntry>, p: real)
    ensures p in Prices(cs) <==> exists i :: 0 <= i < |cs| && cs[i].price == p
  {
    if |cs| == 0 {
    } else {
      var n := |cs| - 1;
      PricesMember(cs[..n], p);
      if i :| 0 <= i < |cs| && cs[i].price == p {
        assert i < n ==> cs[..n][i].price == p;
      }
      if i :| 0 <= i < n && cs[..n][i].price == p {
        assert cs[i].price == p;
      }
    }
  }

  lemma {:induction false} PricesSize(cs: seq<OrderBookEntry>)
    ensures |Prices(cs)| <= |cs|
    ensures (forall i, j :: 0 <= i < j < |cs| ==> cs[i].price != cs[j].price) ==> |Prices(cs)| == |cs|
  {
    if |cs| == 0 {
    } else {
      var n := |cs| - 1;
      PricesSize(cs[..n]);
      PricesMember(cs[..n], cs[n].price);
    }
  }

  /** A depth copy names min(levels, n) prices of the side. */
  lemma CopyNames(m: Levels, descending: bool, levels: int, cs: seq<OrderBookEntry>)
    requires BestLevels(m, descending, levels, cs)
    ensures Prices(cs) <= m.Keys && |Prices(cs)| == |cs| == DepthCount(levels, |m|)
    ensures forall i, j :: 0 <= i < j < |cs| ==> cs[i].price != cs[j].price
  {
    PricesSize(cs);
    forall p | p in Prices(cs)
      ensures p in m
    {
      PricesMember(cs, p);
    }
  }

  /** The prices a snapshot of a depth copy leaves are those of the copy, with their sizes. */
  lemma SnapshotOfCopy(m: Levels, descending: bool, levels: int, cs: seq<OrderBookEntry>, time: real, p: real)
    requires BestLevels(m, descending, levels, cs) && forall q :: q in m ==> m[q].size > 0.0
    ensures var r := SnapshotLevels(AsItems(cs), time);
            (p in r <==> p in Prices(cs)) && (p in r ==> p in m && r[p].size == m[p].size)
  {
    hide SnapshotLevels, Prices;
    var us := AsItems(cs);
    FilterAll(us);
    SnapshotDecidedByLast(us, time, p);
    PricesMember(cs, p);
    if i :| 0 <= i < |cs| && cs[i].price == p {
      CopyNames(m, descending, levels, cs);
      LastSizeOnce(us, p, i);
    } else {
      LastSizeNever(us, p);
    }
  }

  /** Round trip: a depth copy of a side, replayed as a snapshot, rebuilds the same prices and sizes exactly when
      the depth asked for covers the side. */
  lemma SnapshotRoundTrip(m: Levels, descending: bool, levels: int, cs: seq<OrderBookEntry>, time: real)
    requires BestLevels(m, descending, levels, cs) && forall p :: p in m ==> m[p].size > 0.0
    ensures Sizes(SnapshotLevels(AsItems(cs), time)) == Sizes(m) <==> levels >= |m| || |m| == 0
  {
    hide SnapshotLevels, AsItems, BestLevels, Prices;
    var r := SnapshotLevels(AsItems(cs), time);
    CopyNames(m, descending, levels, cs);
    forall p
      ensures (p in r <==> p in Prices(cs)) && (p in r ==> p in m && r[p].size == m[p].size)
    {
      SnapshotOfCopy(m, descending, levels, cs, time, p);
    }
    SameSizes(r, m, Prices(cs));
  }

  lemma SameSizes(r: Levels, m: Levels, named: set<real>)
    requires named <= m.Keys && forall p :: p in r <==> p in named
    requires forall p :: p in r ==> r[p].size == m[p].size
    ensures Sizes(r) == Sizes(m) <==> |named| == |m|
  {
    assert |m| == |m.Keys|;
    if Sizes(r) == Sizes(m) {
      SameSizesNameAll(r, m, named);
    }
    if |named| == |m| {
      SubsetOfSameSize(named, m.Keys);
      var a, b := Sizes(r), Sizes(m);
      forall p
        ensures p in a <==> p in b
        ensures p in a ==> a[p] == b[p]
      {
        assert p in m <==> p in m.Keys;
      }
      assert a == b;
    }
  }

  lemma SameSizesNameAll(r: Levels, m: Levels, named: set<real>)
    requires named <= m.Keys && (forall p :: p in r <==> p in named) && Sizes(r) == Sizes(m)
    ensures named == m.Keys
  {
    forall p | p in m
      ensures p in named
    {
      assert p in Sizes(m);
    }
  }

  lemma SubsetOfSameSize<T>(a: set<T>, b: set<T>)
    requires a <= b && |a| == |b|
    ensures a == b
  {
    if x :| x in b && x !in a {
      assert a <= b - {x};
      SubsetSize(a, b - {x});
    }
  }

  lemma {:induction false} SubsetSize<T>(a: set<T>, b: set<T>)
    requires a <= b
    ensures |a| <= |b|
  {
    if x :| x in a {
      SubsetSize(a - {x}, b - {x});
    }
  }

  /** Price and size of each entry, as read now. */
  method ReadPairs(es: seq<HFTOrderBookEntry>) returns (us: seq<PriceSize>)
    ensures |us| == |es| && forall i :: 0 <= i < |es| ==> us[i] == PriceSize(es[i].price, es[i].size)
  {
    us := [];
    for i := 0 to |es|
      invariant |us| == i && forall k :: 0 <= k < i ==> us[k] == PriceSize(es[k].price, es[k].size)
    {
      us := us + [PriceSize(es[i].price, es[i].size)];
    }
  }

  /** The depth of a book, sent as a snapshot to a book, its own or another, leaves the same prices and sizes there
      exactly on the sides that the depth covers. */
  method SendDepth(book: HFTOrderBook, other: HFTOrderBook, levels: int, stamp: Option<real>, clock: real)
    requires book.Valid() && other.Valid()
    modifies other
    ensures other.Valid()
    ensures Sizes(other.Bids()) == old(Sizes(book.Bids())) <==> levels >= old(|book.Bids()|) || old(|book.Bids()|) == 0
    ensures Sizes(other.Asks()) == old(Sizes(book.Asks())) <==> levels >= old(|book.Asks()|) || old(|book.Asks()|) == 0
  {
    hide Ordered, SnapshotLevels, SortedDict.Valid, SideValid, View, IsDepth, BestLevels, Sizes;
    ghost var bids, asks := book.Bids(), book.Asks();
    var bidEntries, askEntries := book.GetDepth(levels);
    var bidItems := ReadPairs(bidEntries);
    var askItems := ReadPairs(askEntries);
    var time := UpdateTime(stamp, clock);
    RoundTripOfDepth(book.bids, book.bidRepr, levels, bidEntries, bidItems, time);
    RoundTripOfDepth(book.asks, book.askRepr, levels, askEntries, askItems, time);
    other.ApplySnapshot(bidItems, askItems, stamp, None, clock);
  }

  lemma RoundTripOfDepth(
    side: Side, repr: set<HFTOrderBookEntry>, levels: int, es: seq<HFTOrderBookEntry>, us: seq<PriceSize>, time: real)
    requires SideValid(side, repr) && IsDepth(side, levels, es)
    requires |us| == |es| && forall i :: 0 <= i < |es| ==> us[i] == PriceSize(es[i].price, es[i].size)
    ensures Sizes(SnapshotLevels(us, time)) == Sizes(View(side, repr))
       <==> levels >= |View(side, repr)| || |View(side, repr)| == 0
  {
    hide SnapshotLevels, SortedDict.Valid, Sizes;
    var cs := seq(|us|, i requires 0 <= i < |us| => OrderBookEntry(us[i].price, us[i].size));
    DepthIsBest(side, repr, levels, es, cs);
    assert AsItems(cs) == us;
    SnapshotRoundTrip(View(side, repr), side.descending, levels, cs, time);
  }

  lemma DepthIsBest(
    side: Side, repr: set<HFTOrderBookEntry>, levels: int, es: seq<HFTOrderBookEntry>, cs: seq<OrderBookEntry>)
    requires SideValid(side, repr) && IsDepth(side, levels, es)
    requires |cs| == |es| && forall i :: 0 <= i < |es| ==> cs[i] == OrderBookEntry(es[i].price, es[i].size)
    ensures BestLevels(View(side, repr), side.descending, levels, cs)
  {
    hide SortedDict.Valid;
    assert View(side, repr).Keys == side.items.Keys;
    forall p | p in side.items
      ensures (exists i :: 0 <= i < |cs| && cs[i].price == p)
              || forall i :: 0 <= i < |cs| ==> Before(side.descending, cs[i].price, p)
    {
      if k :| 0 <= k < |es| && es[k].price == p {
        assert cs[k].price == p;
      }
    }
  }

  // ----- reads against later writes

  /** Position of the first item that removes the level at p; the length if none does. */
  function FirstRemoval(us: seq<PriceSize>, p: real): (k: nat)
    ensures k <= |us|
  {
    if |us| == 0 then 0
    else
      var n := |us| - 1;
      var before := FirstRemoval(us[..n], p);
      if before < n then before else if us[n].price == p && us[n].size <= 0.0 then n else n + 1
  }

  lemma {:induction false} KeepsUntilRemoval(us: seq<PriceSize>, p: real)
    ensures Keeps(us, p) <==> FirstRemoval(us, p) == |us|
  {
    if |us| == 0 {
    } else {
      var n := |us| - 1;
      KeepsUntilRemoval(us[..n], p);
      KeepsSnoc(us, n, p);
      assert us[..n + 1] == us;
    }
  }

  /** An entry read at price p shows, after any diff, the last size the diff carries for p before the first item
      that removes the level. */
  lemma {:induction false} LiveSizeIs(size: real, us: seq<PriceSize>, p: real)
    ensures LiveSize(size, us, p) == match LastSize(us[..FirstRemoval(us, p)], p) case None => size case Some(x) => x
  {
    if |us| == 0 {
    } else {
      var n := |us| - 1;
      var k := FirstRemoval(us, p);
      LiveSizeIs(size, us[..n], p);
      KeepsUntilRemoval(us[..n], p);
      if k <= n {
        assert us[..k] == us[..n][..FirstRemoval(us[..n], p)];
      } else {
        assert us[..n][..n] == us[..n] && us[..k] == us && us[..k][..n] == us[..n];
      }
    }
  }

  /** It is unaffected exactly when no such item carries another size. */
  lemma UnaffectedExactly(size: real, us: seq<PriceSize>, p: real)
    ensures LiveSize(size, us, p) == size <==>
      LastSize(us[..FirstRemoval(us, p)], p) == None || LastSize(us[..FirstRemoval(us, p)], p) == Some(size)
  {
    LiveSizeIs(size, us, p);
  }

  /** Reads a depth and the best levels, then applies a diff: every entry read is live and shows its live size. */
  method ReadThenDiff(
    book: HFTOrderBook, levels: int, bidUpdates: seq<PriceSize>, askUpdates: seq<PriceSize>, stamp: Option<real>,
    seqNo: Option<int>, clock: real)
    returns (bidEntries: seq<HFTOrderBookEntry>, askEntries: seq<HFTOrderBookEntry>, bestBid: Option<HFTOrderBookEntry>,
             bestAsk: Option<HFTOrderBookEntry>)
    requires book.Valid()
    modifies book.Repr
    ensures book.Valid()
    ensures IsDepth(old(book.bids), levels, bidEntries) && IsDepth(old(book.asks), levels, askEntries)
    ensures IsBest(old(book.bids), bestBid) && IsBest(old(book.asks), bestAsk)
    ensures book.Bids() == ApplyItems(old(book.Bids()), bidUpdates, UpdateTime(stamp, clock))
    ensures book.Asks() == ApplyItems(old(book.Asks()), askUpdates, UpdateTime(stamp, clock))
    ensures forall i :: 0 <= i < |bidEntries| ==> ShowsLive(bidEntries[i], old(book.Bids()), bidUpdates)
    ensures forall i :: 0 <= i < |askEntries| ==> ShowsLive(askEntries[i], old(book.Asks()), askUpdates)
    ensures bestBid.Some? ==> ShowsLive(bestBid.value, old(book.Bids()), bidUpdates)
    ensures bestAsk.Some? ==> ShowsLive(bestAsk.value, old(book.Asks()), askUpdates)
  {
    hide Ordered, ApplyItems, SortedDict.Valid, LiveSize, SameEntries;
    bidEntries, askEntries := book.GetDepth(levels);
    bestBid := book.GetBestBid();
    bestAsk := book.GetBestAsk();
    book.ApplyDiff(bidUpdates, askUpdates, stamp, seqNo, clock);
  }

  /** The entry was at a level of m and now shows that level's live size. */
  ghost predicate ShowsLive(e: HFTOrderBookEntry, m: Levels, us: seq<PriceSize>)
    reads e
  {
    e.price in m && e.size == LiveSize(m[e.price].size, us, e.price)
  }

  /** Reads a depth and the best levels, then applies a snapshot: no entry read changes. */
  method ReadThenSnapshot(
    book: HFTOrderBook, levels: int, bidLevels: seq<PriceSize>, askLevels: seq<PriceSize>, stamp: Option<real>,
    seqNo: Option<int>, clock: real)
    returns (bidEntries: seq<HFTOrderBookEntry>, askEntries: seq<HFTOrderBookEntry>, bestBid: Option<HFTOrderBookEntry>,
             bestAsk: Option<HFTOrderBookEntry>)
    requires book.Valid()
    modifies book
    ensures book.Valid()
    ensures IsDepth(old(book.bids), levels, bidEntries) && IsDepth(old(book.asks), levels, askEntries)
    ensures IsBest(old(book.bids), bestBid) && IsBest(old(book.asks), bestAsk)
    ensures book.Bids() == SnapshotLevels(bidLevels, UpdateTime(stamp, clock))
    ensures book.Asks() == SnapshotLevels(askLevels, UpdateTime(stamp, clock))
    ensures forall i :: 0 <= i < |bidEntries| ==> ShowsLive(bidEntries[i], old(book.Bids()), [])
    ensures forall i :: 0 <= i < |askEntries| ==> ShowsLive(askEntries[i], old(book.Asks()), [])
    ensures bestBid.Some? ==> ShowsLive(bestBid.value, old(book.Bids()), [])
    ensures bestAsk.Some? ==> ShowsLive(bestAsk.value, old(book.Asks()), [])
  {
    hide Ordered, SnapshotLevels, SortedDict.Valid;
    bidEntries, askEntries := book.GetDepth(levels);
    bestBid := book.GetBestBid();
    bestAsk := book.GetBestAsk();
    book.ApplySnapshot(bidLevels, askLevels, stamp, seqNo, clock);
  }

  /** One item at the best price is enough to change an entry that was read before it. */
  lemma OneItemShows(size: real, u: PriceSize)
    requires u.size > 0.0
    ensures LiveSize(size, [u], u.price) == u.size
  {
    assert [u][..0] == [];
  }

  /** On every book with a bid: the best bid is read, then a one-item diff for its price changes the entry read. */
  method ReadThenOneItem(book: HFTOrderBook, size: real, stamp: Option<real>, clock: real)
    returns (best: Option<HFTOrderBookEntry>)
    requires book.Valid() && size > 0.0
    modifies book.Repr
    ensures book.Valid() && IsBest(old(book.bids), best)
    ensures best.Some? ==> best.value.size == size
  {
    hide Ordered, ApplyItems, SortedDict.Valid, LiveSize, SameEntries;
    best := book.GetBestBid();
    if best.Some? {
      var u := PriceSize(best.value.price, size);
      OneItemShows(best.value.size, u);
      book.ApplyDiff([u], [], stamp, None, clock);
    }
  }
}
