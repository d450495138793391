/** Exchange messages, already decoded, turned into book updates. */
module DiffProcessing {
  import opened Sums
  import opened HftOrderBooks
  import opened BookReplay
  import opened OrderbookManagement

  /** An element of a bid or ask list: a list of two or more values with their conversions to numbers,
      None where the conversion fails, or anything else. */
  datatype Item = Values(price: Option<real>, size: Option<real>) | NotAPair

  /** A numeric field of a message. */
  datatype Field = Missing | NotANumber | Number(value: real)

  /** A bid or ask list; iterating over anything else raises. A missing list is empty. */
  datatype ItemList = Items(items: seq<Item>) | NotIterable

  /** The channel name; looking for a part of something that is no text raises. A missing name is empty. */
  datatype Channel = Text(text: string) | NotSearchable

  /** `version` is None when missing, empty or not an integer. */
  datatype MexcData = MexcData(bids: ItemList, asks: ItemList, version: Option<int>)

  /** `data` is None when missing, empty or not a dictionary. */
  datatype MexcMessage = MexcMessage(channel: Channel, data: Option<MexcData>, time: Field)

  datatype GateioResult = GateioResult(bids: ItemList, asks: ItemList, eventTime: Field, finalUpdateId: Option<int>)

  /** The result of a message: missing or empty, something without fields, or a dictionary. */
  datatype ResultField = NoResult | NotADictionary | Result(result: GateioResult)

  datatype GateioMessage = GateioMessage(event: string, result: ResultField)

  predicate WellFormed(item: Item)
  {
    item.Values? && item.price.Some? && item.size.Some?
  }

  /** The well-formed items, in order. */
  function Parsed(items: seq<Item>): seq<PriceSize>
  {
    if |items| == 0 then []
    else
      var n := |items| - 1;
      if WellFormed(items[n]) then Parsed(items[..n]) + [PriceSize(items[n].price.value, items[n].size.value)]
      else Parsed(items[..n])
  }

  /** Skips what is not a pair of numbers. */
  method ParseItems(items: seq<Item>) returns (updates: seq<PriceSize>)
    ensures updates == Parsed(items)
  {
    updates := [];
    for i := 0 to |items|
      invariant updates == Parsed(items[..i])
    {
      assert items[..i + 1][..i] == items[..i];
      if items[i].Values? {
        if items[i].price.Some? && items[i].size.Some? {
          updates := updates + [PriceSize(items[i].price.value, items[i].size.value)];
        }
      }
    }
    assert items[..|items|] == items;
  }

  predicate Contains(text: string, part: string)
  {
    exists i :: 0 <= i <= |text| && part <= text[i..]
  }

  /** Depth-limited channels carry full snapshots. */
  predicate IsSnapshotChannel(channel: string)
  {
    Contains(channel, "limit.depth")
  }

  /** Seconds from a field in milliseconds; the clock stands in for a missing one. */
  function Seconds(f: Field, clock: real): real
    requires !f.NotANumber?
  {
    if f.Missing? then clock else f.value / 1000.0
  }

  /** A book update and the sequence number that came with it. */
  datatype Decoded = Decoded(update: ParsedUpdate, sequence: Option<int>)

  /** Reading the message raises nowhere. */
  predicate MexcReadable(message: MexcMessage)
    requires message.data.Some?
  {
    !message.time.NotANumber? && message.data.value.bids.Items? && message.data.value.asks.Items?
      && message.channel.Text?
  }

  /** The update a readable message carries. */
  function MexcUpdate(message: MexcMessage, symbol: Symbol, clock: real): ParsedUpdate
    requires message.data.Some? && MexcReadable(message)
  {
    ParsedUpdate(symbol, Parsed(message.data.value.bids.items), Parsed(message.data.value.asks.items),
                 Seconds(message.time, clock), IsSnapshotChannel(message.channel.text))
  }

  predicate GateioReadable(result: GateioResult)
  {
    !result.eventTime.NotANumber? && result.bids.Items? && result.asks.Items?
  }

  function GateioUpdate(result: GateioResult, symbol: Symbol, clock: real): ParsedUpdate
    requires GateioReadable(result)
  {
    ParsedUpdate(symbol, Parsed(result.bids.items), Parsed(result.asks.items), Seconds(result.eventTime, clock), false)
  }

  class MexcOrderbookDiffProcessor {
    var messagesProcessed: nat
    var jsonMessages: nat
    var parseErrors: nat

    constructor ()
      ensures messagesProcessed == 0 && jsonMessages == 0 && parseErrors == 0
    {
      messagesProcessed, jsonMessages, parseErrors := 0, 0, 0;
    }

    /** A JSON message with data yields its update; one that cannot be read is a parse error. */
    method ParseDiffMessage(message: MexcMessage, symbol: Symbol, clock: real) returns (r: Option<Decoded>)
      modifies this
      ensures messagesProcessed == old(messagesProcessed) + 1 && jsonMessages == old(jsonMessages) + 1
      ensures r.Some? <==> message.data.Some? && MexcReadable(message)
      ensures parseErrors == old(parseErrors) + if message.data.Some? && !MexcReadable(message) then 1 else 0
      ensures r.Some? ==> r.value == Decoded(MexcUpdate(message, symbol, clock), message.data.value.version)
      ensures r.Some? ==> (r.value.update.isSnapshot <==> NamesLimitDepth(message.channel.text))
    {
      messagesProcessed := messagesProcessed + 1;
      jsonMessages := jsonMessages + 1;
      if message.channel.Text? {
        SnapshotChannelExactly(message.channel.text);
      }
      if message.data.None? {
        return None;
      }
      var data := message.data.value;
      if message.time.NotANumber? || data.bids.NotIterable? {
        parseErrors := parseErrors + 1;
        return None;
      }
      var bids := ParseItems(data.bids.items);
      if data.asks.NotIterable? {
        parseErrors := parseErrors + 1;
        return None;
      }
      var asks := ParseItems(data.asks.items);
      if message.channel.NotSearchable? {
        parseErrors := parseErrors + 1;
        return None;
      }
      var update := ParsedUpdate(symbol, bids, asks, Seconds(message.time, clock),
                                 IsSnapshotChannel(message.channel.text));
      return Some(Decoded(update, data.version));
    }
  }

  class GateioOrderbookDiffProcessor {
    var messagesProcessed: nat
    var parseErrors: nat

    constructor ()
      ensures messagesProcessed == 0 && parseErrors == 0
    {
      messagesProcessed, parseErrors := 0, 0;
    }

    /** Only update events with a result count, and they are never snapshots; an update id of 0 counts as none. */
    method ParseDiffMessage(message: GateioMessage, symbol: Symbol, clock: real) returns (r: Option<Decoded>)
      modifies this
      ensures messagesProcessed == old(messagesProcessed) + 1
      ensures r.Some? <==> message.event == "update" && message.result.Result? && GateioReadable(message.result.result)
      ensures parseErrors == old(parseErrors)
        + if message.event == "update" && !message.result.NoResult? && r.None? then 1 else 0
      ensures r.Some? ==>
        var id := message.result.result.finalUpdateId;
        r.value == Decoded(GateioUpdate(message.result.result, symbol, clock), if id == Some(0) then None else id)
    {
      messagesProcessed := messagesProcessed + 1;
      if message.event != "update" || message.result.NoResult? {
        return None;
      }
      if message.result.NotADictionary? {
        parseErrors := parseErrors + 1;
        return None;
      }
      var result := message.result.result;
      if result.eventTime.NotANumber? || result.bids.NotIterable? {
        parseErrors := parseErrors + 1;
        return None;
      }
      var id := result.finalUpdateId;
      var bids := ParseItems(result.bids.items);
      if result.asks.NotIterable? {
        parseErrors := parseErrors + 1;
        return None;
      }
      var asks := ParseItems(result.asks.items);
      var update := ParsedUpdate(symbol, bids, asks, Seconds(result.eventTime, clock), false);
      return Some(Decoded(update, if id.Some? && id.value != 0 then id else None));
    }
  }

  /** A MEXC message through processor and manager: its update is applied, or nothing changes. */
  method ProcessMexcMessage(
    manager: OrderbookManager, processor: MexcOrderbookDiffProcessor, message: MexcMessage, symbol: Symbol, c: Clocks)
    returns (ok: bool)
    requires Invariant(manager.Now())
    modifies manager, processor
    ensures Invariant(manager.Now())
    ensures if message.data.Some? && MexcReadable(message)
            then (manager.Now(), ok) == Applied(old(manager.Now()), MexcUpdate(message, symbol, c.start), c)
            else manager.Now() == old(manager.Now()) && !ok
  {
    hide Invariant, Applied;
    var decoded := processor.ParseDiffMessage(message, symbol, c.start);
    ok := manager.ProcessDiffUpdate(true, if decoded.Some? then Some(decoded.value.update) else None, c);
  }

  /** The same for a Gate.io message. */
  method ProcessGateioMessage(
    manager: OrderbookManager, processor: GateioOrderbookDiffProcessor, message: GateioMessage, symbol: Symbol,
    c: Clocks)
    returns (ok: bool)
    requires Invariant(manager.Now())
    modifies manager, processor
    ensures Invariant(manager.Now())
    ensures if message.event == "update" && message.result.Result? && GateioReadable(message.result.result)
            then (manager.Now(), ok)
              == Applied(old(manager.Now()), GateioUpdate(message.result.result, symbol, c.start), c)
            else manager.Now() == old(manager.Now()) && !ok
  {
    hide Invariant, Applied;
    var decoded := processor.ParseDiffMessage(message, symbol, c.start);
    ok := manager.ProcessDiffUpdate(true, if decoded.Some? then Some(decoded.value.update) else None, c);
  }

  // Which channels carry snapshots.

  /** The text has "limit.depth" somewhere in it. */
  ghost predicate NamesLimitDepth(text: string)
  {
    exists a: string, b: string {:trigger a + "limit.depth" + b} :: text == a + "limit.depth" + b
  }

  /** Snapshots come exactly on channels with "limit.depth" in their name. */
  lemma SnapshotChannelExactly(channel: string)
    ensures IsSnapshotChannel(channel) <==> NamesLimitDepth(channel)
  {
    var part := "limit.depth";
    if i :| 0 <= i <= |channel| && part <= channel[i..] {
      assert channel == channel[..i] + part + channel[i + |part|..];
    }
    if a: string, b: string {:trigger a + "limit.depth" + b} :| channel == a + "limit.depth" + b {
      assert channel[|a|..] == part + b;
    }
  }

  /** The documented channel of full depth, whatever symbol and depth follow. */
  lemma LimitChannelIsSnapshot(rest: string)
    ensures IsSnapshotChannel("spot@public.limit.depth.v3.api@" + rest)
  {
    var channel := "spot@public.limit.depth.v3.api@" + rest;
    assert channel == "spot@public." + "limit.depth" + (".v3.api@" + rest);
    SnapshotChannelExactly(channel);
  }

  /** No occurrence of "limit.depth" begins where the text has no 'l', or has one without an 'm' two places on. */
  lemma BeginsWithL(text: string, i: nat)
    requires i <= |text| && "limit.depth" <= text[i..]
    ensures i + 2 < |text| && text[i] == 'l' && text[i + 2] == 'm'
  {
    var part := "limit.depth";
    assert text[i..][0] == part[0] == 'l' && text[i..][2] == part[2] == 'm';
  }

  /** The documented channel of increments never is one, unless what follows names it. */
  lemma IncreaseChannelIsDiff(rest: string)
    ensures IsSnapshotChannel("spot@public.increase.depth.v3.api@" + rest) <==> IsSnapshotChannel(rest)
  {
    var prefix := "spot@public.increase.depth.v3.api@";
    var channel := prefix + rest;
    PrefixHasOneL(prefix);
    if i :| 0 <= i <= |channel| && "limit.depth" <= channel[i..] {
      BeginsWithL(channel, i);
      assert channel[i..] == rest[i - |prefix|..];
    }
    if i :| 0 <= i <= |rest| && "limit.depth" <= rest[i..] {
      assert channel[|prefix| + i..] == rest[i..];
    }
  }

  lemma PrefixHasOneL(prefix: string)
    requires prefix == "spot@public.increase.depth.v3.api@"
    ensures |prefix| == 34 && prefix[10] == 'c'
    ensures forall i :: 0 <= i < |prefix| && i != 8 ==> prefix[i] != 'l'
  {
  }

  // What a message does to a side of a book.

  lemma {:induction false} ParsedConcat(a: seq<Item>, b: seq<Item>)
    ensures Parsed(a + b) == Parsed(a) + Parsed(b)
  {
    if |b| == 0 {
      assert a + b == a;
    } else {
      var n := |b| - 1;
      ParsedConcat(a, b[..n]);
      assert (a + b)[..|a + b| - 1] == a + b[..n];
    }
  }

  /** Malformed items change nothing, wherever they stand. */
  lemma MalformedIgnored(a: seq<Item>, bad: Item, b: seq<Item>)
    requires !WellFormed(bad)
    ensures Parsed(a + [bad] + b) == Parsed(a + b)
  {
    ParsedConcat(a + [bad], b);
    ParsedConcat(a, [bad]);
    ParsedConcat(a, b);
  }

  /** What one list of a message does to its side of the book. */
  function SideOf(isSnapshot: bool, items: seq<Item>, time: real): SideUpdate
  {
    if isSnapshot then Snapshot(Parsed(items), time) else Diff(Parsed(items), time)
  }

  /** The two sides of an update are those of its message. */
  lemma SidesOfMessage(message: MexcMessage, symbol: Symbol, clock: real, applied: real)
    requires message.data.Some? && MexcReadable(message)
    ensures var u := MexcUpdate(message, symbol, clock);
            var time := UpdateTime(Some(u.timestamp), applied);
            && BidUpdate(u, applied) == SideOf(u.isSnapshot, message.data.value.bids.items, time)
            && AskUpdate(u, applied) == SideOf(u.isSnapshot, message.data.value.asks.items, time)
  {
  }

  /** The item counts for price p: well-formed, and in a snapshot with a positive size. */
  predicate Counts(isSnapshot: bool, item: Item, p: real)
  {
    WellFormed(item) && item.price.value == p && (isSnapshot ==> item.size.value > 0.0)
  }

  /** Item i is the last one that counts for price p. */
  ghost predicate Decides(isSnapshot: bool, items: seq<Item>, p: real, i: nat)
    requires i < |items|
  {
    Counts(isSnapshot, items[i], p) && forall j :: i < j < |items| ==> !Counts(isSnapshot, items[j], p)
  }

  /** The parsed items that a side takes in: all of a diff, the positive ones of a snapshot. */
  function Taken(isSnapshot: bool, items: seq<Item>): seq<PriceSize>
  {
    if isSnapshot then Filter(Parsed(items), IsPositive) else Parsed(items)
  }

  lemma TakenSnoc(isSnapshot: bool, items: seq<Item>, n: nat)
    requires |items| == n + 1
    ensures Taken(isSnapshot, items) ==
      if WellFormed(items[n]) && (isSnapshot ==> items[n].size.value > 0.0)
      then Taken(isSnapshot, items[..n]) + [PriceSize(items[n].price.value, items[n].size.value)]
      else Taken(isSnapshot, items[..n])
  {
    if WellFormed(items[n]) {
      var u := PriceSize(items[n].price.value, items[n].size.value);
      assert (Parsed(items[..n]) + [u])[..|Parsed(items[..n])|] == Parsed(items[..n]);
    }
  }

  lemma LastSizeSnoc(us: seq<PriceSize>, u: PriceSize, p: real)
    ensures LastSize(us + [u], p) == if u.price == p then Some(u.size) else LastSize(us, p)
  {
    assert (us + [u])[..|us|] == us;
  }

  /** The last counting item gives the size taken in for its price; without one there is none. */
  lemma {:induction false} TakenDecides(isSnapshot: bool, items: seq<Item>, p: real)
    ensures forall i :: 0 <= i < |items| && Decides(isSnapshot, items, p, i) ==>
              LastSize(Taken(isSnapshot, items), p) == Some(items[i].size.value)
    ensures LastSize(Taken(isSnapshot, items), p).Some?
      <==> exists i :: 0 <= i < |items| && Counts(isSnapshot, items[i], p)
  {
    if |items| == 0 {
    } else {
      hide Taken, LastSize;
      var n := |items| - 1;
      TakenDecides(isSnapshot, items[..n], p);
      TakenSnoc(isSnapshot, items, n);
      if WellFormed(items[n]) {
        LastSizeSnoc(Taken(isSnapshot, items[..n]), PriceSize(items[n].price.value, items[n].size.value), p);
      }
      CountsSnoc(isSnapshot, items, n, p);
    }
  }

  lemma CountsSnoc(isSnapshot: bool, items: seq<Item>, n: nat, p: real)
    requires |items| == n + 1
    ensures (exists i :: 0 <= i < |items| && Counts(isSnapshot, items[i], p))
       <==> Counts(isSnapshot, items[n], p) || exists i :: 0 <= i < n && Counts(isSnapshot, items[..n][i], p)
    ensures forall i :: 0 <= i < n ==>
              (Decides(isSnapshot, items, p, i)
               <==> Decides(isSnapshot, items[..n], p, i) && !Counts(isSnapshot, items[n], p))
    ensures Decides(isSnapshot, items, p, n) <==> Counts(isSnapshot, items[n], p)
  {
    hide Counts;
    assert forall i :: 0 <= i < n ==> items[..n][i] == items[i];
    if i :| 0 <= i < n && Counts(isSnapshot, items[..n][i], p) {
      assert Counts(isSnapshot, items[i], p);
    }
    if i :| 0 <= i < |items| && Counts(isSnapshot, items[i], p) {
      assert i < n ==> Counts(isSnapshot, items[..n][i], p);
    }
  }

  /** The last counting item for a price decides its level: of a diff, a positive size sets it and any other removes
      it; of a snapshot, the size sets it. */
  lemma MessageDecidesLevel(m: Levels, isSnapshot: bool, items: seq<Item>, time: real, p: real, i: nat)
    requires i < |items| && Decides(isSnapshot, items, p, i)
    ensures var r := ApplySide(m, SideOf(isSnapshot, items, time));
            && (p in r <==> items[i].size.value > 0.0)
            && (p in r ==> r[p] == Level(items[i].size.value, time))
  {
    hide Parsed, ApplyItems, SnapshotLevels, LastSize;
    TakenDecides(isSnapshot, items, p);
    DiffDecidedByLast(m, Parsed(items), time, p);
    SnapshotDecidedByLast(Parsed(items), time, p);
  }

  /** Without a counting item a diff leaves the level as it was and a snapshot leaves none. */
  lemma SilentMessage(m: Levels, isSnapshot: bool, items: seq<Item>, time: real, p: real)
    requires forall i :: 0 <= i < |items| ==> !Counts(isSnapshot, items[i], p)
    ensures var r := ApplySide(m, SideOf(isSnapshot, items, time));
            if isSnapshot then p !in r else (p in r <==> p in m) && (p in m ==> r[p] == m[p])
  {
    hide Parsed, ApplyItems, SnapshotLevels, LastSize;
    TakenDecides(isSnapshot, items, p);
    DiffDecidedByLast(m, Parsed(items), time, p);
    SnapshotDecidedByLast(Parsed(items), time, p);
  }

  /** Every price that the first part sets is set again by the second. */
  ghost predicate SetAgain(a: seq<Item>, b: seq<Item>)
  {
    forall i :: 0 <= i < |a| && WellFormed(a[i]) && a[i].size.value > 0.0 ==> Sets(b, a[i].price.value)
  }

  ghost predicate Sets(items: seq<Item>, p: real)
  {
    exists i :: 0 <= i < |items| && Counts(true, items[i], p)
  }

  lemma SetByPart(a: seq<Item>, b: seq<Item>, p: real)
    ensures Sets(a + b, p) <==> Sets(a, p) || Sets(b, p)
  {
    hide Counts;
    var all := a + b;
    if i :| 0 <= i < |a| && Counts(true, a[i], p) {
      assert Counts(true, all[i], p);
    }
    if i :| 0 <= i < |b| && Counts(true, b[i], p) {
      assert Counts(true, all[|a| + i], p);
    }
    if i :| 0 <= i < |all| && Counts(true, all[i], p) {
      assert if i < |a| then Counts(true, a[i], p) else Counts(true, b[i - |a|], p);
    }
  }

  /** The levels of a snapshot message. */
  lemma SnapshotMessage(items: seq<Item>, time: real, p: real)
    ensures var r := SnapshotLevels(Parsed(items), time);
            && (p in r <==> Sets(items, p))
            && (p in r ==> LastSize(Taken(true, items), p).Some?
                           && r[p] == Level(LastSize(Taken(true, items), p).value, time))
  {
    hide Parsed, SnapshotLevels, LastSize;
    TakenDecides(true, items, p);
    SnapshotDecidedByLast(Parsed(items), time, p);
  }

  lemma TakenConcat(a: seq<Item>, b: seq<Item>, p: real)
    ensures LastSize(Taken(true, a + b), p)
         == if LastSize(Taken(true, b), p).Some? then LastSize(Taken(true, b), p) else LastSize(Taken(true, a), p)
  {
    hide Parsed, LastSize;
    ParsedConcat(a, b);
    FilterConcat(Parsed(a), Parsed(b), IsPositive);
    LastSizeConcat(Taken(true, a), Taken(true, b), p);
  }

  /** One message leaves the same levels as its parts sent one after the other at the same time: always for diffs,
      and for snapshots exactly when the second part sets again every price the first one sets. */
  lemma SplitMessage(m: Levels, isSnapshot: bool, a: seq<Item>, b: seq<Item>, time: real)
    ensures ApplySide(m, SideOf(isSnapshot, a + b, time))
            == ApplySide(ApplySide(m, SideOf(isSnapshot, a, time)), SideOf(isSnapshot, b, time))
       <==> !isSnapshot || SetAgain(a, b)
  {
    if isSnapshot {
      SplitSnapshot(a, b, time);
    } else {
      ParsedConcat(a, b);
      DiffsCompose(m, Parsed(a), Parsed(b), time);
    }
  }

  lemma SplitSnapshot(a: seq<Item>, b: seq<Item>, time: real)
    ensures SnapshotLevels(Parsed(a + b), time) == SnapshotLevels(Parsed(b), time) <==> SetAgain(a, b)
  {
    hide SnapshotLevels, Parsed, Taken, LastSize, Sets, SetAgain;
    var whole, second := SnapshotLevels(Parsed(a + b), time), SnapshotLevels(Parsed(b), time);
    SetAgainMeans(a, b);
    if forall p :: Sets(a, p) ==> Sets(b, p) {
      forall p
        ensures p in whole <==> p in second
        ensures p in whole ==> whole[p] == second[p]
      {
        SplitAt(a, b, time, p);
      }
      assert whole == second;
    }
    if whole == second {
      forall p | Sets(a, p)
        ensures Sets(b, p)
      {
        SplitAt(a, b, time, p);
      }
    }
  }

  lemma SplitAt(a: seq<Item>, b: seq<Item>, time: real, p: real)
    ensures var whole, second := SnapshotLevels(Parsed(a + b), time), SnapshotLevels(Parsed(b), time);
            && (p in whole <==> Sets(a, p) || Sets(b, p))
            && (p in second <==> Sets(b, p))
            && (p in second ==> whole[p] == second[p])
  {
    hide SnapshotLevels, Parsed, Taken, LastSize, Sets;
    SnapshotMessage(a + b, time, p);
    SnapshotMessage(b, time, p);
    SetByPart(a, b, p);
    TakenConcat(a, b, p);
  }

  lemma SetAgainMeans(a: seq<Item>, b: seq<Item>)
    ensures SetAgain(a, b) <==> forall p :: Sets(a, p) ==> Sets(b, p)
  {
    if forall p :: Sets(a, p) ==> Sets(b, p) {
      forall i | 0 <= i < |a| && WellFormed(a[i]) && a[i].size.value > 0.0
        ensures Sets(b, a[i].price.value)
      {
        assert Counts(true, a[i], a[i].price.value);
        assert Sets(a, a[i].price.value);
      }
    }
    if SetAgain(a, b) {
      forall p | Sets(a, p)
        ensures Sets(b, p)
      {
        var i :| 0 <= i < |a| && Counts(true, a[i], p);
      }
    }
  }

  /** Every price of a message ends as the message says: decided by the last item that counts for it, or else left alone
      by a diff and gone after a snapshot. */
  ghost predicate SideFollows(isSnapshot: bool, items: seq<Item>, time: real, before: Levels, after: Levels)
  {
    && (forall p, i :: 0 <= i < |items| && Decides(isSnapshot, items, p, i) ==>
          (p in after <==> items[i].size.value > 0.0) && (p in after ==> after[p] == Level(items[i].size.value, time)))
    && (forall p :: !Counted(isSnapshot, items, p) ==>
          if isSnapshot then p !in after else (p in after <==> p in before) && (p in before ==> after[p] == before[p]))
  }

  ghost predicate Counted(isSnapshot: bool, items: seq<Item>, p: real)
  {
    exists i :: 0 <= i < |items| && Counts(isSnapshot, items[i], p)
  }

  lemma SideFollowsMessage(m: Levels, isSnapshot: bool, items: seq<Item>, time: real)
    ensures SideFollows(isSnapshot, items, time, m, ApplySide(m, SideOf(isSnapshot, items, time)))
  {
    hide ApplySide, SideOf;
    var after := ApplySide(m, SideOf(isSnapshot, items, time));
    forall p, i | 0 <= i < |items| && Decides(isSnapshot, items, p, i)
      ensures p in after <==> items[i].size.value > 0.0
      ensures p in after ==> after[p] == Level(items[i].size.value, time)
    {
      MessageDecidesLevel(m, isSnapshot, items, time, p, i);
    }
    forall p | !Counted(isSnapshot, items, p)
      ensures if isSnapshot then p !in after else (p in after <==> p in m) && (p in m ==> after[p] == m[p])
    {
      SilentMessage(m, isSnapshot, items, time, p);
    }
  }

  /** The time that levels get from a message: its own, in milliseconds, unless missing or 0; then the clock, which is
      read when the message is parsed if the field is missing and when the update is applied otherwise. */
  ghost predicate IsTime(f: Field, clock: real, applied: real, time: real)
    requires !f.NotANumber?
  {
    match f
    case Missing => time == if clock != 0.0 then clock else applied
    case Number(ms) => if ms != 0.0 then time * 1000.0 == ms else time == applied
  }

  lemma TimeOf(f: Field, clock: real, applied: real, time: real)
    requires !f.NotANumber? && IsTime(f, clock, applied, time)
    ensures UpdateTime(Some(Seconds(f, clock)), applied) == time
  {
  }

  /** A readable MEXC message, through parser and manager, leaves both sides of the symbol's book as it says: as a
      snapshot exactly when its channel names limit.depth, and as a diff otherwise. */
  lemma MexcMessageUpdatesBook(
    b: Book, message: MexcMessage, symbol: Symbol, clock: real, applied: real, snapshot: bool, time: real)
    requires BookOk(b) && message.data.Some? && MexcReadable(message)
    requires (snapshot <==> NamesLimitDepth(message.channel.text)) && IsTime(message.time, clock, applied, time)
    ensures var r := UpdatedBook(b, MexcUpdate(message, symbol, clock), applied);
            && SideFollows(snapshot, message.data.value.bids.items, time, b.bids.items, r.bids.items)
            && SideFollows(snapshot, message.data.value.asks.items, time, b.asks.items, r.asks.items)
  {
    hide ApplySide, SideFollows, SideOk, UpdatedSide, SideOf, BidUpdate, AskUpdate, UpdateTime, IsSnapshotChannel,
      NamesLimitDepth, IsTime, Seconds;
    var u := MexcUpdate(message, symbol, clock);
    SnapshotChannelExactly(message.channel.text);
    TimeOf(message.time, clock, applied, time);
    SidesOfMessage(message, symbol, clock, applied);
    UpdatedSideOk(b.bids, BidUpdate(u, applied));
    UpdatedSideOk(b.asks, AskUpdate(u, applied));
    SideFollowsMessage(b.bids.items, snapshot, message.data.value.bids.items, time);
    SideFollowsMessage(b.asks.items, snapshot, message.data.value.asks.items, time);
  }

  /** The two sides of a Gate.io update are those of its message. */
  lemma SidesOfResult(result: GateioResult, symbol: Symbol, clock: real, applied: real)
    requires GateioReadable(result)
    ensures var u := GateioUpdate(result, symbol, clock);
            var time := UpdateTime(Some(u.timestamp), applied);
            && !u.isSnapshot
            && BidUpdate(u, applied) == SideOf(false, result.bids.items, time)
            && AskUpdate(u, applied) == SideOf(false, result.asks.items, time)
  {
  }

  /** The same for a Gate.io result, which is never a snapshot. */
  lemma GateioMessageUpdatesBook(b: Book, result: GateioResult, symbol: Symbol, clock: real, applied: real, time: real)
    requires BookOk(b) && GateioReadable(result) && IsTime(result.eventTime, clock, applied, time)
    ensures var r := UpdatedBook(b, GateioUpdate(result, symbol, clock), applied);
            && SideFollows(false, result.bids.items, time, b.bids.items, r.bids.items)
            && SideFollows(false, result.asks.items, time, b.asks.items, r.asks.items)
  {
    hide ApplySide, SideFollows, SideOk, UpdatedSide, SideOf, BidUpdate, AskUpdate, UpdateTime, IsTime, Seconds;
    var u := GateioUpdate(result, symbol, clock);
    TimeOf(result.eventTime, clock, applied, time);
    SidesOfResult(result, symbol, clock, applied);
    UpdatedSideOk(b.bids, BidUpdate(u, applied));
    UpdatedSideOk(b.asks, AskUpdate(u, applied));
    SideFollowsMessage(b.bids.items, false, result.bids.items, time);
    SideFollowsMessage(b.asks.items, false, result.asks.items, time);
  }

  /** A snapshot split in two loses the first half: 1.0 survives in one message and not in two. */
  lemma SplitSnapshotLoses(m: Levels, time: real)
    ensures var (a, b) := ([Values(Some(1.0), Some(1.0))], [Values(Some(2.0), Some(1.0))]);
            && 1.0 in ApplySide(m, SideOf(true, a + b, time))
            && 1.0 !in ApplySide(ApplySide(m, SideOf(true, a, time)), SideOf(true, b, time))
  {
    hide Parsed, SnapshotLevels, LastSize, Taken;
    var a, b := [Values(Some(1.0), Some(1.0))], [Values(Some(2.0), Some(1.0))];
    assert Counts(true, a[0], 1.0);
    SnapshotMessage(a + b, time, 1.0);
    SnapshotMessage(b, time, 1.0);
    SetByPart(a, b, 1.0);
  }
}
