/** The pairwise arbitrage scan over the latest tickers of one symbol. */
module Arbitrage {
  import opened Sums

  datatype BookTicker = BookTicker(symbol: string, bidPrice: real, askPrice: real)

  /** An entry of the ticker cache; keys are "<exchange>_<symbol>". */
  datatype Cached = Cached(key: string, ticker: BookTicker)

  datatype Quote = Quote(exchange: string, ticker: BookTicker)

  datatype ArbitrageOpportunity = ArbitrageOpportunity(
    symbol: string, buyExchange: string, sellExchange: string, buyPrice: real, sellPrice: real, priceDifference: real,
    profitPercentage: real, timestamp: real)

  datatype ScanError = ZeroDivisionError

  /** The part of a cache key before the first underscore. */
  function Prefix(key: string): (p: string)
    ensures |p| <= |key| && p == key[..|p|] && '_' !in p && (|p| < |key| ==> key[|p|] == '_')
  {
    if |key| == 0 || key[0] == '_' then [] else [key[0]] + Prefix(key[1..])
  }

  predicate Distinctly(quotes: seq<Quote>)
  {
    forall i, j :: 0 <= i < j < |quotes| ==> quotes[i].exchange != quotes[j].exchange
  }

  /** Sets the quote of an exchange: in its place if it has one, at the end otherwise. */
  function Put(quotes: seq<Quote>, exchange: string, ticker: BookTicker): (r: seq<Quote>)
    ensures Distinctly(quotes) ==> Distinctly(r)
    ensures forall q :: q in r ==> q == Quote(exchange, ticker) || q in quotes
    ensures Quote(exchange, ticker) in r
    ensures forall q :: q in quotes && q.exchange != exchange ==> q in r
  {
    if |quotes| == 0 then [Quote(exchange, ticker)]
    else if quotes[0].exchange == exchange then [Quote(exchange, ticker)] + quotes[1..]
    else
      var rest := Put(quotes[1..], exchange, ticker);
      [quotes[0]] + rest
  }

  /** The tickers of one symbol, by exchange prefix, in order of first appearance. */
  function SymbolTickers(cache: seq<Cached>, symbol: string): (quotes: seq<Quote>)
    ensures Distinctly(quotes)
  {
    if |cache| == 0 then []
    else
      var n := |cache| - 1;
      var before := SymbolTickers(cache[..n], symbol);
      if cache[n].ticker.symbol == symbol then Put(before, Prefix(cache[n].key), cache[n].ticker) else before
  }

  /** Entry i is the last one of its symbol and exchange prefix. */
  ghost predicate IsLatest(cache: seq<Cached>, symbol: string, i: nat, q: Quote)
    requires i < |cache|
  {
    && cache[i].ticker == q.ticker && q.ticker.symbol == symbol && Prefix(cache[i].key) == q.exchange
    && forall j :: i < j < |cache| && cache[j].ticker.symbol == symbol ==> Prefix(cache[j].key) != q.exchange
  }

  /** Some entry is the last one of its symbol and prefix, and q is its quote. */
  ghost predicate SomeLatest(cache: seq<Cached>, symbol: string, q: Quote)
  {
    exists i :: 0 <= i < |cache| && IsLatest(cache, symbol, i, q)
  }

  lemma LatestSnoc(cache: seq<Cached>, symbol: string, q: Quote)
    requires |cache| > 0
    ensures var n := |cache| - 1;
            SomeLatest(cache, symbol, q) <==>
              if cache[n].ticker.symbol == symbol && Prefix(cache[n].key) == q.exchange then cache[n].ticker == q.ticker
              else SomeLatest(cache[..n], symbol, q)
  {
    hide Prefix;
    var n := |cache| - 1;
    assert IsLatest(cache, symbol, n, q) <==>
      cache[n].ticker == q.ticker && q.ticker.symbol == symbol && Prefix(cache[n].key) == q.exchange;
    if cache[n].ticker.symbol == symbol && Prefix(cache[n].key) == q.exchange {
      assert forall i :: 0 <= i < n ==> !IsLatest(cache, symbol, i, q);
    } else {
      forall i | 0 <= i < n
        ensures IsLatest(cache, symbol, i, q) <==> IsLatest(cache[..n], symbol, i, q)
      {
        assert forall j :: i < j < n ==> cache[..n][j] == cache[j];
      }
    }
  }

  /** The scan sees, per exchange prefix, exactly the ticker of the last cache entry with that prefix. */
  lemma {:induction false} LatestPerPrefix(cache: seq<Cached>, symbol: string, q: Quote)
    ensures q in SymbolTickers(cache, symbol) <==> SomeLatest(cache, symbol, q)
  {
    if |cache| == 0 {
    } else {
      hide SomeLatest, Prefix, Put;
      var n := |cache| - 1;
      LatestPerPrefix(cache[..n], symbol, q);
      LatestSnoc(cache, symbol, q);
      if cache[n].ticker.symbol == symbol {
        PutMember(SymbolTickers(cache[..n], symbol), Prefix(cache[n].key), cache[n].ticker, q);
      }
    }
  }

  lemma PutMember(quotes: seq<Quote>, exchange: string, ticker: BookTicker, q: Quote)
    requires Distinctly(quotes)
    ensures q in Put(quotes, exchange, ticker) <==>
      if q.exchange == exchange then q.ticker == ticker else q in quotes
  {
    if q.exchange == exchange && q in Put(quotes, exchange, ticker) {
      OnePerExchange(Put(quotes, exchange, ticker), q, Quote(exchange, ticker));
    }
  }

  lemma OnePerExchange(quotes: seq<Quote>, q: Quote, r: Quote)
    requires Distinctly(quotes) && r in quotes && q.exchange == r.exchange
    ensures q in quotes <==> q == r
  {
  }

  /** A key "<base>_<market>_<symbol>" has the base exchange as its prefix, whatever the market. */
  lemma {:induction false} MarketKeyPrefix(base: string, market: string, symbol: string)
    requires '_' !in base
    ensures Prefix(base + "_" + market + "_" + symbol) == base
  {
    PrefixStops(base, market + "_" + symbol);
    assert base + "_" + (market + "_" + symbol) == base + "_" + market + "_" + symbol;
  }

  lemma {:induction false} PrefixStops(base: string, rest: string)
    requires '_' !in base
    ensures Prefix(base + "_" + rest) == base
  {
    if |base| == 0 {
      assert base + "_" + rest == "_" + rest;
    } else {
      PrefixStops(base[1..], rest);
      assert (base + "_" + rest)[1..] == base[1..] + "_" + rest;
    }
  }

  /** The spot and the futures market of one exchange. */
  lemma SpotAndFuturesShare(symbol: string)
    ensures Prefix("gateio_spot_" + symbol) == Prefix("gateio_futures_" + symbol) == "gateio"
  {
    MarketKeyPrefix("gateio", "spot", symbol);
    MarketKeyPrefix("gateio", "futures", symbol);
    assert "gateio" + "_" + "spot" + "_" == "gateio_spot_";
    assert "gateio" + "_" + "futures" + "_" == "gateio_futures_";
  }

  /** The quotes with the ticker of exchange e replaced. */
  function Swap(q: seq<Quote>, e: string, u: BookTicker): (r: seq<Quote>)
    ensures |r| == |q|
  {
    if |q| == 0 then []
    else [if q[0].exchange == e then Quote(e, u) else q[0]] + Swap(q[1..], e, u)
  }

  lemma DistinctTail(q: seq<Quote>)
    requires Distinctly(q) && |q| > 0
    ensures Distinctly(q[1..]) && forall i :: 0 <= i < |q[1..]| ==> q[1..][i].exchange != q[0].exchange
  {
    assert forall i :: 0 <= i < |q[1..]| ==> q[1..][i] == q[i + 1];
  }

  lemma {:induction false} SwapNothing(q: seq<Quote>, e: string, u: BookTicker)
    requires forall i :: 0 <= i < |q| ==> q[i].exchange != e
    ensures Swap(q, e, u) == q
  {
    if |q| == 0 {
    } else {
      assert forall i :: 0 <= i < |q[1..]| ==> q[1..][i] == q[i + 1];
      SwapNothing(q[1..], e, u);
    }
  }

  /** Replacing what was just put is putting the other ticker. */
  lemma {:induction false} SwapPut(q: seq<Quote>, e: string, t: BookTicker, u: BookTicker)
    requires Distinctly(q)
    ensures Swap(Put(q, e, t), e, u) == Put(q, e, u)
  {
    if |q| == 0 {
      assert [Quote(e, t)][1..] == [];
    } else {
      DistinctTail(q);
      if q[0].exchange == e {
        SwapNothing(q[1..], e, u);
        assert Put(q, e, t)[1..] == q[1..];
      } else {
        SwapPut(q[1..], e, t, u);
        assert Put(q, e, t)[1..] == Put(q[1..], e, t);
      }
    }
  }

  /** Replacing at e and putting at another exchange do not disturb each other. */
  lemma {:induction false} SwapPutElsewhere(q: seq<Quote>, e: string, u: BookTicker, x: string, v: BookTicker)
    requires x != e
    ensures Put(Swap(q, e, u), x, v) == Swap(Put(q, x, v), e, u)
  {
    if |q| == 0 {
      assert [Quote(x, v)][1..] == [];
    } else {
      assert Swap(q, e, u)[1..] == Swap(q[1..], e, u);
      if q[0].exchange == x {
        assert Put(q, x, v)[1..] == q[1..];
      } else {
        SwapPutElsewhere(q[1..], e, u, x, v);
        assert Put(q, x, v)[1..] == Put(q[1..], x, v);
      }
    }
  }

  /** Putting at e forgets what was there. */
  lemma {:induction false} PutSwapped(q: seq<Quote>, e: string, u: BookTicker, v: BookTicker)
    requires Distinctly(q)
    ensures Put(Swap(q, e, u), e, v) == Put(q, e, v)
  {
    if |q| == 0 {
    } else {
      DistinctTail(q);
      assert Swap(q, e, u)[1..] == Swap(q[1..], e, u);
      if q[0].exchange == e {
        SwapNothing(q[1..], e, u);
      } else {
        PutSwapped(q[1..], e, u, v);
      }
    }
  }

  lemma {:induction false} SwapChanges(q: seq<Quote>, e: string, t: BookTicker, u: BookTicker)
    requires Quote(e, t) in q && t != u
    ensures Swap(q, e, u) != q
  {
    if q[0] == Quote(e, t) {
    } else {
      assert q == [q[0]] + q[1..];
      SwapChanges(q[1..], e, t, u);
      assert Swap(q, e, u)[1..] == Swap(q[1..], e, u);
    }
  }

  /** Some later entry of the symbol has the prefix of entry i. */
  ghost predicate Overwritten(cache: seq<Cached>, symbol: string, i: nat)
    requires i < |cache|
  {
    exists j :: i < j < |cache| && cache[j].ticker.symbol == symbol && Prefix(cache[j].key) == Prefix(cache[i].key)
  }

  /** What the scan sees when entry i carries another ticker. */
  lemma {:induction false} ChangedEntry(cache: seq<Cached>, symbol: string, i: nat, u: BookTicker)
    requires i < |cache| && cache[i].ticker.symbol == symbol && u.symbol == symbol
    ensures var q, r := SymbolTickers(cache, symbol), SymbolTickers(cache[i := Cached(cache[i].key, u)], symbol);
            var e := Prefix(cache[i].key);
            if Overwritten(cache, symbol, i) then q == r else r == Swap(q, e, u) && Quote(e, cache[i].ticker) in q
  {
    hide Prefix, Put, Swap, Overwritten;
    var n := |cache| - 1;
    var changed := cache[i := Cached(cache[i].key, u)];
    if i == n {
      LastIsNotOverwritten(cache, symbol);
      assert changed[..n] == cache[..n];
      SwapPut(SymbolTickers(cache[..n], symbol), Prefix(cache[i].key), cache[i].ticker, u);
    } else {
      assert changed[..n] == cache[..n][i := Cached(cache[i].key, u)];
      ChangedEntry(cache[..n], symbol, i, u);
      OverwrittenSnoc(cache, symbol, i);
      var before := SymbolTickers(cache[..n], symbol);
      if cache[n].ticker.symbol == symbol && !Overwritten(cache[..n], symbol, i) {
        if Prefix(cache[n].key) == Prefix(cache[i].key) {
          PutSwapped(before, Prefix(cache[i].key), u, cache[n].ticker);
        } else {
          SwapPutElsewhere(before, Prefix(cache[i].key), u, Prefix(cache[n].key), cache[n].ticker);
        }
      }
    }
  }

  lemma LastIsNotOverwritten(cache: seq<Cached>, symbol: string)
    requires |cache| > 0
    ensures !Overwritten(cache, symbol, |cache| - 1)
  {
  }

  lemma OverwrittenSnoc(cache: seq<Cached>, symbol: string, i: nat)
    requires i < |cache| - 1
    ensures var n := |cache| - 1;
            Overwritten(cache, symbol, i) <==>
              Overwritten(cache[..n], symbol, i)
              || (cache[n].ticker.symbol == symbol && Prefix(cache[n].key) == Prefix(cache[i].key))
  {
    hide Prefix;
    var n := |cache| - 1;
    if Overwritten(cache[..n], symbol, i) {
      var j :| i < j < n && cache[..n][j].ticker.symbol == symbol && Prefix(cache[..n][j].key) == Prefix(cache[i].key);
      assert cache[j] == cache[..n][j];
    }
    if Overwritten(cache, symbol, i) {
      var j :| i < j < |cache| && cache[j].ticker.symbol == symbol && Prefix(cache[j].key) == Prefix(cache[i].key);
      assert j < n ==> cache[..n][j] == cache[j];
    }
  }

  /** A cached market takes part in the scan exactly when no later entry of its symbol has its prefix: otherwise no
      ticker of it makes any difference. */
  lemma MarketsCollapse(cache: seq<Cached>, symbol: string, i: nat, u: BookTicker)
    requires i < |cache| && cache[i].ticker.symbol == symbol && u.symbol == symbol && u != cache[i].ticker
    ensures SymbolTickers(cache[i := Cached(cache[i].key, u)], symbol) != SymbolTickers(cache, symbol)
       <==> !Overwritten(cache, symbol, i)
  {
    hide SymbolTickers, Prefix, Swap, Overwritten;
    ChangedEntry(cache, symbol, i, u);
    if !Overwritten(cache, symbol, i) {
      SwapChanges(SymbolTickers(cache, symbol), Prefix(cache[i].key), cache[i].ticker, u);
    }
  }

  /** Buying at a and selling at b: worth reporting when the margin over the ask exceeds the threshold. */
  predicate Profitable(a: Quote, b: Quote, threshold: real)
  {
    && b.ticker.bidPrice > a.ticker.askPrice && a.ticker.askPrice != 0.0
    && ((b.ticker.bidPrice - a.ticker.askPrice) / a.ticker.askPrice) * 100.0 > threshold * 100.0
  }

  function OpportunityOf(symbol: string, a: Quote, b: Quote, now: real): ArbitrageOpportunity
    requires a.ticker.askPrice != 0.0
  {
    var difference := b.ticker.bidPrice - a.ticker.askPrice;
    ArbitrageOpportunity(symbol, a.exchange, b.exchange, a.ticker.askPrice, b.ticker.bidPrice, difference,
                         difference / a.ticker.askPrice * 100.0, now)
  }

  /** What a scan depends on besides the quotes. */
  datatype Context = Context(symbol: string, threshold: real, now: real)

  function Direction(a: Quote, b: Quote, c: Context): seq<ArbitrageOpportunity>
  {
    if Profitable(a, b, c.threshold) then [OpportunityOf(c.symbol, a, b, c.now)] else []
  }

  /** Pairs (i, k) with i < k < j, both directions each. */
  function RowOpportunities(quotes: seq<Quote>, i: nat, j: nat, c: Context): seq<ArbitrageOpportunity>
    requires i < |quotes| && j <= |quotes|
  {
    if j <= i + 1 then []
    else
      RowOpportunities(quotes, i, j - 1, c)
      + Direction(quotes[i], quotes[j - 1], c) + Direction(quotes[j - 1], quotes[i], c)
  }

  function Opportunities(quotes: seq<Quote>, n: nat, c: Context): seq<ArbitrageOpportunity>
    requires n <= |quotes|
  {
    if n == 0 then [] else Opportunities(quotes, n - 1, c) + RowOpportunities(quotes, n - 1, |quotes|, c)
  }

  /** A bid above a zero ask: computing the margin divides by zero. */
  predicate ZeroAsk(a: Quote, b: Quote)
  {
    b.ticker.bidPrice > a.ticker.askPrice && a.ticker.askPrice == 0.0
  }

  ghost predicate DividesByZero(quotes: seq<Quote>)
  {
    exists i, j :: 0 <= i < |quotes| && 0 <= j < |quotes| && i != j && ZeroAsk(quotes[i], quotes[j])
  }

  /** One direction of one pair. */
  method CheckDirection(a: Quote, b: Quote, c: Context) returns (r: Result<seq<ArbitrageOpportunity>, ScanError>)
    ensures r.Failure? <==> ZeroAsk(a, b)
    ensures r.Success? ==> r.value == Direction(a, b, c)
  {
    if b.ticker.bidPrice > a.ticker.askPrice {
      if a.ticker.askPrice == 0.0 {
        return Failure(ZeroDivisionError);
      }
      var difference := b.ticker.bidPrice - a.ticker.askPrice;
      var profit := difference / a.ticker.askPrice * 100.0;
      if profit > c.threshold * 100.0 {
        return Success([ArbitrageOpportunity(c.symbol, a.exchange, b.exchange, a.ticker.askPrice, b.ticker.bidPrice,
                                             difference, profit, c.now)]);
      }
    }
    return Success([]);
  }

  /** Some pair of row i divides by zero. */
  ghost predicate RowDividesByZero(quotes: seq<Quote>, i: nat, j: nat)
    requires i < |quotes| && j <= |quotes|
  {
    exists b :: i < b < j && (ZeroAsk(quotes[i], quotes[b]) || ZeroAsk(quotes[b], quotes[i]))
  }

  /** The inner loop over the partners of quote i. */
  method ScanRow(quotes: seq<Quote>, i: nat, c: Context) returns (r: Result<seq<ArbitrageOpportunity>, ScanError>)
    requires i < |quotes|
    ensures r.Failure? <==> RowDividesByZero(quotes, i, |quotes|)
    ensures r.Success? ==> r.value == RowOpportunities(quotes, i, |quotes|, c)
  {
    hide Profitable, ZeroAsk, Direction;
    var opportunities := [];
    for j := i + 1 to |quotes|
      invariant opportunities == RowOpportunities(quotes, i, j, c)
      invariant !RowDividesByZero(quotes, i, j)
    {
      var there := CheckDirection(quotes[i], quotes[j], c);
      if there.Failure? {
        return Failure(there.error);
      }
      var back := CheckDirection(quotes[j], quotes[i], c);
      if back.Failure? {
        return Failure(back.error);
      }
      opportunities := opportunities + there.value + back.value;
    }
    return Success(opportunities);
  }

  /** The nested scan over all pairs; a division by zero abandons it. */
  method Scan(quotes: seq<Quote>, c: Context) returns (r: Result<seq<ArbitrageOpportunity>, ScanError>)
    ensures r.Failure? <==> DividesByZero(quotes)
    ensures r.Success? ==> r.value == Opportunities(quotes, |quotes|, c)
  {
    hide RowOpportunities, RowDividesByZero, DividesByZero;
    var opportunities := [];
    for i := 0 to |quotes|
      invariant opportunities == Opportunities(quotes, i, c)
      invariant forall a :: 0 <= a < i ==> !RowDividesByZero(quotes, a, |quotes|)
    {
      var row := ScanRow(quotes, i, c);
      if row.Failure? {
        RowsDivide(quotes);
        return Failure(row.error);
      }
      opportunities := opportunities + row.value;
    }
    RowsDivide(quotes);
    return Success(opportunities);
  }

  lemma RowsDivide(quotes: seq<Quote>)
    ensures DividesByZero(quotes) <==> exists i :: 0 <= i < |quotes| && RowDividesByZero(quotes, i, |quotes|)
  {
    hide ZeroAsk;
    if i, j :| 0 <= i < |quotes| && 0 <= j < |quotes| && i != j && ZeroAsk(quotes[i], quotes[j]) {
      assert RowDividesByZero(quotes, if i < j then i else j, |quotes|);
    }
  }

  // What a scan reports.

  ghost predicate FromPair(quotes: seq<Quote>, a: nat, b: nat, c: Context, o: ArbitrageOpportunity)
    requires a < |quotes| && b < |quotes|
  {
    Profitable(quotes[a], quotes[b], c.threshold) && o == OpportunityOf(c.symbol, quotes[a], quotes[b], c.now)
  }

  /** Every opportunity of a row comes from a profitable direction of one of its pairs. */
  lemma {:induction false} RowSource(quotes: seq<Quote>, i: nat, j: nat, c: Context, o: ArbitrageOpportunity)
    returns (a: nat, b: nat)
    requires i < j <= |quotes| && o in RowOpportunities(quotes, i, j, c)
    ensures a < j && b < j && ((a == i && i < b) || (b == i && i < a)) && FromPair(quotes, a, b, c, o)
  {
    var there, back := Direction(quotes[i], quotes[j - 1], c), Direction(quotes[j - 1], quotes[i], c);
    if o in there {
      a, b := i, j - 1;
    } else if o in back {
      a, b := j - 1, i;
    } else {
      assert o in RowOpportunities(quotes, i, j - 1, c);
      a, b := RowSource(quotes, i, j - 1, c, o);
    }
  }

  /** Every profitable direction of a pair of the row is in it. */
  lemma {:induction false} RowReports(quotes: seq<Quote>, i: nat, j: nat, c: Context, k: nat, o: ArbitrageOpportunity)
    requires i < k < j <= |quotes| && (FromPair(quotes, i, k, c, o) || FromPair(quotes, k, i, c, o))
    ensures o in RowOpportunities(quotes, i, j, c)
  {
    if k < j - 1 {
      RowReports(quotes, i, j - 1, c, k, o);
    } else {
      assert o in Direction(quotes[i], quotes[k], c) || o in Direction(quotes[k], quotes[i], c);
    }
  }

  /** Every opportunity of the first n rows comes from a profitable direction of one of their pairs. */
  lemma {:induction false} ScanSource(quotes: seq<Quote>, n: nat, c: Context, o: ArbitrageOpportunity)
    returns (a: nat, b: nat)
    requires n <= |quotes| && o in Opportunities(quotes, n, c)
    ensures a < |quotes| && b < |quotes| && a != b && (a < n || b < n) && FromPair(quotes, a, b, c, o)
  {
    hide RowOpportunities, FromPair;
    if o in RowOpportunities(quotes, n - 1, |quotes|, c) {
      a, b := RowSource(quotes, n - 1, |quotes|, c, o);
    } else {
      a, b := ScanSource(quotes, n - 1, c, o);
    }
  }

  /** Every profitable direction of a pair whose smaller index is below n is in the first n rows. */
  lemma {:induction false} ScanReports(quotes: seq<Quote>, n: nat, c: Context, a: nat, b: nat, o: ArbitrageOpportunity)
    requires n <= |quotes| && a < |quotes| && b < |quotes| && a != b && (a < n || b < n)
    requires FromPair(quotes, a, b, c, o)
    ensures o in Opportunities(quotes, n, c)
  {
    hide RowOpportunities, FromPair;
    if a < n - 1 || b < n - 1 {
      ScanReports(quotes, n - 1, c, a, b, o);
    } else if a == n - 1 {
      RowReports(quotes, a, |quotes|, c, b, o);
    } else {
      RowReports(quotes, b, |quotes|, c, a, o);
    }
  }

  ghost predicate Reports(os: seq<ArbitrageOpportunity>, buy: string, sell: string)
  {
    exists o :: o in os && o.buyExchange == buy && o.sellExchange == sell
  }

  /** An ordered pair of exchanges is reported exactly when the bid of the second exceeds
      (1 + threshold) times the ask of the first, and exceeds that ask. */
  lemma ReportedExactly(quotes: seq<Quote>, a: nat, b: nat, c: Context)
    requires Distinctly(quotes) && a < |quotes| && b < |quotes| && a != b && quotes[a].ticker.askPrice > 0.0
    ensures Reports(Opportunities(quotes, |quotes|, c), quotes[a].exchange, quotes[b].exchange)
      <==> quotes[b].ticker.bidPrice > quotes[a].ticker.askPrice
           && quotes[b].ticker.bidPrice > (1.0 + c.threshold) * quotes[a].ticker.askPrice
  {
    hide Opportunities, Profitable, Distinctly, FromPair, OpportunityOf;
    var os := Opportunities(quotes, |quotes|, c);
    ProfitableMeans(quotes[a], quotes[b], c.threshold);
    if Profitable(quotes[a], quotes[b], c.threshold) {
      var o := OpportunityOf(c.symbol, quotes[a], quotes[b], c.now);
      PairOf(quotes, a, b, c, o);
      ScanReports(quotes, |quotes|, c, a, b, o);
      assert Reports(os, quotes[a].exchange, quotes[b].exchange);
    }
    if Reports(os, quotes[a].exchange, quotes[b].exchange) {
      var o :| o in os && o.buyExchange == quotes[a].exchange && o.sellExchange == quotes[b].exchange;
      var x, y := ScanSource(quotes, |quotes|, c, o);
      NamesOf(quotes, x, y, c, o);
      PairIsProfitable(quotes, x, y, c, o);
      SameExchange(quotes, a, x);
      SameExchange(quotes, b, y);
    }
  }

  lemma PairOf(quotes: seq<Quote>, a: nat, b: nat, c: Context, o: ArbitrageOpportunity)
    requires a < |quotes| && b < |quotes| && Profitable(quotes[a], quotes[b], c.threshold)
    requires o == OpportunityOf(c.symbol, quotes[a], quotes[b], c.now)
    ensures FromPair(quotes, a, b, c, o)
    ensures o.buyExchange == quotes[a].exchange && o.sellExchange == quotes[b].exchange
  {
  }

  lemma NamesOf(quotes: seq<Quote>, a: nat, b: nat, c: Context, o: ArbitrageOpportunity)
    requires a < |quotes| && b < |quotes| && FromPair(quotes, a, b, c, o)
    ensures o.buyExchange == quotes[a].exchange && o.sellExchange == quotes[b].exchange
  {
  }

  lemma PairIsProfitable(quotes: seq<Quote>, a: nat, b: nat, c: Context, o: ArbitrageOpportunity)
    requires a < |quotes| && b < |quotes| && FromPair(quotes, a, b, c, o)
    ensures Profitable(quotes[a], quotes[b], c.threshold)
  {
  }

  lemma SameExchange(quotes: seq<Quote>, a: nat, x: nat)
    requires Distinctly(quotes) && a < |quotes| && x < |quotes| && quotes[a].exchange == quotes[x].exchange
    ensures a == x
  {
  }

  lemma ProfitableMeans(a: Quote, b: Quote, threshold: real)
    requires a.ticker.askPrice > 0.0
    ensures Profitable(a, b, threshold) <==>
      b.ticker.bidPrice > a.ticker.askPrice && b.ticker.bidPrice > (1.0 + threshold) * a.ticker.askPrice
  {
    MarginIsRelative(b.ticker.bidPrice, a.ticker.askPrice, threshold);
  }

  lemma MarginIsRelative(bid: real, ask: real, threshold: real)
    requires ask > 0.0
    ensures (bid - ask) / ask * 100.0 > threshold * 100.0 <==> bid > (1.0 + threshold) * ask
  {
    var m := (bid - ask) / ask;
    assert m * ask == bid - ask;
    if m > threshold {
      Times(m - threshold, ask);
    } else if m < threshold {
      Times(threshold - m, ask);
    }
  }

  lemma Times(x: real, y: real)
    requires x > 0.0 && y > 0.0
    ensures x * y > 0.0
  {
  }

  ghost predicate PairsOnce(os: seq<ArbitrageOpportunity>)
  {
    forall i, j :: 0 <= i < j < |os| ==>
      os[i].buyExchange != os[j].buyExchange || os[i].sellExchange != os[j].sellExchange
  }

  lemma PairsOnceConcat(os: seq<ArbitrageOpportunity>, ps: seq<ArbitrageOpportunity>)
    requires PairsOnce(os) && PairsOnce(ps)
    requires forall o, p :: o in os && p in ps ==> o.buyExchange != p.buyExchange || o.sellExchange != p.sellExchange
    ensures PairsOnce(os + ps)
  {
    assert forall k :: 0 <= k < |os| ==> os[k] in os;
    assert forall k :: 0 <= k < |ps| ==> ps[k] in ps;
  }

  lemma DirectionNames(a: Quote, b: Quote, c: Context)
    ensures forall o :: o in Direction(a, b, c) ==> o.buyExchange == a.exchange && o.sellExchange == b.exchange
    ensures PairsOnce(Direction(a, b, c))
  {
  }

  /** No opportunity of a row before column j names exchange j. */
  lemma RowNames(quotes: seq<Quote>, i: nat, j: nat, c: Context)
    requires Distinctly(quotes) && i < j < |quotes|
    ensures forall o :: o in RowOpportunities(quotes, i, j, c) ==>
              o.buyExchange != quotes[j].exchange && o.sellExchange != quotes[j].exchange
  {
    hide RowOpportunities, FromPair;
    forall o | o in RowOpportunities(quotes, i, j, c)
      ensures o.buyExchange != quotes[j].exchange && o.sellExchange != quotes[j].exchange
    {
      var a, b := RowSource(quotes, i, j, c, o);
      NamesOf(quotes, a, b, c, o);
    }
  }

  lemma {:induction false} RowPairsOnce(quotes: seq<Quote>, i: nat, j: nat, c: Context)
    requires Distinctly(quotes) && i < j <= |quotes|
    ensures PairsOnce(RowOpportunities(quotes, i, j, c))
  {
    if j == i + 1 {
    } else {
      hide PairsOnce, Direction;
      var before := RowOpportunities(quotes, i, j - 1, c);
      var there, back := Direction(quotes[i], quotes[j - 1], c), Direction(quotes[j - 1], quotes[i], c);
      RowPairsOnce(quotes, i, j - 1, c);
      RowNames(quotes, i, j - 1, c);
      DirectionNames(quotes[i], quotes[j - 1], c);
      DirectionNames(quotes[j - 1], quotes[i], c);
      assert quotes[i].exchange != quotes[j - 1].exchange;
      AddPair(before, there, back, quotes[i].exchange, quotes[j - 1].exchange);
    }
  }

  /** Both directions of a new pair, after opportunities that do not name its second exchange. */
  lemma AddPair(
    before: seq<ArbitrageOpportunity>, there: seq<ArbitrageOpportunity>, back: seq<ArbitrageOpportunity>, e: string,
    f: string)
    requires PairsOnce(before) && PairsOnce(there) && PairsOnce(back) && e != f
    requires forall o :: o in before ==> o.buyExchange != f && o.sellExchange != f
    requires forall o :: o in there ==> o.buyExchange == e && o.sellExchange == f
    requires forall o :: o in back ==> o.buyExchange == f && o.sellExchange == e
    ensures PairsOnce(before + there + back)
  {
    hide PairsOnce;
    PairsOnceConcat(before, there);
    assert forall o :: o in before + there ==> o in before || o in there;
    PairsOnceConcat(before + there, back);
  }

  /** No ordered pair of exchanges is reported twice. */
  lemma {:induction false} ReportedOnce(quotes: seq<Quote>, n: nat, c: Context)
    requires Distinctly(quotes) && n <= |quotes|
    ensures PairsOnce(Opportunities(quotes, n, c))
  {
    if n == 0 {
    } else {
      hide RowOpportunities, PairsOnce, Distinctly;
      ReportedOnce(quotes, n - 1, c);
      RowAdded(quotes, n, c);
    }
  }

  lemma RowAdded(quotes: seq<Quote>, n: nat, c: Context)
    requires Distinctly(quotes) && 0 < n <= |quotes| && PairsOnce(Opportunities(quotes, n - 1, c))
    ensures PairsOnce(Opportunities(quotes, n - 1, c) + RowOpportunities(quotes, n - 1, |quotes|, c))
  {
    hide *;
    var before, row := Opportunities(quotes, n - 1, c), RowOpportunities(quotes, n - 1, |quotes|, c);
    RowPairsOnce(quotes, n - 1, |quotes|, c);
    forall o, p | o in before && p in row
      ensures o.buyExchange != p.buyExchange || o.sellExchange != p.sellExchange
    {
      RowsDiffer(quotes, n, c, o, p);
    }
    PairsOnceConcat(before, row);
  }

  lemma RowsDiffer(quotes: seq<Quote>, n: nat, c: Context, o: ArbitrageOpportunity, p: ArbitrageOpportunity)
    requires Distinctly(quotes) && 0 < n <= |quotes|
    requires o in Opportunities(quotes, n - 1, c) && p in RowOpportunities(quotes, n - 1, |quotes|, c)
    ensures o.buyExchange != p.buyExchange || o.sellExchange != p.sellExchange
  {
    hide Opportunities, RowOpportunities, FromPair;
    var a, b := ScanSource(quotes, n - 1, c, o);
    var x, y := RowSource(quotes, n - 1, |quotes|, c, p);
    NamesOf(quotes, a, b, c, o);
    NamesOf(quotes, x, y, c, p);
    if o.buyExchange == p.buyExchange && o.sellExchange == p.sellExchange {
      SameExchange(quotes, a, x);
      SameExchange(quotes, b, y);
      assert false;
    }
  }

  /** What an opportunity says when it is to buy at quote a and sell at quote b. */
  ghost predicate BuysAndSells(o: ArbitrageOpportunity, a: Quote, b: Quote, c: Context)
  {
    && o.symbol == c.symbol && o.timestamp == c.now
    && o.buyExchange == a.exchange && o.buyPrice == a.ticker.askPrice
    && o.sellExchange == b.exchange && o.sellPrice == b.ticker.bidPrice
    && o.sellPrice > o.buyPrice && o.priceDifference == o.sellPrice - o.buyPrice
    && o.profitPercentage * o.buyPrice == 100.0 * o.priceDifference
    && o.profitPercentage > 100.0 * c.threshold
  }

  /** Every reported opportunity buys at the ask of one quote and sells at the bid of another. */
  lemma ReportedContents(quotes: seq<Quote>, c: Context, o: ArbitrageOpportunity) returns (a: nat, b: nat)
    requires o in Opportunities(quotes, |quotes|, c)
    ensures a < |quotes| && b < |quotes| && a != b && BuysAndSells(o, quotes[a], quotes[b], c)
  {
    hide Opportunities, BuysAndSells;
    a, b := ScanSource(quotes, |quotes|, c, o);
    PairContents(quotes, a, b, c, o);
  }

  lemma PairContents(quotes: seq<Quote>, a: nat, b: nat, c: Context, o: ArbitrageOpportunity)
    requires a < |quotes| && b < |quotes| && FromPair(quotes, a, b, c, o)
    ensures BuysAndSells(o, quotes[a], quotes[b], c)
  {
    Percentage(quotes[b].ticker.bidPrice - quotes[a].ticker.askPrice, quotes[a].ticker.askPrice);
  }

  lemma Percentage(difference: real, price: real)
    requires price != 0.0
    ensures (difference / price * 100.0) * price == 100.0 * difference
  {
    var q := difference / price;
    assert q * price == difference;
  }

  ghost predicate Uncrossed(quotes: seq<Quote>)
  {
    forall i :: 0 <= i < |quotes| ==> 0.0 < quotes[i].ticker.bidPrice <= quotes[i].ticker.askPrice
  }

  /** With uncrossed books at most one direction of a pair of exchanges is reported. */
  lemma OneDirectionAtMost(quotes: seq<Quote>, c: Context, buy: string, sell: string)
    requires Distinctly(quotes) && Uncrossed(quotes)
    ensures var os := Opportunities(quotes, |quotes|, c);
            !(Reports(os, buy, sell) && Reports(os, sell, buy))
  {
    hide Opportunities;
    var os := Opportunities(quotes, |quotes|, c);
    if Reports(os, buy, sell) && Reports(os, sell, buy) {
      var there :| there in os && there.buyExchange == buy && there.sellExchange == sell;
      var back :| back in os && back.buyExchange == sell && back.sellExchange == buy;
      var a, b := ScanSource(quotes, |quotes|, c, there);
      var x, y := ScanSource(quotes, |quotes|, c, back);
      NamesOf(quotes, a, b, c, there);
      NamesOf(quotes, x, y, c, back);
      SameExchange(quotes, a, y);
      SameExchange(quotes, b, x);
      BothWays(quotes[a], quotes[b], c.threshold);
      assert false;
    }
  }

  lemma BothWays(a: Quote, b: Quote, threshold: real)
    requires Profitable(a, b, threshold) && Profitable(b, a, threshold)
    ensures !(a.ticker.bidPrice <= a.ticker.askPrice && b.ticker.bidPrice <= b.ticker.askPrice)
  {
  }

  function MaxBid(quotes: seq<Quote>): (m: real)
    requires |quotes| > 0
    ensures forall i :: 0 <= i < |quotes| ==> quotes[i].ticker.bidPrice <= m
    ensures exists i :: 0 <= i < |quotes| && quotes[i].ticker.bidPrice == m
  {
    var first := quotes[0].ticker.bidPrice;
    if |quotes| == 1 then first
    else
      var rest := quotes[1..];
      var m := MaxBid(rest);
      assert forall i :: 0 < i < |quotes| ==> quotes[i] == rest[i - 1];
      assert forall i :: 0 <= i < |rest| ==> rest[i] == quotes[i + 1];
      Max(first, m)
  }

  function MinAsk(quotes: seq<Quote>): (m: real)
    requires |quotes| > 0
    ensures forall i :: 0 <= i < |quotes| ==> m <= quotes[i].ticker.askPrice
    ensures exists i :: 0 <= i < |quotes| && quotes[i].ticker.askPrice == m
  {
    var first := quotes[0].ticker.askPrice;
    if |quotes| == 1 then first
    else
      var rest := quotes[1..];
      var m := MinAsk(rest);
      assert forall i :: 0 < i < |quotes| ==> quotes[i] == rest[i - 1];
      assert forall i :: 0 <= i < |rest| ==> rest[i] == quotes[i + 1];
      Min(first, m)
  }

  /** The best bid anywhere exceeds the best ask anywhere, and (1 + threshold) times it. */
  predicate BestCross(quotes: seq<Quote>, threshold: real)
    requires |quotes| > 0
  {
    MaxBid(quotes) > MinAsk(quotes) && MaxBid(quotes) > (1.0 + threshold) * MinAsk(quotes)
  }

  /** With uncrossed books, for every threshold, something is reported exactly when the best prices cross by it. */
  lemma {:induction false} BestPricesDecide(quotes: seq<Quote>, c: Context)
    requires |quotes| > 0 && Uncrossed(quotes)
    ensures Opportunities(quotes, |quotes|, c) != [] <==> BestCross(quotes, c.threshold)
  {
    hide *;
    if Opportunities(quotes, |quotes|, c) != [] {
      ReportedMeansBest(quotes, c);
    }
    if BestCross(quotes, c.threshold) {
      BestIsReported(quotes, c);
    }
  }

  /** For a threshold of at least 0 the second comparison decides alone. */
  lemma BestCrossMeans(quotes: seq<Quote>, threshold: real)
    requires |quotes| > 0 && Uncrossed(quotes) && threshold >= 0.0
    ensures BestCross(quotes, threshold) <==> MaxBid(quotes) > (1.0 + threshold) * MinAsk(quotes)
  {
    hide MaxBid, MinAsk;
    var a :| 0 <= a < |quotes| && quotes[a].ticker.askPrice == MinAsk(quotes);
    AtLeastItself(quotes[a].ticker.askPrice, threshold);
  }

  lemma {:induction false} ReportedMeansBest(quotes: seq<Quote>, c: Context)
    requires |quotes| > 0 && Uncrossed(quotes) && Opportunities(quotes, |quotes|, c) != []
    ensures BestCross(quotes, c.threshold)
  {
    hide MaxBid, MinAsk, Opportunities, Profitable, Distinctly, FromPair, Uncrossed, OpportunityOf;
    var o := Opportunities(quotes, |quotes|, c)[0];
    var a, b := ScanSource(quotes, |quotes|, c, o);
    PairIsProfitable(quotes, a, b, c, o);
    PositivePrices(quotes, a);
    PositivePrices(quotes, b);
    ProfitableMeans(quotes[a], quotes[b], c.threshold);
    Grow(MinAsk(quotes), quotes[a].ticker.askPrice, quotes[b].ticker.bidPrice, c.threshold);
  }

  lemma PositivePrices(quotes: seq<Quote>, i: nat)
    requires i < |quotes| && Uncrossed(quotes)
    ensures quotes[i].ticker.bidPrice > 0.0 && quotes[i].ticker.askPrice > 0.0 && MinAsk(quotes) > 0.0
  {
    hide MinAsk;
    var m :| 0 <= m < |quotes| && quotes[m].ticker.askPrice == MinAsk(quotes);
  }

  lemma {:induction false} BestIsReported(quotes: seq<Quote>, c: Context)
    requires |quotes| > 0 && Uncrossed(quotes) && BestCross(quotes, c.threshold)
    ensures Opportunities(quotes, |quotes|, c) != []
  {
    hide MaxBid, MinAsk, Opportunities, Profitable, Distinctly;
    var a :| 0 <= a < |quotes| && quotes[a].ticker.askPrice == MinAsk(quotes);
    var b :| 0 <= b < |quotes| && quotes[b].ticker.bidPrice == MaxBid(quotes);
    ProfitableMeans(quotes[a], quotes[b], c.threshold);
    ScanReports(quotes, |quotes|, c, a, b, OpportunityOf(c.symbol, quotes[a], quotes[b], c.now));
  }

  /** A bid beyond a multiple of an ask is beyond that multiple of any lower ask. */
  lemma Grow(low: real, ask: real, bid: real, threshold: real)
    requires 0.0 < low <= ask && bid > 0.0 && bid > (1.0 + threshold) * ask
    ensures bid > (1.0 + threshold) * low
  {
    var k := 1.0 + threshold;
    if k >= 0.0 {
      assert k * (ask - low) >= 0.0;
    } else {
      assert (-k) * low >= 0.0;
    }
  }

  lemma AtLeastItself(x: real, threshold: real)
    requires x > 0.0 && threshold >= 0.0
    ensures x <= (1.0 + threshold) * x
  {
    assert threshold * x >= 0.0;
  }

  const OPPORTUNITY_LIFE := 60.0

  /** Opportunities still in the recent list after the cleanup check. */
  function Recent(os: seq<ArbitrageOpportunity>, now: real, lastCleanup: real): seq<ArbitrageOpportunity>
  {
    if now - lastCleanup > OPPORTUNITY_LIFE then
      Filter(os, (o: ArbitrageOpportunity) => o.timestamp > now - OPPORTUNITY_LIFE)
    else os
  }

  /** What is left after the cleanup check: everything if the last cleanup is at most a minute ago, and otherwise what
      is younger than a minute. */
  lemma RecentExactly(os: seq<ArbitrageOpportunity>, now: real, lastCleanup: real, o: ArbitrageOpportunity)
    ensures o in Recent(os, now, lastCleanup) <==> o in os && (now <= lastCleanup + 60.0 || now < o.timestamp + 60.0)
  {
  }

  /** An opportunity just found survives the cleanup of its own scan. */
  lemma FoundSurvives(
    before: seq<ArbitrageOpportunity>, quotes: seq<Quote>, c: Context, lastCleanup: real, o: ArbitrageOpportunity)
    requires o in Opportunities(quotes, |quotes|, c)
    ensures o in Recent(before + Opportunities(quotes, |quotes|, c), c.now, lastCleanup)
  {
    hide Opportunities, Recent;
    var a, b := ReportedContents(quotes, c, o);
    RecentExactly(before + Opportunities(quotes, |quotes|, c), c.now, lastCleanup, o);
  }

  class RealTimeAnalytics {
    const arbitrageThreshold: real
    var latestTickers: seq<Cached>
    var recentOpportunities: seq<ArbitrageOpportunity>
    var opportunityCount: nat
    var lastOpportunityCleanup: real

    constructor (arbitrageThreshold: real, now: real)
      ensures Valid() && this.arbitrageThreshold == arbitrageThreshold && lastOpportunityCleanup == now
      ensures latestTickers == [] && recentOpportunities == [] && opportunityCount == 0
    {
      this.arbitrageThreshold := arbitrageThreshold;
      latestTickers, recentOpportunities, opportunityCount, lastOpportunityCleanup := [], [], 0, now;
    }

    /** The ticker cache is a dictionary: no key occurs twice. */
    ghost predicate Valid()
      reads this
    {
      forall i, j :: 0 <= i < j < |latestTickers| ==> latestTickers[i].key != latestTickers[j].key
    }

    /** Stores the ticker under its key: in its place if the key is known, at the end otherwise. */
    method StoreTicker(key: string, ticker: BookTicker)
      requires Valid()
      modifies this`latestTickers
      ensures Valid()
      ensures forall i :: 0 <= i < |old(latestTickers)| && old(latestTickers)[i].key == key ==>
                latestTickers == old(latestTickers)[i := Cached(key, ticker)]
      ensures (forall i :: 0 <= i < |old(latestTickers)| ==> old(latestTickers)[i].key != key) ==>
                latestTickers == old(latestTickers) + [Cached(key, ticker)]
    {
      var i := 0;
      while i < |latestTickers| && latestTickers[i].key != key
        invariant 0 <= i <= |latestTickers|
        invariant forall j :: 0 <= j < i ==> latestTickers[j].key != key
      {
        i := i + 1;
      }
      if i < |latestTickers| {
        ghost var before := latestTickers;
        latestTickers := latestTickers[i := Cached(key, ticker)];
        assert forall j :: 0 <= j < |before| && j != i ==> latestTickers[j] == before[j];
        assert latestTickers[i] == Cached(key, ticker);
      } else {
        latestTickers := latestTickers + [Cached(key, ticker)];
      }
    }

    /** Scans one symbol. A failed scan, or fewer than two exchanges, changes nothing. */
    method AnalyzeArbitrageOpportunities(symbol: string, now: real)
      modifies this`recentOpportunities, this`opportunityCount, this`lastOpportunityCleanup
      ensures var quotes := SymbolTickers(latestTickers, symbol);
              if |quotes| < 2 || DividesByZero(quotes) then
                && recentOpportunities == old(recentOpportunities) && opportunityCount == old(opportunityCount)
                && lastOpportunityCleanup == old(lastOpportunityCleanup)
              else
                var found := Opportunities(quotes, |quotes|, Context(symbol, arbitrageThreshold, now));
                && opportunityCount == old(opportunityCount) + |found|
                && recentOpportunities == Recent(old(recentOpportunities) + found, now, old(lastOpportunityCleanup))
                && (lastOpportunityCleanup == if now - old(lastOpportunityCleanup) > OPPORTUNITY_LIFE then now
                    else old(lastOpportunityCleanup))
    {
      hide DividesByZero, Opportunities, Recent, SymbolTickers;
      var quotes := SymbolTickers(latestTickers, symbol);
      if |quotes| < 2 {
        return;
      }
      var r := Scan(quotes, Context(symbol, arbitrageThreshold, now));
      if r.Failure? {
        return;
      }
      for i := 0 to |r.value|
        invariant opportunityCount == old(opportunityCount) + i
        invariant recentOpportunities == old(recentOpportunities) + r.value[..i]
        invariant lastOpportunityCleanup == old(lastOpportunityCleanup)
      {
        opportunityCount := opportunityCount + 1;
        recentOpportunities := recentOpportunities + [r.value[i]];
      }
      assert r.value[..|r.value|] == r.value;
      CleanupOldOpportunities(now);
    }

    method CleanupOldOpportunities(now: real)
      modifies this`recentOpportunities, this`lastOpportunityCleanup
      ensures recentOpportunities == Recent(old(recentOpportunities), now, old(lastOpportunityCleanup))
      ensures lastOpportunityCleanup == if now - old(lastOpportunityCleanup) > OPPORTUNITY_LIFE then now
                                        else old(lastOpportunityCleanup)
    {
      if now - lastOpportunityCleanup > OPPORTUNITY_LIFE {
        var cutoff := now - OPPORTUNITY_LIFE;
        recentOpportunities := Filter(recentOpportunities, (o: ArbitrageOpportunity) => o.timestamp > cutoff);
        lastOpportunityCleanup := now;
      }
    }
  }
}
