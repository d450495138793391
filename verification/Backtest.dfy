/** The backtest: aligned prices, the simulation loop, and what the books must add up to. */
module Backtesting {
  import opened Sums
  import opened OrderedKeys
  import opened Portfolio
  import opened PortfolioTracking
  import opened Rebalancing
  import opened ConservationLaws
  import opened TrendFiltering

  datatype Kline = Kline(openTime: real, closePrice: real)

  predicate HasData(klines: seq<Kline>, t: real)
  {
    exists i :: 0 <= i < |klines| && klines[i].openTime == t
  }

  /** Close price of the first candle that opens at t. */
  function CloseAt(klines: seq<Kline>, t: real): (r: Option<real>)
    ensures r.Some? <==> HasData(klines, t)
    ensures r.Some? ==> exists i :: 0 <= i < |klines| && klines[i] == Kline(t, r.value)
  {
    if |klines| == 0 then None
    else if klines[0].openTime == t then Some(klines[0].closePrice)
    else
      var r := CloseAt(klines[1..], t);
      assert klines == [klines[0]] + klines[1..];
      assert HasData(klines, t) ==> HasData(klines[1..], t) by {
        if HasData(klines, t) {
          var i :| 0 <= i < |klines| && klines[i].openTime == t;
          assert klines[1..][i - 1].openTime == t;
        }
      }
      r
  }

  type PriceData = map<Symbol, seq<Kline>>

  /** Every asset has a series, and every candle closes at a positive price. */
  ghost predicate Complete(assets: seq<Symbol>, data: PriceData)
  {
    && (forall a :: a in assets <==> a in data)
    && forall a, i :: a in data && 0 <= i < |data[a]| ==> data[a][i].closePrice > 0.0
  }

  /** The price of an asset at t is the close of its first candle that opens then. */
  ghost predicate FirstCloseIs(klines: seq<Kline>, t: real, price: real)
  {
    exists i :: (
      && 0 <= i < |klines| && klines[i].openTime == t && klines[i].closePrice == price
      && forall j :: 0 <= j < i ==> klines[j].openTime != t)
  }

  lemma {:induction false} CloseIsFirst(klines: seq<Kline>, t: real)
    ensures var r := CloseAt(klines, t);
            && (r.None? <==> forall i :: 0 <= i < |klines| ==> klines[i].openTime != t)
            && (r.Some? ==> FirstCloseIs(klines, t, r.value))
  {
    if |klines| == 0 {
    } else if klines[0].openTime != t {
      var rest := klines[1..];
      CloseIsFirst(rest, t);
      assert forall i :: 0 < i < |klines| ==> klines[i] == rest[i - 1];
      if CloseAt(rest, t).Some? {
        var price := CloseAt(rest, t).value;
        var i :| 0 <= i < |rest| && rest[i].openTime == t && rest[i].closePrice == price
                 && forall j :: 0 <= j < i ==> rest[j].openTime != t;
        assert klines[i + 1].openTime == t && klines[i + 1].closePrice == price;
      }
    }
  }

  /** An asset is priced exactly when it has a candle that opens at t, by the close of the first one. */
  lemma PricesAreFirstCloses(data: PriceData, t: real, a: Symbol)
    ensures a in PricesAt(data, t) <==> a in data && exists i :: 0 <= i < |data[a]| && data[a][i].openTime == t
    ensures a in PricesAt(data, t) ==> FirstCloseIs(data[a], t, PricesAt(data, t)[a])
  {
    hide FirstCloseIs;
    if a in data {
      CloseIsFirst(data[a], t);
    }
  }

  /** The prices of all assets that have a candle at t. */
  function PricesAt(data: PriceData, t: real): map<Symbol, real>
  {
    map a | a in data && HasData(data[a], t) :: CloseAt(data[a], t).value
  }

  /** Every asset has a candle at t. */
  ghost predicate Common(assets: seq<Symbol>, data: PriceData, t: real)
    requires forall a :: a in assets ==> a in data
  {
    forall a :: a in assets ==> HasData(data[a], t)
  }

  /** At a common timestamp every asset gets its own candle's price, never the default. */
  lemma CommonIsPriced(assets: seq<Symbol>, data: PriceData, t: real)
    requires Complete(assets, data) && Common(assets, data, t)
    ensures Priced(assets, PricesAt(data, t))
  {
  }

  // ----- the simulation as a function

  datatype SimState = SimState(
    ledger: Ledger,
    windows: map<Symbol, seq<real>>,
    history: seq<PortfolioState>,
    events: seq<RebalanceEvent>)

  function TriggerAt(config: RebalanceConfig, useFilter: bool, s: SimState, st: PortfolioState): Option<Trigger>
    requires st.WellFormed()
  {
    if useFilter then FilteredTrigger(config, s.ledger.lastRebalance, s.windows, st)
    else FirstTrigger(config, s.ledger.lastRebalance, st, 0)
  }

  /** One round of the loop: record the state, and rebalance if something triggers. */
  function Advance(
    config: RebalanceConfig, assets: seq<Symbol>, useFilter: bool, prices: map<Symbol, real>, t: real, s: SimState)
    : SimState
    requires Priced(assets, prices)
  {
    var st := Snapshot(assets, s.ledger, prices, t);
    var (m, event) := Rebalanced(config, assets, s.ledger, st, prices, TriggerAt(config, useFilter, s, st));
    SimState(
      m,
      if useFilter then Pushed(s.windows, CurrentPrices(st)) else s.windows,
      s.history + [st] + (if event.Some? then [event.value.after] else []),
      s.events + (if event.Some? then [event.value] else []))
  }

  function Simulated(
    config: RebalanceConfig, assets: seq<Symbol>, useFilter: bool, data: PriceData, ts: seq<real>,
    s: SimState): SimState
    requires Complete(assets, data) && forall i :: 0 <= i < |ts| ==> Common(assets, data, ts[i])
  {
    if |ts| == 0 then s
    else
      var n := |ts| - 1;
      CommonIsPriced(assets, data, ts[n]);
      Advance(config, assets, useFilter, PricesAt(data, ts[n]), ts[n],
              Simulated(config, assets, useFilter, data, ts[..n], s))
  }

  function Started(config: RebalanceConfig, assets: seq<Symbol>, capital: real, prices: map<Symbol, real>, t: real)
    : SimState
    requires |assets| > 0
  {
    SimState(
      Initialized(config, Allocation(config, capital, |assets|), assets, prices, t, Empty(assets, capital), |assets|),
      map s | s in assets :: [], [], [])
  }

  function Empty(assets: seq<Symbol>, capital: real): Ledger
  {
    Ledger(map s | s in assets :: 0.0, capital, map[])
  }

  // ----- accounting

  function FeeOf(): RebalanceEvent -> real
  {
    (e: RebalanceEvent) => e.feesPaid
  }

  function TotalFees(events: seq<RebalanceEvent>): real
  {
    Sum(events, FeeOf())
  }

  /** Fee of one equal share, if it is bought. */
  function ShareFee(fee: real, perAsset: real, price: real, l: Ledger): real
  {
    if price > 0.0 && l.usdt >= GrossShare(perAsset, fee) then perAsset * fee else 0.0
  }

  /** Fees of the initial purchases of the first n assets. */
  function InitialFees(
    config: RebalanceConfig, perAsset: real, assets: seq<Symbol>, prices: map<Symbol, real>, t: real, l: Ledger, n: nat)
    : real
    requires n <= |assets|
  {
    if n == 0 then 0.0
    else
      InitialFees(config, perAsset, assets, prices, t, l, n - 1)
      + ShareFee(config.tradingFee, perAsset, Lookup(prices, assets[n - 1], 0.0),
                 Initialized(config, perAsset, assets, prices, t, l, n - 1))
  }

  lemma ShareCost(perAsset: real, price: real, fee: real)
    requires price > 0.0
    ensures (perAsset / price) * price == perAsset
    ensures GrossShare(perAsset, fee) == perAsset + perAsset * fee
  {
  }

  lemma BuyShareCosts(
    fee: real, perAsset: real, assets: seq<Symbol>, prices: map<Symbol, real>, t: real, l: Ledger, s: Symbol)
    requires Distinct(assets) && Priced(assets, prices) && s in assets && l.Position(s) == 0.0
    ensures BuyShare(fee, perAsset, prices[s], t, l, s).TotalValue(assets, prices)
         == l.TotalValue(assets, prices) - ShareFee(fee, perAsset, prices[s], l)
  {
    var m := BuyShare(fee, perAsset, prices[s], t, l, s);
    if l.usdt >= GrossShare(perAsset, fee) {
      ShareCost(perAsset, prices[s], fee);
      BoughtValue(fee, perAsset, prices, t, l, s);
      hide BuyShare, Ledger.Value;
      SumChangeOne(assets, l.Values(prices), m.Values(prices), s);
    }
  }

  lemma BoughtValue(fee: real, perAsset: real, prices: map<Symbol, real>, t: real, l: Ledger, s: Symbol)
    requires s in prices && prices[s] > 0.0 && l.Position(s) == 0.0 && l.usdt >= GrossShare(perAsset, fee)
    ensures var m := BuyShare(fee, perAsset, prices[s], t, l, s);
            && m.Value(prices, s) == perAsset && l.Value(prices, s) == 0.0
            && m.usdt == l.usdt - GrossShare(perAsset, fee)
            && forall a :: a != s ==> m.Value(prices, a) == l.Value(prices, a)
  {
    ShareCost(perAsset, prices[s], fee);
  }

  lemma {:induction false} InitialPurchasesCostFees(
    config: RebalanceConfig, perAsset: real, assets: seq<Symbol>, prices: map<Symbol, real>, t: real, l: Ledger, n: nat)
    requires n <= |assets| && Distinct(assets) && Priced(assets, prices)
    requires forall s :: s in assets ==> l.Position(s) == 0.0
    ensures var m := Initialized(config, perAsset, assets, prices, t, l, n);
            && m.TotalValue(assets, prices)
               == l.TotalValue(assets, prices) - InitialFees(config, perAsset, assets, prices, t, l, n)
            && forall i :: n <= i < |assets| ==> m.Position(assets[i]) == 0.0
  {
    if n == 0 {
    } else {
      InitialPurchasesCostFees(config, perAsset, assets, prices, t, l, n - 1);
      var m := Initialized(config, perAsset, assets, prices, t, l, n - 1);
      BuyShareCosts(config.tradingFee, perAsset, assets, prices, t, m, assets[n - 1]);
      BuyShareElsewhere(config.tradingFee, perAsset, prices[assets[n - 1]], t, m, assets[n - 1]);
      hide Ledger.TotalValue, BuyShare, ShareFee;
    }
  }

  lemma BuyShareElsewhere(fee: real, perAsset: real, price: real, t: real, l: Ledger, s: Symbol)
    ensures forall a :: a != s ==> BuyShare(fee, perAsset, price, t, l, s).Position(a) == l.Position(a)
  {
  }

  lemma EmptyValue(assets: seq<Symbol>, capital: real, prices: map<Symbol, real>)
    ensures Empty(assets, capital).TotalValue(assets, prices) == capital
  {
    SumConstant(assets, Empty(assets, capital).Values(prices), 0.0);
  }

  /** The last recorded state is the current ledger's, and its value is explained by fees and gains. */
  ghost predicate Booked(
    assets: seq<Symbol>, s: SimState, base: real, prices: map<Symbol, real>, t: real)
  {
    && |s.history| > 0
    && s.history[|s.history| - 1] == Snapshot(assets, s.ledger, prices, t)
    && s.history[|s.history| - 1].totalValue == base - TotalFees(s.events) + PriceGain(s.history)
  }

  lemma GainSnoc(history: seq<PortfolioState>, st: PortfolioState)
    ensures PriceGain(history + [st])
         == if |history| == 0 then 0.0
            else PriceGain(history)
                 + Sum(history[|history| - 1].symbols, HoldingGain(history[|history| - 1], st))
  {
    var h := history + [st];
    assert h[..|history|] == history;
  }

  /** Recording repriced holdings keeps the books. */
  lemma RecordBooked(
    assets: seq<Symbol>, s: SimState, base: real, p0: map<Symbol, real>, t0: real, p1: map<Symbol, real>, t1: real)
    requires Booked(assets, s, base, p0, t0)
    ensures Booked(assets, s.(history := s.history + [Snapshot(assets, s.ledger, p1, t1)]), base, p1, t1)
  {
    var st := Snapshot(assets, s.ledger, p1, t1);
    GainSnoc(s.history, st);
    RepricingGains(assets, s.ledger, p0, t0, p1, t1);
    hide HoldingGain, Ledger.TotalValue, Mean, PriceGain;
  }

  /** An event keeps the books: it costs its fees and gains nothing at its own prices. */
  lemma EventBooked(
    config: RebalanceConfig, assets: seq<Symbol>, s: SimState, base: real, prices: map<Symbol, real>, t: real,
    trigger: Option<Trigger>)
    requires Distinct(assets) && Priced(assets, prices) && (trigger.Some? ==> trigger.value.symbol in assets)
    requires Booked(assets, s, base, prices, t)
    ensures var (m, event) := Rebalanced(config, assets, s.ledger, Snapshot(assets, s.ledger, prices, t), prices,
                                         trigger);
            event.Some? ==>
              Booked(assets, s.(ledger := m, history := s.history + [event.value.after],
                                events := s.events + [event.value]),
                     base, prices, t)
  {
    hide Rebalanced, HoldingGain, Ledger.TotalValue, Mean, PriceGain;
    var (m, event) := Rebalanced(config, assets, s.ledger, Snapshot(assets, s.ledger, prices, t), prices, trigger);
    EventCostsItsFees(config, assets, s.ledger, prices, t, trigger);
    EventBefore(config, assets, s.ledger, Snapshot(assets, s.ledger, prices, t), prices, trigger);
    if event.Some? {
      GainSnoc(s.history, event.value.after);
      SamePricesNoGain(assets, s.ledger, m, prices, t, t);
      SumSnoc(s.events, event.value, FeeOf());
    }
  }

  lemma EventBefore(
    config: RebalanceConfig, assets: seq<Symbol>, l: Ledger, st: PortfolioState, prices: map<Symbol, real>,
    t: Option<Trigger>)
    requires Tradable(st) && (t.Some? ==> t.value.symbol in st.assets)
    ensures var (m, event) := Rebalanced(config, assets, l, st, prices, t);
            if event.Some? then event.value.before == st else m == l
  {
    hide Actions, Execute, Snapshot;
  }

  /** One round of the loop keeps the books. */
  lemma AdvanceBooked(
    config: RebalanceConfig, assets: seq<Symbol>, useFilter: bool, s: SimState, base: real,
    p0: map<Symbol, real>, t0: real, prices: map<Symbol, real>, t: real)
    requires Distinct(assets) && Priced(assets, prices)
    requires Booked(assets, s, base, p0, t0)
             || (s.history == [] && s.events == [] && s.ledger.TotalValue(assets, prices) == base)
    ensures Booked(assets, Advance(config, assets, useFilter, prices, t, s), base, prices, t)
  {
    hide Rebalanced, Mean, Ledger.TotalValue, FirstTrigger, FilteredTrigger, PriceGain;
    var st := Snapshot(assets, s.ledger, prices, t);
    var recorded := s.(history := s.history + [st]);
    if s.history == [] {
      FirstRecordBooked(assets, s, base, prices, t);
    } else {
      RecordBooked(assets, s, base, p0, t0, prices, t);
    }
    var trigger := TriggerAt(config, useFilter, s, st);
    EventBooked(config, assets, recorded, base, prices, t, trigger);
    EventBefore(config, assets, s.ledger, st, prices, trigger);
    assert recorded.history + [] == recorded.history;
    assert s.events + [] == s.events;
  }

  lemma FirstRecordBooked(assets: seq<Symbol>, s: SimState, base: real, prices: map<Symbol, real>, t: real)
    requires s.history == [] && s.events == [] && s.ledger.TotalValue(assets, prices) == base
    ensures Booked(assets, s.(history := s.history + [Snapshot(assets, s.ledger, prices, t)]), base, prices, t)
  {
    GainSnoc([], Snapshot(assets, s.ledger, prices, t));
  }

  /** Whole-backtest accounting, with or without the trend filter: the final value is the initial
      capital, less the fees of the initial purchases, less the fees of every event, plus the gains
      on what was held between recorded states. */
  lemma {:induction false} BacktestAccounting(
    config: RebalanceConfig, assets: seq<Symbol>, useFilter: bool, data: PriceData, ts: seq<real>, capital: real)
    requires Distinct(assets) && |assets| > 0 && |ts| > 0
    requires Complete(assets, data) && forall i :: 0 <= i < |ts| ==> Common(assets, data, ts[i])
    ensures var prices := PricesAt(data, ts[0]);
            var s := Simulated(config, assets, useFilter, data, ts, Started(config, assets, capital, prices, ts[0]));
            var fees := InitialFees(config, Allocation(config, capital, |assets|), assets, prices, ts[0],
                                    Empty(assets, capital), |assets|);
            var end := ts[|ts| - 1];
            Booked(assets, s, capital - fees, PricesAt(data, end), end)
  {
    hide Advance, Booked, Ledger.TotalValue, InitialFees, Initialized, Allocation;
    var n := |ts| - 1;
    var prices := PricesAt(data, ts[0]);
    var s0 := Started(config, assets, capital, prices, ts[0]);
    var perAsset := Allocation(config, capital, |assets|);
    var fees := InitialFees(config, perAsset, assets, prices, ts[0], Empty(assets, capital), |assets|);
    var before := Simulated(config, assets, useFilter, data, ts[..n], s0);
    CommonIsPriced(assets, data, ts[n]);
    if n == 0 {
      InitialPurchasesCostFees(config, perAsset, assets, prices, ts[0], Empty(assets, capital), |assets|);
      EmptyValue(assets, capital, prices);
      AdvanceBooked(config, assets, useFilter, before, capital - fees, prices, ts[0], prices, ts[0]);
    } else {
      BacktestAccounting(config, assets, useFilter, data, ts[..n], capital);
      AdvanceBooked(config, assets, useFilter, before, capital - fees,
                    PricesAt(data, ts[n - 1]), ts[n - 1], PricesAt(data, ts[n]), ts[n]);
    }
  }

  // ----- no rebalance ever wins

  predicate Wins(e: RebalanceEvent)
  {
    e.after.totalValue > e.before.totalValue
  }

  function WinCount(events: seq<RebalanceEvent>): nat
  {
    if |events| == 0 then 0
    else WinCount(events[..|events| - 1]) + if Wins(events[|events| - 1]) then 1 else 0
  }

  /** With non-negative fees and minimum order no event raises the value at its own prices, so the
      count of winning rebalances stays 0 whatever the prices do. */
  lemma {:induction false} NothingWins(
    config: RebalanceConfig, assets: seq<Symbol>, useFilter: bool, data: PriceData, ts: seq<real>, s: SimState)
    requires Distinct(assets) && config.tradingFee >= 0.0 && config.minOrderValue >= 0.0
    requires Complete(assets, data) && forall i :: 0 <= i < |ts| ==> Common(assets, data, ts[i])
    requires WinCount(s.events) == 0
    ensures WinCount(Simulated(config, assets, useFilter, data, ts, s).events) == 0
  {
    if |ts| == 0 {
    } else {
      var n := |ts| - 1;
      hide Advance, WinCount;
      NothingWins(config, assets, useFilter, data, ts[..n], s);
      CommonIsPriced(assets, data, ts[n]);
      AdvanceNeverWins(config, assets, useFilter, PricesAt(data, ts[n]), ts[n],
                       Simulated(config, assets, useFilter, data, ts[..n], s));
    }
  }

  lemma AdvanceNeverWins(
    config: RebalanceConfig, assets: seq<Symbol>, useFilter: bool, prices: map<Symbol, real>, t: real, s: SimState)
    requires Distinct(assets) && Priced(assets, prices)
    requires config.tradingFee >= 0.0 && config.minOrderValue >= 0.0
    ensures WinCount(Advance(config, assets, useFilter, prices, t, s).events) == WinCount(s.events)
  {
    hide Rebalanced, FirstTrigger, FilteredTrigger, Mean, Ledger.TotalValue;
    var st := Snapshot(assets, s.ledger, prices, t);
    var trigger := TriggerAt(config, useFilter, s, st);
    EventCostsItsFees(config, assets, s.ledger, prices, t, trigger);
    var event := Rebalanced(config, assets, s.ledger, st, prices, trigger).1;
    if event.Some? {
      assert (s.events + [event.value])[..|s.events|] == s.events;
    } else {
      assert s.events + [] == s.events;
    }
  }

  /** A run records one state a round and one more for each event. */
  lemma {:induction false} RecordsPerRound(
    config: RebalanceConfig, assets: seq<Symbol>, useFilter: bool, data: PriceData, ts: seq<real>, s: SimState)
    requires Complete(assets, data) && forall i :: 0 <= i < |ts| ==> Common(assets, data, ts[i])
    ensures var run := Simulated(config, assets, useFilter, data, ts, s);
            && |run.history| + |s.events| == |s.history| + |ts| + |run.events|
            && s.history <= run.history && s.events <= run.events
  {
    if |ts| == 0 {
    } else {
      hide Advance, PricesAt, Priced, HasData, Complete, Common;
      var n := |ts| - 1;
      RecordsPerRound(config, assets, useFilter, data, ts[..n], s);
      CommonIsPriced(assets, data, ts[n]);
      AdvanceGrows(config, assets, useFilter, PricesAt(data, ts[n]), ts[n],
                   Simulated(config, assets, useFilter, data, ts[..n], s));
    }
  }

  lemma AdvanceGrows(
    config: RebalanceConfig, assets: seq<Symbol>, useFilter: bool, prices: map<Symbol, real>, t: real, s: SimState)
    requires Priced(assets, prices)
    ensures var r := Advance(config, assets, useFilter, prices, t, s);
            && |r.history| - |s.history| == 1 + |r.events| - |s.events|
            && s.history <= r.history && s.events <= r.events
  {
    hide Advance, Snapshot, TriggerAt;
    AdvanceRecords(config, assets, useFilter, prices, t, s);
  }

  /** One round records the state at its prices and, after an event, the state that the event reports; the event carries
      the trigger, the state before it and the time of the round. */
  lemma AdvanceRecords(
    config: RebalanceConfig, assets: seq<Symbol>, useFilter: bool, prices: map<Symbol, real>, t: real, s: SimState)
    requires Priced(assets, prices)
    ensures var r := Advance(config, assets, useFilter, prices, t, s);
            var st := Snapshot(assets, s.ledger, prices, t);
            var trigger := TriggerAt(config, useFilter, s, st);
            if r.events == s.events then r.history == s.history + [st] && r.ledger == s.ledger
            else
              && |r.events| == |s.events| + 1 && s.events <= r.events && trigger.Some?
              && var e := r.events[|s.events|];
                 && r.history == s.history + [st, e.after]
                 && e.before == st && e.after == Snapshot(assets, r.ledger, prices, t) && e.timestamp == t
                 && e.triggerAsset == trigger.value.symbol && e.triggerDeviation == trigger.value.deviation
  {
    hide Mean, Ledger.TotalValue, FirstTrigger, FilteredTrigger, Actions, Execute;
    var st := Snapshot(assets, s.ledger, prices, t);
    var event := Rebalanced(config, assets, s.ledger, st, prices, TriggerAt(config, useFilter, s, st)).1;
    if event.Some? {
      assert (s.history + [st]) + [event.value.after] == s.history + [st, event.value.after];
      assert |s.events + [event.value]| == |s.events| + 1;
    } else {
      assert s.history + [st] + [] == s.history + [st] && s.events + [] == s.events;
    }
  }

  /** The winning events are those with negative fees. */
  ghost predicate WinsByFees(events: seq<RebalanceEvent>)
  {
    forall i :: 0 <= i < |events| ==> (Wins(events[i]) <==> events[i].feesPaid < 0.0)
  }

  /** For every configuration, an event of a backtest wins if and only if the fees counted for it are negative. */
  lemma {:induction false} WinsExactly(
    config: RebalanceConfig, assets: seq<Symbol>, useFilter: bool, data: PriceData, ts: seq<real>, s: SimState)
    requires Distinct(assets) && Complete(assets, data) && forall i :: 0 <= i < |ts| ==> Common(assets, data, ts[i])
    requires WinsByFees(s.events)
    ensures WinsByFees(Simulated(config, assets, useFilter, data, ts, s).events)
  {
    if |ts| == 0 {
    } else {
      var n := |ts| - 1;
      hide Advance, WinsByFees;
      WinsExactly(config, assets, useFilter, data, ts[..n], s);
      CommonIsPriced(assets, data, ts[n]);
      AdvanceWinsByFees(config, assets, useFilter, PricesAt(data, ts[n]), ts[n],
                        Simulated(config, assets, useFilter, data, ts[..n], s));
    }
  }

  lemma AdvanceWinsByFees(
    config: RebalanceConfig, assets: seq<Symbol>, useFilter: bool, prices: map<Symbol, real>, t: real, s: SimState)
    requires Distinct(assets) && Priced(assets, prices) && WinsByFees(s.events)
    ensures WinsByFees(Advance(config, assets, useFilter, prices, t, s).events)
  {
    hide Rebalanced, FirstTrigger, FilteredTrigger, Mean, Ledger.TotalValue;
    EventCostsItsFees(config, assets, s.ledger, prices, t,
                      TriggerAt(config, useFilter, s, Snapshot(assets, s.ledger, prices, t)));
  }

  lemma HasDataPrefix(klines: seq<Kline>, k: nat, t: real)
    requires k < |klines|
    ensures HasData(klines[..k + 1], t) <==> HasData(klines[..k], t) || t == klines[k].openTime
  {
    if HasData(klines[..k], t) {
      var i :| 0 <= i < k && klines[..k][i].openTime == t;
      assert klines[..k + 1][i].openTime == t;
    }
    if t == klines[k].openTime {
      assert klines[..k + 1][k].openTime == t;
    }
  }

  lemma PricesAreThere(assets: seq<Symbol>, data: PriceData, t: real)
    requires Complete(assets, data) && Common(assets, data, t)
    ensures |assets| > 0 ==> |PricesAt(data, t)| > 0
  {
    if |assets| > 0 {
      assert assets[0] in assets;
      assert assets[0] in PricesAt(data, t);
    }
  }

  /** How one more event, or none, changes the counts. */
  lemma EventCounts(events: seq<RebalanceEvent>)
    ensures WinCount([]) == 0
    ensures events + [] == events
    ensures forall e :: WinCount(events + [e]) == WinCount(events) + if Wins(e) then 1 else 0
  {
    forall e
      ensures WinCount(events + [e]) == WinCount(events) + if Wins(e) then 1 else 0
    {
      assert (events + [e])[..|events|] == events;
    }
  }

  lemma DataForAssets(assets: seq<Symbol>, data: PriceData)
    requires Complete(assets, data)
    ensures |assets| > 0 ==> |data| > 0
  {
    if |assets| > 0 {
      assert assets[0] in data;
    }
  }

  lemma AppendOrdered(ks: seq<real>, k: real)
    requires Ordered(false, ks) && forall x :: x in ks ==> x < k
    ensures Ordered(false, ks + [k])
  {
    assert forall i :: 0 <= i < |ks| ==> ks[i] in ks;
  }

  /** The inner search of `get_prices_at_timestamp`. */
  method FindClose(klines: seq<Kline>, t: real) returns (close: Option<real>)
    ensures close == CloseAt(klines, t)
  {
    for i := 0 to |klines|
      invariant CloseAt(klines, t) == CloseAt(klines[i..], t)
    {
      if klines[i].openTime == t {
        return Some(klines[i].closePrice);
      }
      assert klines[i..][1..] == klines[i + 1..];
    }
    return None;
  }

  datatype BacktestResults = BacktestResults(
    totalRebalances: nat,
    winRate: real,
    totalFees: real,
    maxDrawdown: real,
    finalValue: real,
    initialValue: real)

  datatype BacktestError = NoCommonTimestamps

  /** The reported results agree with the simulation and explain the final value. */
  ghost predicate AddsUp(
    config: RebalanceConfig, assets: seq<Symbol>, useFilter: bool, data: PriceData, capital: real, ts: seq<real>,
    run: SimState, results: BacktestResults)
  {
    && Complete(assets, data) && |assets| > 0 && |ts| > 0
    && (forall i :: 0 <= i < |ts| ==> Common(assets, data, ts[i]))
    && run == Simulated(config, assets, useFilter, data, ts,
                        Started(config, assets, capital, PricesAt(data, ts[0]), ts[0]))
    && results.totalRebalances == |run.events|
    && results.totalFees == TotalFees(run.events)
    && results.finalValue == capital - PurchaseFees(config, assets, data, capital, ts[0]) - results.totalFees
                             + PriceGain(run.history)
    && results.initialValue == capital
    && results.maxDrawdown == RunDrawdown(capital, run)
    && (run.events == [] ==> results.winRate == 0.0)
    && results.winRate * |run.events| as real == |Filter(run.events, NegativeFees())| as real
    && (config.tradingFee >= 0.0 && config.minOrderValue >= 0.0 ==> results.winRate == 0.0)
  }

  /** The drawdown figure of a run's recorded values. */
  function RunDrawdown(capital: real, run: SimState): real
  {
    DrawdownFrom(Peak(capital, run.history), Trough(capital, run.history))
  }

  /** Fees of the equal-weight purchases at the first timestamp. */
  function PurchaseFees(config: RebalanceConfig, assets: seq<Symbol>, data: PriceData, capital: real, t: real): real
    requires |assets| > 0
  {
    InitialFees(config, Allocation(config, capital, |assets|), assets, PricesAt(data, t), t, Empty(assets, capital),
                |assets|)
  }

  function WinRate(winningRebalances: nat, rebalanceCount: nat): real
  {
    if rebalanceCount > 0 then winningRebalances as real / rebalanceCount as real else 0.0
  }

  /** The reported figures of a run. */
  function Results(run: SimState, rebalanceCount: nat, winningRebalances: nat, drawdown: real, capital: real)
    : BacktestResults
    requires |run.history| > 0
  {
    BacktestResults(rebalanceCount, WinRate(winningRebalances, rebalanceCount), TotalFees(run.events), drawdown,
                    run.history[|run.history| - 1].totalValue, capital)
  }

  lemma NoWinsNoRate(n: nat)
    ensures WinRate(0, n) == 0.0
  {
  }

  lemma RateTimesCount(wins: nat, n: nat)
    requires wins <= n
    ensures WinRate(wins, n) * n as real == wins as real
  {
  }

  function NegativeFees(): RebalanceEvent -> bool
  {
    (e: RebalanceEvent) => e.feesPaid < 0.0
  }

  /** The winning events are counted by their fees. */
  lemma {:induction false} WinCountIs(events: seq<RebalanceEvent>)
    requires WinsByFees(events)
    ensures WinCount(events) == |Filter(events, NegativeFees())| <= |events|
  {
    if |events| == 0 {
    } else {
      var n := |events| - 1;
      assert forall i :: 0 <= i < n ==> events[..n][i] == events[i];
      assert Wins(events[n]) <==> events[n].feesPaid < 0.0;
      WinCountIs(events[..n]);
    }
  }

  lemma WinsOfRun(
    config: RebalanceConfig, assets: seq<Symbol>, useFilter: bool, data: PriceData, capital: real, ts: seq<real>)
    requires Distinct(assets) && Complete(assets, data) && |assets| > 0 && |ts| > 0
    requires forall i :: 0 <= i < |ts| ==> Common(assets, data, ts[i])
    ensures var run := Simulated(config, assets, useFilter, data, ts,
                                 Started(config, assets, capital, PricesAt(data, ts[0]), ts[0]));
            WinCount(run.events) == |Filter(run.events, NegativeFees())| <= |run.events|
  {
    hide Simulated, PricesAt, Complete, Common, WinCount, Filter, Initialized, Allocation;
    var s := Started(config, assets, capital, PricesAt(data, ts[0]), ts[0]);
    WinsExactly(config, assets, useFilter, data, ts, s);
    WinCountIs(Simulated(config, assets, useFilter, data, ts, s).events);
  }

  lemma ResultsAddUp(
    config: RebalanceConfig, assets: seq<Symbol>, useFilter: bool, data: PriceData, capital: real, ts: seq<real>,
    run: SimState, drawdown: real)
    requires Distinct(assets) && Complete(assets, data) && |assets| > 0 && |ts| > 0
    requires forall i :: 0 <= i < |ts| ==> Common(assets, data, ts[i])
    requires run == Simulated(config, assets, useFilter, data, ts,
                              Started(config, assets, capital, PricesAt(data, ts[0]), ts[0]))
    requires drawdown == RunDrawdown(capital, run)
    ensures |run.history| > 0
    ensures AddsUp(config, assets, useFilter, data, capital, ts, run,
                   Results(run, |run.events|, WinCount(run.events), drawdown, capital))
  {
    hide RunDrawdown, Simulated, Started, InitialFees, Allocation, PriceGain, TotalFees, WinCount, WinRate, PricesAt,
      Common, Complete, Snapshot;
    BacktestAccounting(config, assets, useFilter, data, ts, capital);
    NoWinsNoRate(|run.events|);
    WinsOfRun(config, assets, useFilter, data, capital, ts);
    RateTimesCount(WinCount(run.events), |run.events|);
    if config.tradingFee >= 0.0 && config.minOrderValue >= 0.0 {
      StartsWithoutEvents(config, assets, capital, PricesAt(data, ts[0]), ts[0]);
      NothingWins(config, assets, useFilter, data, ts, Started(config, assets, capital, PricesAt(data, ts[0]), ts[0]));
    }
  }

  lemma StartsWithoutEvents(
    config: RebalanceConfig, assets: seq<Symbol>, capital: real, prices: map<Symbol, real>, t: real)
    requires |assets| > 0
    ensures WinCount(Started(config, assets, capital, prices, t).events) == 0
  {
  }

  /** One round of the loop, given what its rebalance did. */
  lemma AdvanceIs(
    config: RebalanceConfig, assets: seq<Symbol>, useFilter: bool, prices: map<Symbol, real>, t: real, s: SimState,
    m: Ledger, event: Option<RebalanceEvent>)
    requires Priced(assets, prices)
    requires var st := Snapshot(assets, s.ledger, prices, t);
             (m, event) == Rebalanced(config, assets, s.ledger, st, prices, TriggerAt(config, useFilter, s, st))
    ensures var st := Snapshot(assets, s.ledger, prices, t);
            Advance(config, assets, useFilter, prices, t, s)
            == SimState(m, if useFilter then Pushed(s.windows, CurrentPrices(st)) else s.windows,
                        s.history + [st] + (if event.Some? then [event.value.after] else []),
                        s.events + (if event.Some? then [event.value] else []))
  {
    hide Rebalanced, Mean, Ledger.TotalValue, FirstTrigger, FilteredTrigger;
  }

  /** The objects of a run hold exactly the state of the simulation. */
  ghost predicate Matches(
    tracker: PortfolioTracker, rebalancer: ThresholdCascadeRebalancer, filtered: TrendFilteredRebalancer, s: SimState)
    reads tracker, rebalancer, filtered
  {
    && tracker.Book() == s.ledger
    && tracker.portfolioHistory == s.history
    && rebalancer.rebalanceHistory == s.events
    && filtered.priceHistory == s.windows
  }

  class BacktestEngine {
    const assets: seq<Symbol>
    const initialCapital: real
    const config: RebalanceConfig
    const useTrendFilter: bool
    const priceData: PriceData

    constructor (assets: seq<Symbol>, initialCapital: real, config: RebalanceConfig, useTrendFilter: bool,
                 data: PriceData)
      requires Distinct(assets) && Complete(assets, data)
      ensures this.assets == assets && this.initialCapital == initialCapital && this.config == config
      ensures this.useTrendFilter == useTrendFilter && this.priceData == data
    {
      this.assets, this.initialCapital, this.config := assets, initialCapital, config;
      this.useTrendFilter, this.priceData := useTrendFilter, data;
    }

    /** All opening times of all assets, ascending and without repetition. */
    method AllTimestamps() returns (all: seq<real>)
      requires Complete(assets, priceData)
      ensures Ordered(false, all)
      ensures forall t :: t in all <==> exists a :: a in assets && HasData(priceData[a], t)
    {
      all := [];
      for i := 0 to |assets|
        invariant Ordered(false, all)
        invariant forall t :: t in all <==> exists a :: a in assets[..i] && HasData(priceData[a], t)
      {
        var klines := priceData[assets[i]];
        ghost var seen := all;
        for k := 0 to |klines|
          invariant Ordered(false, all)
          invariant forall t :: t in all <==> t in seen || HasData(klines[..k], t)
        {
          InsertOrdered(false, all, klines[k].openTime);
          all := Insert(false, all, klines[k].openTime);
          forall t
            ensures HasData(klines[..k + 1], t) <==> HasData(klines[..k], t) || t == klines[k].openTime
          {
            HasDataPrefix(klines, k, t);
          }
        }
        assert klines[..|klines|] == klines;
        assert assets[..i + 1] == assets[..i] + [assets[i]];
      }
      assert assets[..|assets|] == assets;
    }

    /** Timestamps at which every asset has a candle. */
    method AlignPriceData() returns (common: seq<real>)
      requires Complete(assets, priceData)
      ensures Ordered(false, common)
      ensures forall t :: t in common <==> |assets| > 0 && Common(assets, priceData, t)
      ensures forall i :: 0 <= i < |common| ==> |assets| > 0 && Common(assets, priceData, common[i])
    {
      if |priceData| == 0 {
        DataForAssets(assets, priceData);
        return [];
      }
      var all := AllTimestamps();
      common := [];
      for i := 0 to |all|
        invariant Ordered(false, common)
        invariant forall t :: t in common <==> t in all[..i] && Common(assets, priceData, t)
      {
        var hasAllData := true;
        for k := 0 to |assets|
          invariant hasAllData <==> forall a :: a in assets[..k] ==> HasData(priceData[a], all[i])
        {
          assert assets[..k + 1] == assets[..k] + [assets[k]];
          if !HasData(priceData[assets[k]], all[i]) {
            hasAllData := false;
            break;
          }
        }
        assert hasAllData <==> Common(assets, priceData, all[i]) by {
          assert assets[..|assets|] == assets;
        }
        assert all[..i + 1] == all[..i] + [all[i]];
        if hasAllData {
          AppendOrdered(common, all[i]);
          common := common + [all[i]];
        }
      }
      assert all[..|all|] == all;
      forall t | |assets| > 0 && Common(assets, priceData, t)
        ensures t in all
      {
        assert assets[0] in assets && HasData(priceData[assets[0]], t);
      }
      assert forall i :: 0 <= i < |common| ==> common[i] in common;
    }

    method GetPricesAtTimestamp(t: real) returns (prices: map<Symbol, real>)
      requires Complete(assets, priceData)
      ensures prices == PricesAt(priceData, t)
    {
      prices := map[];
      for i := 0 to |assets|
        invariant forall a :: a in prices <==> a in assets[..i] && HasData(priceData[a], t)
        invariant forall a :: a in prices ==> a in priceData && prices[a] == CloseAt(priceData[a], t).value
      {
        assert assets[..i + 1] == assets[..i] + [assets[i]];
        var close := FindClose(priceData[assets[i]], t);
        if close.Some? {
          prices := prices[assets[i] := close.value];
        }
      }
      assert assets[..|assets|] == assets;
    }

    /** One round of the simulation loop. */
    method Tick(
      tracker: PortfolioTracker, rebalancer: ThresholdCascadeRebalancer, filtered: TrendFilteredRebalancer, t: real,
      ghost s: SimState)
      returns (event: Option<RebalanceEvent>)
      requires Complete(assets, priceData) && Common(assets, priceData, t)
      requires filtered.Valid() && filtered.base == rebalancer && rebalancer.tracker == tracker
      requires rebalancer.assets == assets && rebalancer.config == config && Matches(tracker, rebalancer, filtered, s)
      requires Priced(assets, PricesAt(priceData, t))
      modifies tracker, rebalancer, filtered
      ensures filtered.Valid()
      ensures Matches(tracker, rebalancer, filtered,
                      Advance(config, assets, useTrendFilter, PricesAt(priceData, t), t, s))
      ensures rebalancer.rebalanceHistory
           == old(rebalancer.rebalanceHistory) + (if event.Some? then [event.value] else [])
    {
      hide Snapshot, Rebalanced, FirstTrigger, FilteredTrigger, PricesAt, FilteredStats, Pushed, CurrentPrices, Priced,
        Complete, Common, Tradable, Peak, Trough, CountersAgree, Advance, Distinct;
      var prices := GetPricesAtTimestamp(t);
      SnapshotIsTradable(assets, tracker.Book(), prices, t);
      var state := tracker.UpdatePrices(prices, t);
      if useTrendFilter {
        event := FilteredStep(rebalancer, filtered, state, prices, s);
      } else {
        event := rebalancer.ExecuteRebalance(state, prices);
      }
      AdvanceIs(config, assets, useTrendFilter, prices, t, s, tracker.Book(), event);
      assert tracker.portfolioHistory
          == s.history + [state] + (if event.Some? then [event.value.after] else []);
    }

    /** The rebalance of one round when the trend filter is on. */
    method FilteredStep(
      rebalancer: ThresholdCascadeRebalancer, filtered: TrendFilteredRebalancer, state: PortfolioState,
      prices: map<Symbol, real>, ghost s: SimState)
      returns (event: Option<RebalanceEvent>)
      requires filtered.Valid() && filtered.base == rebalancer && Tradable(state) && state.symbols == assets
      requires Distinct(assets) && rebalancer.assets == assets && rebalancer.config == config
      requires rebalancer.tracker.Book() == s.ledger && filtered.priceHistory == s.windows
      modifies rebalancer.tracker, rebalancer, filtered
      ensures filtered.Valid()
      ensures (rebalancer.tracker.Book(), event)
           == Rebalanced(config, assets, s.ledger, state, prices, TriggerAt(config, true, s, state))
      ensures rebalancer.Recorded(old(rebalancer.tracker.portfolioHistory), old(rebalancer.rebalanceHistory), event)
      ensures filtered.priceHistory == Pushed(s.windows, CurrentPrices(state))
    {
      hide Snapshot, Rebalanced, FirstTrigger, FilteredTrigger, FilteredStats, Pushed, CurrentPrices, Tradable, Peak,
        Trough, CountersAgree;
      event := filtered.ExecuteRebalance(state, prices);
    }

    /** The simulation loop. `run` is all that was recorded. */
    method Simulate(ts: seq<real>) returns (run: SimState, rebalanceCount: nat, winningRebalances: nat, drawdown: real)
      requires Complete(assets, priceData) && Distinct(assets) && |assets| > 0 && |ts| > 0
      requires forall i :: 0 <= i < |ts| ==> Common(assets, priceData, ts[i])
      ensures run == Simulated(config, assets, useTrendFilter, priceData, ts,
                               Started(config, assets, initialCapital, PricesAt(priceData, ts[0]), ts[0]))
      ensures rebalanceCount == |run.events| && winningRebalances == WinCount(run.events)
      ensures drawdown == RunDrawdown(initialCapital, run)
    {
      hide Peak, Trough, DrawdownFrom, Advance, Priced, Initialized, PricesAt, WinCount, Wins, Distinct, Complete,
        Common, HasData;
      var tracker := new PortfolioTracker(assets, initialCapital, config);
      var rebalancer := new ThresholdCascadeRebalancer(assets, config, tracker);
      var filtered := new TrendFilteredRebalancer(rebalancer);

      var initialPrices := GetPricesAtTimestamp(ts[0]);
      PricesAreThere(assets, priceData, ts[0]);
      tracker.InitializeEqualWeights(initialPrices, ts[0]);
      ghost var s0 := Started(config, assets, initialCapital, initialPrices, ts[0]);

      rebalanceCount, winningRebalances := 0, 0;
      EventCounts([]);
      for i := 0 to |ts|
        invariant filtered.Valid() && fresh(tracker) && fresh(rebalancer) && fresh(filtered)
        invariant Matches(tracker, rebalancer, filtered,
                          Simulated(config, assets, useTrendFilter, priceData, ts[..i], s0))
        invariant rebalanceCount == |rebalancer.rebalanceHistory|
        invariant winningRebalances == WinCount(rebalancer.rebalanceHistory)
      {
        CommonIsPriced(assets, priceData, ts[i]);
        assert ts[..i + 1][..i] == ts[..i];
        EventCounts(rebalancer.rebalanceHistory);
        var event := Tick(tracker, rebalancer, filtered, ts[i],
                          Simulated(config, assets, useTrendFilter, priceData, ts[..i], s0));
        if event.Some? {
          rebalanceCount := rebalanceCount + 1;
          if Wins(event.value) {
            winningRebalances := winningRebalances + 1;
          }
        }
      }
      assert ts[..|ts|] == ts;
      run := SimState(tracker.Book(), filtered.priceHistory, tracker.portfolioHistory, rebalancer.rebalanceHistory);
      drawdown := tracker.MaxDrawdown();
    }

    /** Runs the backtest over the common timestamps `ts`. */
    method RunBacktest() returns (r: Result<BacktestResults, BacktestError>, ts: seq<real>, run: SimState)
      requires Complete(assets, priceData) && Distinct(assets)
      ensures Ordered(false, ts) && forall t :: t in ts <==> |assets| > 0 && Common(assets, priceData, t)
      ensures r.Failure? <==> |ts| == 0
      ensures r.Success? ==> AddsUp(config, assets, useTrendFilter, priceData, initialCapital, ts, run, r.value)
    {
      ts := AlignPriceData();
      if |ts| == 0 {
        return Failure(NoCommonTimestamps), ts, SimState(Empty(assets, initialCapital), map[], [], []);
      }
      assert Common(assets, priceData, ts[0]);
      hide Simulated, Started, PricesAt, TotalFees, WinCount, Complete, Common, AddsUp, Results, RunDrawdown;
      var rebalanceCount, winningRebalances, drawdown;
      run, rebalanceCount, winningRebalances, drawdown := Simulate(ts);
      ResultsAddUp(config, assets, useTrendFilter, priceData, initialCapital, ts, run, drawdown);
      r := Success(Results(run, rebalanceCount, winningRebalances, drawdown, initialCapital));
    }
  }
}
