/** Every backtest is a run: its ledgers are solvent, its rebalances meet the conditions of the funding and
    contraction laws, and its triggers are spaced. */
module BacktestSafety {
  import opened Sums
  import opened Portfolio
  import opened PortfolioTracking
  import opened Rebalancing
  import opened DownsideLaws
  import opened FundingLaws
  import opened RunSafety
  import opened CooldownLaws
  import opened UpsideLaws
  import opened TrendFiltering
  import opened Backtesting

  datatype Backtest = Backtest(
    config: RebalanceConfig, assets: seq<Symbol>, useFilter: bool, data: PriceData, ts: seq<real>, capital: real)
  {
    function Setup(): Setup { RunSafety.Setup(config, assets, capital) }

    /** A backtest over common timestamps of complete price series. */
    ghost predicate Ready()
    {
      && Distinct(assets) && |assets| > 0 && |ts| > 0 && Complete(assets, data)
      && forall i :: 0 <= i < |ts| ==> Common(assets, data, ts[i])
    }

    function Prices(i: nat): map<Symbol, real>
      requires i < |ts|
    {
      PricesAt(data, ts[i])
    }

    /** The state before round n, after the initial purchases. */
    function StateAt(n: nat): SimState
      requires Ready() && n <= |ts|
    {
      Simulated(config, assets, useFilter, data, ts[..n], Started(config, assets, capital, Prices(0), ts[0]))
    }

    /** The portfolio state that round n records and acts on. */
    function Seen(n: nat): PortfolioState
      requires Ready() && n < |ts|
    {
      Snapshot(assets, StateAt(n).ledger, Prices(n), ts[n])
    }

    /** What triggers in round n. */
    function TriggerOfRound(n: nat): (t: Option<Trigger>)
      requires Ready() && n < |ts|
      ensures t.Some? ==> t.value.symbol in assets
    {
      TriggerAt(config, useFilter, StateAt(n), Seen(n))
    }

    lemma PricedAt(n: nat)
      requires Ready() && n < |ts|
      ensures Priced(assets, Prices(n))
    {
      CommonIsPriced(assets, data, ts[n]);
    }

    lemma StateSnoc(n: nat)
      requires Ready() && n < |ts|
      ensures Priced(assets, Prices(n))
      ensures StateAt(n + 1) == Advance(config, assets, useFilter, Prices(n), ts[n], StateAt(n))
    {
      hide Advance, Started, Complete, Common;
      PricedAt(n);
      assert ts[..n + 1][..n] == ts[..n];
    }

    ghost function CallOfRound(n: nat): Op
      requires Ready() && n < |ts|
    {
      Rebalance(Prices(n), ts[n], TriggerOfRound(n).None?)
    }

    /** The initial purchases, then the calls of the first n rounds. */
    ghost function Ops(n: nat): seq<Op>
      requires Ready() && n <= |ts|
    {
      [Initialize(Prices(0), ts[0])] + seq(n, i requires 0 <= i < n => CallOfRound(i))
    }

    lemma OpsSnoc(n: nat)
      requires Ready() && n < |ts|
      ensures Ops(n + 1) == Ops(n) + [CallOfRound(n)]
    {
      hide CallOfRound, PricesAt, Ready;
    }

    lemma CallValid(n: nat)
      requires Ready() && n < |ts|
      ensures ValidOp(Setup(), CallOfRound(n)) && CallOfRound(n).timestamp == ts[n]
    {
      hide TriggerOfRound, PricesAt, Priced;
      PricedAt(n);
    }

    lemma OpsValid(n: nat)
      requires Ready() && n <= |ts|
      ensures AllValid(Setup(), Ops(n))
    {
      hide CallOfRound, Ready, PricesAt, Priced;
      forall i | 0 <= i < |Ops(n)|
        ensures ValidOp(Setup(), Ops(n)[i])
      {
        if i > 0 {
          CallValid(i - 1);
        }
      }
    }
  }

  function EventsOf(log: seq<Record>): seq<RebalanceEvent>
  {
    if |log| == 0 then []
    else EventsOf(log[..|log| - 1]) + match log[|log| - 1] case Traded(_, _) => [] case Triggered(e) => [e]
  }

  lemma {:induction false} EventsConcat(a: seq<Record>, b: seq<Record>)
    ensures EventsOf(a + b) == EventsOf(a) + EventsOf(b)
  {
    if |b| == 0 {
      assert a + b == a;
    } else {
      EventsConcat(a, b[..|b| - 1]);
      assert (a + b)[..|a + b| - 1] == a + b[..|b| - 1];
    }
  }

  lemma {:induction false} TradesAreNoEvents(actions: seq<RebalanceAction>, executed: seq<bool>)
    requires |actions| == |executed|
    ensures EventsOf(TradeRecords(actions, executed)) == []
  {
    if |actions| == 0 {
    } else {
      var n := |actions| - 1;
      TradesAreNoEvents(actions[..n], executed[..n]);
      EventsConcat(TradeRecords(actions[..n], executed[..n]),
                   if executed[n] then [Traded(actions[n].symbol, actions[n].timestamp)] else []);
    }
  }

  lemma {:induction false} SharesAreNoEvents(
    config: RebalanceConfig, perAsset: real, assets: seq<Symbol>, prices: map<Symbol, real>, t: real, l: Ledger, n: nat)
    requires n <= |assets|
    ensures EventsOf(ShareRecords(config, perAsset, assets, prices, t, l, n)) == []
  {
    if n == 0 {
    } else {
      hide ShareBought, Initialized;
      SharesAreNoEvents(config, perAsset, assets, prices, t, l, n - 1);
      var bought := ShareBought(config.tradingFee, perAsset, Lookup(prices, assets[n - 1], 0.0),
                                Initialized(config, perAsset, assets, prices, t, l, n - 1));
      EventsConcat(ShareRecords(config, perAsset, assets, prices, t, l, n - 1),
                   if bought then [Traded(assets[n - 1], t)] else []);
    }
  }

  lemma EventRecordsAre(config: RebalanceConfig, l: Ledger, event: Option<RebalanceEvent>)
    ensures EventsOf(EventRecords(config, l, event)) == if event.Some? then [event.value] else []
  {
    if event.Some? {
      var actions := event.value.actions;
      var records := TradeRecords(actions, Execute(config.tradingFee, l, actions).executed);
      EventsConcat([Triggered(event.value)], records);
      TradesAreNoEvents(actions, Execute(config.tradingFee, l, actions).executed);
      assert [Triggered(event.value)][..0] == [];
      assert [event.value] + [] == [event.value];
    }
  }

  /** Round for round, the run over the backtest's calls has the backtest's ledger and events. */
  lemma {:induction false} BacktestIsRun(b: Backtest, n: nat)
    requires b.Ready() && n <= |b.ts|
    ensures AllValid(b.Setup(), b.Ops(n))
    ensures Run(b.Setup(), b.Ops(n)).ledger == b.StateAt(n).ledger
    ensures EventsOf(Run(b.Setup(), b.Ops(n)).log) == b.StateAt(n).events
  {
    hide Run, Step, Backtest.Ops, Backtest.StateAt, EventsOf, Backtest.Ready, Backtest.CallOfRound, AllValid;
    b.OpsValid(n);
    if n == 0 {
      StartIsRun(b);
    } else {
      BacktestIsRun(b, n - 1);
      b.OpsSnoc(n - 1);
      b.CallValid(n - 1);
      RoundIsStep(b, n - 1, Run(b.Setup(), b.Ops(n - 1)));
      RunSnoc(b.Setup(), b.Ops(n - 1), b.CallOfRound(n - 1));
    }
  }

  lemma RunSnoc(setup: Setup, ops: seq<Op>, op: Op)
    requires AllValid(setup, ops) && ValidOp(setup, op)
    ensures AllValid(setup, ops + [op]) && Run(setup, ops + [op]) == Step(setup, Run(setup, ops), op)
  {
    hide ValidOp, Step;
    assert (ops + [op])[..|ops|] == ops;
  }

  lemma StartIsRun(b: Backtest)
    requires b.Ready()
    ensures AllValid(b.Setup(), b.Ops(0))
    ensures Run(b.Setup(), b.Ops(0)).ledger == b.StateAt(0).ledger
    ensures EventsOf(Run(b.Setup(), b.Ops(0)).log) == b.StateAt(0).events
  {
    hide Initialized, Allocation, ShareRecords, PricesAt;
    b.OpsValid(0);
    PricesAreThere(b.assets, b.data, b.ts[0]);
    assert b.Ops(0)[..0] == [];
    var share := Allocation(b.config, b.capital, |b.assets|);
    SharesAreNoEvents(b.config, share, b.assets, b.Prices(0), b.ts[0], Fresh(b.Setup()).ledger, |b.assets|);
    var records := InitializeRecords(b.Setup(), b.Prices(0), b.ts[0], Fresh(b.Setup()).ledger);
    assert [] + records == records;
    assert b.ts[..0] == [];
  }

  lemma RoundIsStep(b: Backtest, n: nat, w: World)
    requires b.Ready() && n < |b.ts|
    requires w.ledger == b.StateAt(n).ledger && EventsOf(w.log) == b.StateAt(n).events
    ensures ValidOp(b.Setup(), b.CallOfRound(n))
    ensures Step(b.Setup(), w, b.CallOfRound(n)).ledger == b.StateAt(n + 1).ledger
    ensures EventsOf(Step(b.Setup(), w, b.CallOfRound(n)).log) == b.StateAt(n + 1).events
  {
    hide Rebalanced, EventRecords, Mean, Ledger.TotalValue, Blocks, FirstTrigger, Pushed, Backtest.StateAt, PricesAt,
      Complete, Common, EventsOf;
    b.PricedAt(n);
    b.StateSnoc(n);
    var st := b.Seen(n);
    var t := b.TriggerOfRound(n);
    SameTrigger(b, n);
    var event := Rebalanced(b.config, b.assets, w.ledger, st, b.Prices(n), t).1;
    EventRecordsAre(b.config, w.ledger, event);
    EventsConcat(w.log, EventRecords(b.config, w.ledger, event));
  }

  /** A veto of the trend filter is a blocked rebalance of the run. */
  lemma SameTrigger(b: Backtest, n: nat)
    requires b.Ready() && n < |b.ts| && Priced(b.assets, b.Prices(n))
    ensures TriggerIn(b.config, b.StateAt(n).ledger, b.Seen(n), b.TriggerOfRound(n).None?) == b.TriggerOfRound(n)
  {
    hide FirstTrigger, Backtest.StateAt, PricesAt, Mean, Ledger.TotalValue, Blocks, Pushed;
  }

  // ----- solvency

  ghost predicate SolventAllAlong(b: Backtest)
    requires b.Ready()
  {
    forall n :: 0 <= n <= |b.ts| ==> b.StateAt(n).ledger.Solvent()
  }

  /** A round changes the ledger by its rebalance alone. */
  lemma RoundLedger(b: Backtest, n: nat)
    requires b.Ready() && n < |b.ts|
    ensures Tradable(b.Seen(n)) && Priced(b.assets, b.Prices(n))
    ensures b.StateAt(n + 1).ledger
         == Rebalanced(b.config, b.assets, b.StateAt(n).ledger, b.Seen(n), b.Prices(n), b.TriggerOfRound(n)).0
  {
    hide Rebalanced, Mean, Ledger.TotalValue, FirstTrigger, FilteredTrigger, Pushed, Backtest.StateAt, PricesAt,
      Complete, Common;
    b.StateSnoc(n);
  }

  lemma {:induction false} LaterRoundsSolvent(b: Backtest, n: nat)
    requires b.Ready() && n <= |b.ts| && b.StateAt(0).ledger.Solvent()
    requires -1.0 <= b.config.tradingFee <= 1.0 && b.config.minOrderValue >= 0.0
    ensures b.StateAt(n).ledger.Solvent()
  {
    if n == 0 {
    } else {
      hide *;
      LaterRoundsSolvent(b, n - 1);
      RoundLedger(b, n - 1);
      SeenIs(b, n - 1);
      RebalanceKeepsSolvent(b.config, b.assets, b.StateAt(n - 1).ledger, b.Prices(n - 1), b.ts[n - 1],
                            b.TriggerOfRound(n - 1));
    }
  }

  lemma SeenIs(b: Backtest, n: nat)
    requires b.Ready() && n < |b.ts|
    ensures b.Seen(n) == Snapshot(b.assets, b.StateAt(n).ledger, b.Prices(n), b.ts[n])
  {
  }

  lemma StartSolventExactly(b: Backtest)
    requires b.Ready() && b.capital > 0.0 && b.config.tradingFee >= -1.0
    ensures b.StateAt(0).ledger.Solvent() <==> b.config.usdtReserve <= 1.0
  {
    hide Initialized, Allocation, Ledger.Solvent, PricesAt;
    PricesAreThere(b.assets, b.data, b.ts[0]);
    b.PricedAt(0);
    assert b.assets[0] in b.assets && Lookup(b.Prices(0), b.assets[0], 0.0) > 0.0;
    EmptyIsSolvent(b.assets, b.capital);
    InitializeSolventExactly(b.config, b.assets, b.capital, b.Prices(0), b.ts[0], Empty(b.assets, b.capital));
    assert b.ts[..0] == [];
  }

  lemma EmptyIsSolvent(assets: seq<Symbol>, capital: real)
    requires capital >= 0.0
    ensures Empty(assets, capital).Solvent()
  {
  }

  /** Cash and positions stay non-negative in every round of a backtest exactly when the reserve is at most 100%. */
  lemma BacktestSolventExactly(b: Backtest)
    requires b.Ready() && b.capital > 0.0 && -1.0 <= b.config.tradingFee <= 1.0 && b.config.minOrderValue >= 0.0
    ensures SolventAllAlong(b) <==> b.config.usdtReserve <= 1.0
  {
    hide Ledger.Solvent, Backtest.StateAt;
    StartSolventExactly(b);
    if b.config.usdtReserve <= 1.0 {
      forall n | 0 <= n <= |b.ts|
        ensures b.StateAt(n).ledger.Solvent()
      {
        LaterRoundsSolvent(b, n);
      }
    }
  }

  lemma BacktestKeepsKeys(b: Backtest, n: nat)
    requires b.Ready() && n <= |b.ts|
    ensures forall a :: a in b.assets ==> a in b.StateAt(n).ledger.positions
  {
    hide Run, Backtest.StateAt, Backtest.Ops;
    BacktestIsRun(b, n);
    forall a | a in b.assets
      ensures a in b.StateAt(n).ledger.positions
    {
      RunKeepsKeys(b.Setup(), b.Ops(n), a);
    }
  }

  // ----- every round meets the conditions of the rebalancing laws

  ghost predicate Sound(b: Backtest)
  {
    && b.Ready() && b.capital > 0.0 && 0.0 <= b.config.tradingFee <= 1.0 && b.config.minOrderValue >= 0.0
    && b.config.usdtReserve <= 1.0
  }

  /** What the rebalancing laws ask of a round's ledger. */
  lemma RoundFacts(b: Backtest, n: nat)
    requires Sound(b) && n < |b.ts|
    ensures Distinct(b.assets) && Priced(b.assets, b.Prices(n)) && b.StateAt(n).ledger.Solvent()
    ensures forall a :: a in b.assets ==> a in b.StateAt(n).ledger.positions
    ensures b.Seen(n) == Snapshot(b.assets, b.StateAt(n).ledger, b.Prices(n), b.ts[n]) && Tradable(b.Seen(n))
    ensures b.Seen(n).symbols == b.assets
  {
    hide Ledger.Solvent, Backtest.StateAt, PricesAt, Mean, Ledger.TotalValue, Ledger.Value, Complete, Common;
    b.PricedAt(n);
    BacktestSolventExactly(b);
    BacktestKeepsKeys(b, n);
  }

  /** In every round of every backtest a downside rebalance takes no asset past the mean and shrinks the distance
      to equal weights by the traded value. */
  lemma BacktestDownside(b: Backtest, n: nat, s: Symbol)
    requires Sound(b) && n < |b.ts|
    requires b.TriggerOfRound(n).Some? && b.TriggerOfRound(n).value.direction == Downside
    requires s == b.TriggerOfRound(n).value.symbol
    ensures s in b.Seen(n).assets && Tradable(b.Seen(n))
    ensures var (l, prices, mean) := (b.StateAt(n).ledger, b.Prices(n), b.Seen(n).meanAssetValue);
            var actions := DownsideActions(b.config, b.Seen(n), s);
            var run := Execute(b.config.tradingFee, l, actions);
            && (forall a :: a in b.assets ==> Approaches(l.Value(prices, a), run.ledger.Value(prices, a), mean))
            && Distance(b.assets, run.ledger, prices, mean)
               == Distance(b.assets, l, prices, mean) - ExecutedVolume(actions, run.executed)
  {
    SoundFees(b);
    hide *;
    RoundFacts(b, n);
    KnownToRound(b, n, s);
    DownsideNeverOvershoots(b.config, b.assets, b.StateAt(n).ledger, b.Prices(n), b.ts[n], s);
  }

  lemma SoundFees(b: Backtest)
    requires Sound(b)
    ensures b.Ready() && 0.0 <= b.config.tradingFee <= 1.0 && b.config.minOrderValue >= 0.0
  {
  }

  lemma KnownToRound(b: Backtest, n: nat, s: Symbol)
    requires b.Ready() && n < |b.ts| && s in b.assets
    ensures s in b.Seen(n).assets
  {
    hide Backtest.StateAt, Mean, Ledger.TotalValue, Ledger.Value;
  }

  /** In every round of every backtest with an uncovered deficit all support sales execute, and the purchase they
      fund does exactly when the cash at hand covers its fee. */
  lemma BacktestDownsideFunding(b: Backtest, n: nat, s: Symbol)
    requires Sound(b) && n < |b.ts|
    requires b.TriggerOfRound(n).Some? && b.TriggerOfRound(n).value.direction == Downside
    requires s == b.TriggerOfRound(n).value.symbol
    ensures s in b.Seen(n).assets && Tradable(b.Seen(n))
    ensures DownsideFunded(b.config, b.StateAt(n).ledger, b.Seen(n), s)
  {
    SoundFees(b);
    hide *;
    RoundFacts(b, n);
    KnownToRound(b, n, s);
    DownsideFunding(b.config, b.assets, b.StateAt(n).ledger, b.Prices(n), b.ts[n], s);
  }

  /** In every round of every backtest an upside rebalance executes its sale, and with self-funding parameters
      everything, leaving no less cash. */
  lemma BacktestUpside(b: Backtest, n: nat, s: Symbol)
    requires Sound(b) && n < |b.ts| && b.config.sellPercentage <= 1.0
    requires b.TriggerOfRound(n).Some? && b.TriggerOfRound(n).value.direction == Upside
    requires s == b.TriggerOfRound(n).value.symbol
    ensures s in b.Seen(n).assets
    ensures var l := b.StateAt(n).ledger;
            var actions := UpsideActions(b.config, b.assets, b.Seen(n), s);
            var run := Execute(b.config.tradingFee, l, actions);
            actions != [] ==>
              run.executed[0] && (SelfFunding(b.config) ==> AllTrue(run.executed) && run.ledger.usdt >= l.usdt)
  {
    SoundFees(b);
    hide *;
    RoundFacts(b, n);
    KnownToRound(b, n, s);
    UpsideFunding(b.config, b.assets, b.StateAt(n).ledger, b.Prices(n), b.ts[n], s);
  }

  /** In every round of every backtest with such parameters, an upside sale leaves its trigger at or above the mean. */
  lemma BacktestStaysAboveMean(b: Backtest, n: nat)
    requires Sound(b) && n < |b.ts| && 0.0 <= b.config.sellPercentage <= 1.0 && KeepsMean(b.config)
    requires b.TriggerOfRound(n).Some? && b.TriggerOfRound(n).value.direction == Upside
    ensures ValueAfter(b.config, b.assets, b.StateAt(n).ledger, b.Prices(n), b.ts[n], b.TriggerOfRound(n).value.symbol)
         >= b.Seen(n).meanAssetValue
  {
    hide *;
    SoundFees(b);
    RoundFacts(b, n);
    var s := b.TriggerOfRound(n).value.symbol;
    KnownToRound(b, n, s);
    PastInRound(b, n);
    UpsideStaysAboveMean(b.config, b.assets, b.StateAt(n).ledger, b.Prices(n), b.ts[n], s);
  }

  lemma PastInRound(b: Backtest, n: nat)
    requires Sound(b) && n < |b.ts|
    requires b.TriggerOfRound(n).Some? && b.TriggerOfRound(n).value.direction == Upside
    ensures PastThreshold(b.config, b.assets, b.StateAt(n).ledger, b.Prices(n), b.ts[n],
                          b.TriggerOfRound(n).value.symbol)
  {
    hide Ledger.Solvent, Backtest.StateAt, PricesAt, Priced, Complete, Common, FirstTrigger, Mean, Ledger.TotalValue,
      Ledger.Value, PortfolioState.Deviation, Blocks, Pushed;
    RoundFacts(b, n);
    TriggerIsPastThreshold(b.config, b.StateAt(n).ledger.lastRebalance, b.Seen(n), 0);
  }

  /** In every round of every backtest, a rebalance sets the cooldown of the asset that triggers it exactly when it
      sells it or its purchase is placed and paid for; otherwise the asset's stamp stays as it was. */
  lemma BacktestStampsExactly(b: Backtest, n: nat)
    requires Sound(b) && n < |b.ts| && b.config.sellPercentage <= 1.0 && b.TriggerOfRound(n).Some?
    ensures b.TriggerOfRound(n).value.symbol in b.Seen(n).assets
    ensures var t := b.TriggerOfRound(n).value;
            StampIs(b.StateAt(n).ledger.lastRebalance, b.StateAt(n + 1).ledger.lastRebalance, t.symbol,
                    StampsTrigger(b.config, b.assets, b.StateAt(n).ledger, b.Seen(n), t), b.ts[n])
  {
    hide *;
    SoundFees(b);
    RoundFacts(b, n);
    RoundLedger(b, n);
    LedgerOfRound(b, n);
    RebalanceStampsExactly(b.config, b.assets, b.StateAt(n).ledger, b.Prices(n), b.ts[n], b.TriggerOfRound(n).value);
  }

  lemma LedgerOfRound(b: Backtest, n: nat)
    requires Sound(b) && n < |b.ts|
    ensures SoundLedger(b.assets, b.StateAt(n).ledger, b.Prices(n))
  {
    hide Ledger.Solvent, Backtest.StateAt, PricesAt, Priced, Complete, Common;
    RoundFacts(b, n);
  }

  // ----- the windows that the trend filter sees

  /** The closes of an asset at the first n timestamps. */
  function Closes(b: Backtest, n: nat, a: Symbol): seq<real>
    requires n <= |b.ts|
  {
    seq(n, i requires 0 <= i < n => Lookup(PricesAt(b.data, b.ts[i]), a, 0.0))
  }

  lemma RoundWindows(b: Backtest, n: nat, a: Symbol)
    requires b.Ready() && n < |b.ts| && a in b.assets
    ensures b.useFilter && a in b.StateAt(n).windows ==>
      && a in b.StateAt(n + 1).windows
      && b.StateAt(n + 1).windows[a]
         == Current(b.StateAt(n).windows[a], Lookup(PricesAt(b.data, b.ts[n]), a, 0.0))
    ensures !b.useFilter ==> b.StateAt(n + 1).windows == b.StateAt(n).windows
  {
    hide Rebalanced, Mean, Ledger.TotalValue, Ledger.Value, FirstTrigger, FilteredTrigger, Backtest.StateAt, PricesAt,
      Complete, Common;
    b.StateSnoc(n);
  }

  lemma CurrentOfLast(closes: seq<real>, window: seq<real>, price: real)
    requires window == if |closes| > 20 then closes[|closes| - 20..] else closes
    ensures var longer := closes + [price];
            Current(window, price) == if |longer| > 20 then longer[|longer| - 20..] else longer
  {
  }

  lemma StartWindows(b: Backtest, a: Symbol)
    requires b.Ready() && a in b.assets
    ensures a in b.StateAt(0).windows && b.StateAt(0).windows[a] == []
  {
    hide PricesAt, Initialized, Allocation;
    assert b.ts[..0] == [];
  }

  /** With the trend filter, after n rounds of every backtest the window of each asset is its last twenty closes, or all
      n of them if fewer; without it the windows stay empty. */
  lemma {:induction false} BacktestWindows(b: Backtest, n: nat, a: Symbol)
    requires b.Ready() && n <= |b.ts| && a in b.assets
    ensures var closes := Closes(b, n, a);
            && a in b.StateAt(n).windows
            && b.StateAt(n).windows[a]
               == if !b.useFilter then [] else if |closes| > 20 then closes[|closes| - 20..] else closes
  {
    hide Backtest.Ready, Backtest.StateAt, PricesAt;
    if n == 0 {
      StartWindows(b, a);
    } else {
      BacktestWindows(b, n - 1, a);
      RoundWindows(b, n - 1, a);
      var price := Lookup(PricesAt(b.data, b.ts[n - 1]), a, 0.0);
      assert Closes(b, n, a) == Closes(b, n - 1, a) + [price];
      if b.useFilter {
        CurrentOfLast(Closes(b, n - 1, a), b.StateAt(n - 1).windows[a], price);
      }
    }
  }

  /** Without the filter a round acts on the first trigger. With it, it does so unless the last twenty closes of the
      asset, this round's included, are at least five and trend against the trigger. */
  lemma BacktestFilter(b: Backtest, n: nat, long: real, short: real)
    requires b.Ready() && n < |b.ts|
    ensures Tradable(b.Seen(n))
    ensures var base := FirstTrigger(b.config, b.StateAt(n).ledger.lastRebalance, b.Seen(n), 0);
            var t := b.TriggerOfRound(n);
            if !b.useFilter || base.None? then t == base
            else
              && base.value.symbol in b.assets
              && var closes := Closes(b, n + 1, base.value.symbol);
                 var window := if |closes| > 20 then closes[|closes| - 20..] else closes;
                 && (t == base || t == None)
                 && (|window| < 5 ==> t == base)
                 && (Window(window, long, short) ==>
                       (t == None <==>
                         long > 0.0
                         && if base.value.direction == Upside then short > 1.03 * long else short < 0.97 * long))
  {
    hide *;
    SeenTradable(b, n);
    RoundTrigger(b, n);
    var base := FirstTrigger(b.config, b.StateAt(n).ledger.lastRebalance, b.Seen(n), 0);
    if b.useFilter && base.Some? {
      var a := base.value.symbol;
      BacktestWindows(b, n, a);
      SeenPrice(b, n, a);
      FilteredTriggerExactly(b.config, b.StateAt(n).ledger.lastRebalance, b.StateAt(n).windows, b.Seen(n), long, short);
      ClosesSnoc(b, n, a);
      CurrentOfLast(Closes(b, n, a), b.StateAt(n).windows[a], Lookup(PricesAt(b.data, b.ts[n]), a, 0.0));
    }
  }

  lemma SeenTradable(b: Backtest, n: nat)
    requires b.Ready() && n < |b.ts|
    ensures Tradable(b.Seen(n)) && b.Seen(n).WellFormed()
    ensures forall a :: a in b.Seen(n).assets <==> a in b.assets
  {
    hide Backtest.StateAt, PricesAt, Mean, Ledger.TotalValue, Ledger.Value, Complete, Common;
    b.PricedAt(n);
  }

  lemma RoundTrigger(b: Backtest, n: nat)
    requires b.Ready() && n < |b.ts|
    ensures b.Seen(n).WellFormed()
    ensures var last := b.StateAt(n).ledger.lastRebalance;
            b.TriggerOfRound(n)
              == if b.useFilter then FilteredTrigger(b.config, last, b.StateAt(n).windows, b.Seen(n))
                 else FirstTrigger(b.config, last, b.Seen(n), 0)
  {
    hide Backtest.StateAt, PricesAt, Mean, Ledger.TotalValue, Ledger.Value, FirstTrigger, FilteredTrigger;
  }

  lemma SeenPrice(b: Backtest, n: nat, a: Symbol)
    requires b.Ready() && n < |b.ts| && a in b.Seen(n).assets
    ensures b.Seen(n).assets[a].currentPrice == Lookup(PricesAt(b.data, b.ts[n]), a, 0.0)
  {
    hide Backtest.StateAt, PricesAt, Mean, Ledger.TotalValue, Ledger.Value;
  }

  lemma ClosesSnoc(b: Backtest, n: nat, a: Symbol)
    requires n < |b.ts|
    ensures Closes(b, n + 1, a) == Closes(b, n, a) + [Lookup(PricesAt(b.data, b.ts[n]), a, 0.0)]
  {
    hide PricesAt;
  }

  // ----- spacing

  ghost predicate InTimeOrder(ts: seq<real>)
  {
    forall i, j :: 0 <= i < j < |ts| ==> ts[i] <= ts[j]
  }

  /** Over every backtest, each event comes a cooldown or more after every earlier executed trade of the asset
      that triggers it, initial purchases included. */
  lemma BacktestSpaced(b: Backtest)
    requires b.Ready() && InTimeOrder(b.ts)
    ensures AllValid(b.Setup(), b.Ops(|b.ts|))
    ensures Spaced(b.config, Run(b.Setup(), b.Ops(|b.ts|)).log)
    ensures EventsOf(Run(b.Setup(), b.Ops(|b.ts|)).log) == b.StateAt(|b.ts|).events
  {
    hide *;
    BacktestIsRun(b, |b.ts|);
    OpsInOrder(b);
    RunIsSpaced(b.Setup(), b.Ops(|b.ts|));
    SameConfig(b);
  }

  lemma SameConfig(b: Backtest)
    ensures b.Setup().config == b.config
  {
  }

  lemma OpsInOrder(b: Backtest)
    requires b.Ready() && InTimeOrder(b.ts)
    ensures InOrder(b.Ops(|b.ts|))
  {
    hide Backtest.CallOfRound, PricesAt, Backtest.Ready;
    var ops := b.Ops(|b.ts|);
    forall i | 1 <= i < |ops|
      ensures ops[i].timestamp == b.ts[i - 1]
    {
      b.CallValid(i - 1);
    }
  }
}
