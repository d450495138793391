/** What the rebalancer's statistics say about a run, and what they leave out. */
module StatisticsLaws {
  import opened Sums
  import opened Portfolio
  import opened Rebalancing
  import opened ConservationLaws
  import opened DownsideLaws
  import opened FundingLaws
  import opened TrendFiltering
  import opened Backtesting
  import opened BacktestSafety
  import opened TwoAssetExample

  // ----- fees against volume

  function FeeOn(value: real, fee: real): real
  {
    value * fee
  }

  /** The fees counted are the fee on the executed volume. */
  lemma {:induction false} FeesFollowExecutedVolume(fee: real, l: Ledger, actions: seq<RebalanceAction>)
    ensures var run := Execute(fee, l, actions);
            run.fees == FeeOn(ExecutedVolume(actions, run.executed), fee)
  {
    hide Attempt, FeeOn;
    if |actions| == 0 {
      AddedFee(0.0, 0.0, fee);
    } else {
      var n := |actions| - 1;
      var before := Execute(fee, l, actions[..n]);
      FeesFollowExecutedVolume(fee, l, actions[..n]);
      assert Execute(fee, l, actions).executed[..n] == before.executed;
      AddedFee(ExecutedVolume(actions[..n], before.executed), actions[n].valueUsdt, fee);
    }
  }

  lemma AddedFee(x: real, y: real, fee: real)
    ensures FeeOn(0.0, fee) == 0.0
    ensures FeeOn(x + y, fee) == FeeOn(x, fee) + y * fee
  {
  }

  /** Refused actions count in the volume but not in the executed volume. */
  lemma {:induction false} ExecutedWithinTotal(actions: seq<RebalanceAction>, executed: seq<bool>, minimum: real)
    requires |actions| == |executed| && minimum > 0.0 && AtLeast(actions, minimum)
    ensures ExecutedVolume(actions, executed) <= TotalVolume(actions)
    ensures ExecutedVolume(actions, executed) == TotalVolume(actions) <==> AllTrue(executed)
  {
    if |actions| == 0 {
    } else {
      var n := |actions| - 1;
      ExecutedWithinTotal(actions[..n], executed[..n], minimum);
      assert AllTrue(executed) <==> AllTrue(executed[..n]) && executed[n];
    }
  }

  /** An event's fees are at most the fee rate times its total volume, and equal to it exactly when no
      action was refused. */
  lemma EventFees(
    config: RebalanceConfig, assets: seq<Symbol>, l: Ledger, prices: map<Symbol, real>, timestamp: real, t: Trigger)
    requires Priced(assets, prices) && t.symbol in assets && config.minOrderValue > 0.0 && config.tradingFee > 0.0
    ensures var actions := Actions(config, assets, Snapshot(assets, l, prices, timestamp), t);
            var run := Execute(config.tradingFee, l, actions);
            && run.fees <= FeeOn(TotalVolume(actions), config.tradingFee)
            && (run.fees == FeeOn(TotalVolume(actions), config.tradingFee) <==> AllTrue(run.executed))
  {
    hide *;
    SnapshotIsTradable(assets, l, prices, timestamp);
    KnownSymbol(assets, l, prices, timestamp, t.symbol);
    var actions := Actions(config, assets, Snapshot(assets, l, prices, timestamp), t);
    var run := Execute(config.tradingFee, l, actions);
    ActionsAreFair(config, assets, l, prices, timestamp, t);
    FeesFollowExecutedVolume(config.tradingFee, l, actions);
    ExecutedWithinTotal(actions, run.executed, config.minOrderValue);
    Scaled(ExecutedVolume(actions, run.executed), TotalVolume(actions), config.tradingFee);
  }

  lemma Scaled(x: real, y: real, fee: real)
    requires x <= y && fee > 0.0
    ensures FeeOn(x, fee) <= FeeOn(y, fee) && (FeeOn(x, fee) == FeeOn(y, fee) <==> x == y)
  {
    assert (y - x) * fee >= 0.0;
    if x < y {
      assert (y - x) * fee > 0.0;
    }
  }

  // ----- which events are counted as triggers

  ghost predicate AllOfType(actions: seq<RebalanceAction>, kind: ActionType, side: Side)
  {
    forall i :: 0 <= i < |actions| ==> actions[i].actionType == kind && actions[i].side == side
  }

  lemma {:induction false} OrdersRedistribute(
    minimum: real, st: PortfolioState, side: Side, targets: seq<Symbol>, value: Symbol -> real)
    ensures AllOfType(Orders(minimum, st, side, targets, value), REDISTRIBUTE, side)
  {
    if |targets| == 0 {
    } else {
      var n := |targets| - 1;
      OrdersRedistribute(minimum, st, side, targets[..n], value);
      if Orderable(st, targets[n]) {
        var order := Order(st, REDISTRIBUTE, side, targets[n], value(targets[n]));
        assert order.actionType == REDISTRIBUTE && order.side == side;
      }
    }
  }

  /** How one event is counted: an upside event always as an upside trigger and never as a downside one. */
  ghost predicate CountedOnce(e: RebalanceEvent)
  {
    && !(HasType(e, SELL_UPSIDE) && HasType(e, BUY_DOWNSIDE))
    && (!HasType(e, SELL_UPSIDE) && !HasType(e, BUY_DOWNSIDE) ==> OnlySells(e))
  }

  /** Every action of the event sells to support a purchase that was not placed. */
  ghost predicate OnlySells(e: RebalanceEvent)
  {
    AllOfType(e.actions, REDISTRIBUTE, SELL)
  }

  lemma UpsideTypes(config: RebalanceConfig, assets: seq<Symbol>, st: PortfolioState, s: Symbol, e: RebalanceEvent)
    requires s in st.assets && e.actions == UpsideActions(config, assets, st, s) != []
    ensures HasType(e, SELL_UPSIDE) && !HasType(e, BUY_DOWNSIDE)
  {
    hide Orders, ToRedistribute, PerAsset, Others;
    var others := Others(assets, s);
    var sell := UpsideSell(config, st, s);
    assert sell.actionType == SELL_UPSIDE && e.actions[0] == sell;
    if |others| > 0 && ToRedistribute(config, sell.valueUsdt) > 0.0 {
      var buys := Orders(config.minOrderValue, st, BUY, others, Same(PerAsset(config, sell.valueUsdt, |others|)));
      OrdersRedistribute(config.minOrderValue, st, BUY, others, Same(PerAsset(config, sell.valueUsdt, |others|)));
      assert forall i :: 1 <= i < |e.actions| ==> e.actions[i] == buys[i - 1];
    }
  }

  lemma DownsideTypes(config: RebalanceConfig, st: PortfolioState, s: Symbol, e: RebalanceEvent)
    requires Tradable(st) && s in st.assets && e.actions == DownsideActions(config, st, s) != []
    ensures !HasType(e, SELL_UPSIDE)
    ensures !HasType(e, BUY_DOWNSIDE) ==> OnlySells(e)
  {
    hide Orders, SupportValue, NetProceeds, Excess, Outperformers;
    var sources := Outperformers(st, s);
    OrdersRedistribute(config.minOrderValue, st, SELL, sources,
                       SupportValue(st, Deficit(st, s), Sum(sources, Excess(st))));
    var sells := SupportOrders(config, st, s);
    var n := |e.actions| - 1;
    assert forall i :: 0 <= i < n && i < |sells| ==> e.actions[i].actionType == REDISTRIBUTE || n == 0;
    assert e.actions[n].actionType == BUY_DOWNSIDE ==> HasType(e, BUY_DOWNSIDE);
  }

  /** Every recorded event has at most one of the two trigger types, and one with neither only sells. */
  lemma EventIsCountedOnce(
    config: RebalanceConfig, assets: seq<Symbol>, l: Ledger, st: PortfolioState, prices: map<Symbol, real>,
    t: Option<Trigger>)
    requires Tradable(st) && (t.Some? ==> t.value.symbol in st.assets)
    ensures var event := Rebalanced(config, assets, l, st, prices, t).1;
            event.Some? ==> CountedOnce(event.value)
  {
    hide UpsideActions, DownsideActions, Execute, HasType, OnlySells, Snapshot;
    var event := Rebalanced(config, assets, l, st, prices, t).1;
    if event.Some? {
      match t.value.direction
      case Upside => UpsideTypes(config, assets, st, t.value.symbol, event.value);
      case Downside => DownsideTypes(config, st, t.value.symbol, event.value);
    }
  }

  ghost predicate AllCountedOnce(events: seq<RebalanceEvent>)
  {
    forall i :: 0 <= i < |events| ==> CountedOnce(events[i])
  }

  function CountNeither(events: seq<RebalanceEvent>): nat
  {
    if |events| == 0 then 0
    else
      var e := events[|events| - 1];
      CountNeither(events[..|events| - 1]) + if HasType(e, SELL_UPSIDE) || HasType(e, BUY_DOWNSIDE) then 0 else 1
  }

  lemma {:induction false} TriggersAddUp(events: seq<RebalanceEvent>)
    requires AllCountedOnce(events)
    ensures var s := StatisticsOf(events);
            s.upsideTriggers + s.downsideTriggers + CountNeither(events) == s.totalEvents == |events|
    ensures StatisticsOf(events).totalFees == TotalFees(events)
  {
    if |events| == 0 {
    } else {
      hide HasType, OnlySells;
      TriggersAddUp(events[..|events| - 1]);
    }
  }

  // ----- exactly which events are counted as neither

  /** A downside trigger whose support sales, if any, raise too little for the purchase. */
  predicate Unplaced(config: RebalanceConfig, st: PortfolioState, s: Symbol)
    requires s in st.assets
  {
    && config.minOrderValue <= Deficit(st, s) && st.usdtBalance < Deficit(st, s)
    && SupportOrders(config, st, s) != []
    && NetProceeds(config, SupportOrders(config, st, s)) <= config.minOrderValue
  }

  lemma SourcesExceed(st: PortfolioState, s: Symbol)
    ensures |Outperformers(st, s)| > 0 ==> Sum(Outperformers(st, s), Excess(st)) > 0.0
  {
    var sources := Outperformers(st, s);
    if |sources| > 0 {
      assert sources[0] in sources;
      SumAtLeastTerm(sources, Excess(st), sources[0]);
    }
  }

  /** The downside list by cases, without its two unreachable guards. */
  lemma DownsideListIs(config: RebalanceConfig, st: PortfolioState, s: Symbol)
    requires Tradable(st) && s in st.assets
    ensures var sells := SupportOrders(config, st, s);
            DownsideActions(config, st, s) ==
              if Deficit(st, s) < config.minOrderValue then []
              else if st.usdtBalance >= Deficit(st, s) then [Order(st, BUY_DOWNSIDE, BUY, s, Deficit(st, s))]
              else if sells == [] && Outperformers(st, s) == [] then []
              else if NetProceeds(config, sells) > config.minOrderValue
                then sells + [Order(st, BUY_DOWNSIDE, BUY, s, NetProceeds(config, sells))]
              else sells
  {
    hide Outperformers, Excess, NetProceeds, Order, SupportValue;
    SourcesExceed(st, s);
    assert Outperformers(st, s) == [] ==> SupportOrders(config, st, s) == [];
  }

  lemma SalesRedistribute(config: RebalanceConfig, st: PortfolioState, s: Symbol)
    requires s in st.assets
    ensures AllOfType(SupportOrders(config, st, s), REDISTRIBUTE, SELL)
  {
    var sources := Outperformers(st, s);
    OrdersRedistribute(config.minOrderValue, st, SELL, sources,
                       SupportValue(st, Deficit(st, s), Sum(sources, Excess(st))));
  }

  /** A downside trigger leads to an event without a purchase exactly when the purchase is left unplaced. */
  lemma UnplacedExactly(config: RebalanceConfig, st: PortfolioState, s: Symbol, e: RebalanceEvent)
    requires Tradable(st) && s in st.assets && e.actions == DownsideActions(config, st, s)
    ensures e.actions != [] && !HasType(e, BUY_DOWNSIDE) <==> Unplaced(config, st, s)
  {
    hide Outperformers, NetProceeds, SupportOrders, DownsideActions, HasType;
    var sells := SupportOrders(config, st, s);
    DownsideListIs(config, st, s);
    SalesRedistribute(config, st, s);
    NoSources(config, st, s);
    if Deficit(st, s) < config.minOrderValue {
    } else if st.usdtBalance >= Deficit(st, s) {
      LastHas(e, BUY_DOWNSIDE);
    } else if e.actions == sells {
      UniformLacks(e, REDISTRIBUTE, SELL, BUY_DOWNSIDE);
    } else if e.actions != [] {
      LastHas(e, BUY_DOWNSIDE);
    }
  }

  lemma NoSources(config: RebalanceConfig, st: PortfolioState, s: Symbol)
    requires s in st.assets
    ensures Outperformers(st, s) == [] ==> SupportOrders(config, st, s) == []
  {
    hide Outperformers, Excess;
  }

  lemma LastHas(e: RebalanceEvent, kind: ActionType)
    requires |e.actions| > 0 && e.actions[|e.actions| - 1].actionType == kind
    ensures HasType(e, kind)
  {
  }

  lemma UniformLacks(e: RebalanceEvent, kind: ActionType, side: Side, other: ActionType)
    requires AllOfType(e.actions, kind, side) && kind != other
    ensures !HasType(e, other)
  {
  }

  /** What a trigger means for the counts. */
  ghost predicate CountsAsNeither(config: RebalanceConfig, st: PortfolioState, t: Option<Trigger>)
    requires t.Some? ==> t.value.symbol in st.assets
  {
    t.Some? && t.value.direction == Downside && Unplaced(config, st, t.value.symbol)
  }

  /** A rebalance adds an event counted as neither exactly on a downside trigger whose purchase is left unplaced. */
  lemma NeitherExactly(
    config: RebalanceConfig, assets: seq<Symbol>, l: Ledger, st: PortfolioState, prices: map<Symbol, real>,
    t: Option<Trigger>)
    requires Tradable(st) && (t.Some? ==> t.value.symbol in st.assets)
    ensures var event := Rebalanced(config, assets, l, st, prices, t).1;
            event.Some? && !HasType(event.value, SELL_UPSIDE) && !HasType(event.value, BUY_DOWNSIDE)
            <==> CountsAsNeither(config, st, t)
  {
    hide UpsideActions, DownsideActions, Execute, HasType, Snapshot, Unplaced;
    if t.Some? {
      var actions := Actions(config, assets, st, t.value);
      var run := Execute(config.tradingFee, l, actions);
      var e := RebalanceEvent(st.timestamp, t.value.symbol, t.value.deviation, actions, st,
                              Snapshot(assets, run.ledger, prices, st.timestamp), run.fees);
      match t.value.direction
      case Upside =>
        if actions != [] {
          UpsideTypes(config, assets, st, t.value.symbol, e);
        }
      case Downside =>
        UnplacedExactly(config, st, t.value.symbol, e);
        if actions != [] {
          DownsideTypes(config, st, t.value.symbol, e);
        }
    }
  }

  // ----- every figure, over the recorded events

  function ActionCount(): RebalanceEvent -> real
  {
    (e: RebalanceEvent) => |e.actions| as real
  }

  function ActionVolume(): RebalanceEvent -> real
  {
    (e: RebalanceEvent) => Sum(e.actions, (a: RebalanceAction) => a.valueUsdt)
  }

  function FeesOf(): RebalanceEvent -> real
  {
    (e: RebalanceEvent) => e.feesPaid
  }

  /** Some action of the event sells the asset that rose. */
  function SellsUpside(): RebalanceEvent -> bool
  {
    (e: RebalanceEvent) => exists i :: 0 <= i < |e.actions| && e.actions[i].actionType.SELL_UPSIDE?
  }

  /** Some action of the event buys the asset that fell. */
  function BuysDownside(): RebalanceEvent -> bool
  {
    (e: RebalanceEvent) => exists i :: 0 <= i < |e.actions| && e.actions[i].actionType.BUY_DOWNSIDE?
  }

  /** The statistics are the numbers of events and actions, the volume and the fees, and the numbers of events that sell
      for an upside trigger and that buy for a downside one. */
  lemma {:induction false} StatisticsExactly(events: seq<RebalanceEvent>)
    ensures var s := StatisticsOf(events);
            && s.totalEvents == |events|
            && s.totalActions as real == Sum(events, ActionCount())
            && s.totalVolume == Sum(events, ActionVolume())
            && s.totalFees == Sum(events, FeesOf())
            && s.upsideTriggers == |Filter(events, SellsUpside())|
            && s.downsideTriggers == |Filter(events, BuysDownside())|
  {
    if |events| == 0 {
    } else {
      hide HasType, TotalVolume;
      var n := |events| - 1;
      StatisticsExactly(events[..n]);
      TypesAre(events[n]);
      VolumeIs(events[n].actions);
    }
  }

  lemma TypesAre(e: RebalanceEvent)
    ensures HasType(e, SELL_UPSIDE) == SellsUpside()(e) && HasType(e, BUY_DOWNSIDE) == BuysDownside()(e)
  {
  }

  lemma VolumeIs(actions: seq<RebalanceAction>)
    ensures TotalVolume(actions) == Sum(actions, (a: RebalanceAction) => a.valueUsdt)
  {
    SumCongruent(actions, Volume(), (a: RebalanceAction) => a.valueUsdt);
  }

  /** Rounds of a backtest whose downside purchase is left unplaced. */
  ghost function UnplacedRounds(b: Backtest, n: nat): nat
    requires b.Ready() && n <= |b.ts|
  {
    if n == 0 then 0
    else
      KnownTrigger(b, n - 1);
      UnplacedRounds(b, n - 1) + if CountsAsNeither(b.config, b.Seen(n - 1), b.TriggerOfRound(n - 1)) then 1 else 0
  }

  lemma KnownTrigger(b: Backtest, n: nat)
    requires b.Ready() && n < |b.ts|
    ensures b.TriggerOfRound(n).Some? ==> b.TriggerOfRound(n).value.symbol in b.Seen(n).assets
  {
    hide *;
    if b.TriggerOfRound(n).Some? {
      KnownToRound(b, n, b.TriggerOfRound(n).value.symbol);
    }
  }

  lemma NeitherSnoc(events: seq<RebalanceEvent>, e: RebalanceEvent)
    ensures CountNeither(events + [e])
         == CountNeither(events) + if HasType(e, SELL_UPSIDE) || HasType(e, BUY_DOWNSIDE) then 0 else 1
    ensures events + [] == events
  {
    hide HasType;
    assert (events + [e])[..|events|] == events;
  }

  /** The events of one more round. */
  lemma RoundEvents(b: Backtest, n: nat)
    requires b.Ready() && n < |b.ts|
    ensures Tradable(b.Seen(n)) && Priced(b.assets, b.Prices(n))
    ensures b.TriggerOfRound(n).Some? ==> b.TriggerOfRound(n).value.symbol in b.Seen(n).assets
    ensures var event := Rebalanced(b.config, b.assets, b.StateAt(n).ledger, b.Seen(n), b.Prices(n),
                                    b.TriggerOfRound(n)).1;
            b.StateAt(n + 1).events == b.StateAt(n).events + if event.Some? then [event.value] else []
  {
    hide Rebalanced, Mean, Ledger.TotalValue, FirstTrigger, FilteredTrigger, Pushed, Backtest.StateAt, PricesAt,
      Complete, Common;
    b.StateSnoc(n);
  }

  lemma NeitherStep(b: Backtest, n: nat)
    requires b.Ready() && n < |b.ts| && CountNeither(b.StateAt(n).events) == UnplacedRounds(b, n)
    ensures CountNeither(b.StateAt(n + 1).events) == UnplacedRounds(b, n + 1)
  {
    UnplacedSnoc(b, n);
    hide *;
    RoundEvents(b, n);
    var l, t := b.StateAt(n).ledger, b.TriggerOfRound(n);
    var event := Rebalanced(b.config, b.assets, l, b.Seen(n), b.Prices(n), t).1;
    NeitherExactly(b.config, b.assets, l, b.Seen(n), b.Prices(n), t);
    if event.Some? {
      NeitherSnoc(b.StateAt(n).events, event.value);
    } else {
      assert b.StateAt(n).events + [] == b.StateAt(n).events;
    }
  }

  lemma UnplacedSnoc(b: Backtest, n: nat)
    requires b.Ready() && n < |b.ts|
    ensures b.TriggerOfRound(n).Some? ==> b.TriggerOfRound(n).value.symbol in b.Seen(n).assets
    ensures UnplacedRounds(b, n + 1)
         == UnplacedRounds(b, n) + if CountsAsNeither(b.config, b.Seen(n), b.TriggerOfRound(n)) then 1 else 0
  {
    hide Backtest.Seen, Backtest.TriggerOfRound, Backtest.Ready, CountsAsNeither, Backtest.StateAt;
    KnownTrigger(b, n);
  }

  lemma StartHasNoEvents(b: Backtest)
    requires b.Ready()
    ensures b.StateAt(0).events == []
  {
    hide PricesAt;
    assert b.ts[..0] == [];
  }

  lemma {:induction false} NeitherRounds(b: Backtest, n: nat)
    requires b.Ready() && n <= |b.ts|
    ensures CountNeither(b.StateAt(n).events) == UnplacedRounds(b, n)
  {
    hide Backtest.Ready, Backtest.StateAt, CountsAsNeither, Backtest.Seen, Backtest.TriggerOfRound;
    if n == 0 {
      StartHasNoEvents(b);
    } else {
      NeitherRounds(b, n - 1);
      NeitherStep(b, n - 1);
    }
  }

  lemma AllCountedSnoc(events: seq<RebalanceEvent>, e: RebalanceEvent)
    requires AllCountedOnce(events) && CountedOnce(e)
    ensures AllCountedOnce(events + [e])
  {
    hide CountedOnce;
  }

  lemma CountedOnceStep(b: Backtest, n: nat)
    requires b.Ready() && n < |b.ts| && AllCountedOnce(b.StateAt(n).events)
    ensures AllCountedOnce(b.StateAt(n + 1).events)
  {
    hide *;
    RoundEvents(b, n);
    var l, t := b.StateAt(n).ledger, b.TriggerOfRound(n);
    var event := Rebalanced(b.config, b.assets, l, b.Seen(n), b.Prices(n), t).1;
    EventIsCountedOnce(b.config, b.assets, l, b.Seen(n), b.Prices(n), t);
    if event.Some? {
      AllCountedSnoc(b.StateAt(n).events, event.value);
    } else {
      assert b.StateAt(n).events + [] == b.StateAt(n).events;
    }
  }

  lemma {:induction false} RoundsCountedOnce(b: Backtest, n: nat)
    requires b.Ready() && n <= |b.ts|
    ensures AllCountedOnce(b.StateAt(n).events)
  {
    hide Backtest.Ready, Backtest.StateAt, CountedOnce;
    if n == 0 {
      StartHasNoEvents(b);
    } else {
      RoundsCountedOnce(b, n - 1);
      CountedOnceStep(b, n - 1);
    }
  }

  /** After every round of every backtest: upside and downside triggers fall short of the number of events by
      exactly the number of rounds whose downside purchase was left unplaced. */
  lemma BacktestStatistics(b: Backtest, n: nat)
    requires b.Ready() && n <= |b.ts|
    ensures var stats := StatisticsOf(b.StateAt(n).events);
            && stats.upsideTriggers + stats.downsideTriggers + UnplacedRounds(b, n) == stats.totalEvents
            && stats.totalEvents == |b.StateAt(n).events|
            && stats.totalFees == TotalFees(b.StateAt(n).events)
  {
    hide *;
    RoundsCountedOnce(b, n);
    NeitherRounds(b, n);
    TriggersAddUp(b.StateAt(n).events);
  }

  /** A state that does it: with a minimum order of 75 the quarter of B is sold for 75, the net 74.925 is below the
      minimum, and the event is counted as neither. */
  lemma UnplacedExample(config: RebalanceConfig)
    requires config.minOrderValue == 75.0 && config.tradingFee == 0.001
    requires config.downsideThreshold == 0.35 && config.upsideThreshold == 0.4
    ensures Tradable(State()) && FirstTrigger(config, map[], State(), 0) == Some(Trigger("A", -0.5, Downside))
    ensures var event := Rebalanced(config, ASSETS, LEDGER, State(), PRICES, Some(Trigger("A", -0.5, Downside))).1;
            && event.Some?
            && StatisticsOf([event.value]).totalEvents == 1
            && StatisticsOf([event.value]).upsideTriggers == StatisticsOf([event.value]).downsideTriggers == 0
  {
    StateIs();
    SourcesAre();
    SaleIs(config);
    hide Snapshot, State, Mean, SupportOrders, Outperformers, Excess, SupportValue, Rebalanced, HasType;
    var t := Trigger("A", -0.5, Downside);
    assert State().Deviation("A") == -0.5;
    NeitherExactly(config, ASSETS, LEDGER, State(), PRICES, Some(t));
    var e := Rebalanced(config, ASSETS, LEDGER, State(), PRICES, Some(t)).1.value;
    assert [e][..0] == [];
  }

  /** An event that wins: with a negative minimum order and a negative sell percentage the "sale" of B is worth -30 and
      its fee is -0.03. */
  lemma NegativeMinimumWins(config: RebalanceConfig)
    requires config.minOrderValue == -100.0 && config.sellPercentage == -0.1 && config.tradingFee == 0.001
    requires config.downsideThreshold == 0.6 && config.upsideThreshold == 0.4 && config.usdtReserve == 0.3
    ensures Tradable(State()) && FirstTrigger(config, map[], State(), 0) == Some(Trigger("B", 0.5, Upside))
    ensures var event := Rebalanced(config, ASSETS, LEDGER, State(), PRICES, Some(Trigger("B", 0.5, Upside))).1;
            event.Some? && event.value.feesPaid == -0.03 && Wins(event.value)
  {
    StateIs();
    NegativeSale(config);
    hide Mean, Snapshot, Ledger.TotalValue, UpsideActions, UpsideSell, State;
    assert State().Deviation("A") == -0.5 && State().Deviation("B") == 0.5;
    StateAtZero();
    EventCostsItsFees(config, ASSETS, LEDGER, PRICES, 0.0, Some(Trigger("B", 0.5, Upside)));
  }

  lemma StateAtZero()
    ensures State() == Snapshot(ASSETS, LEDGER, PRICES, 0.0) && State().timestamp == 0.0
  {
  }

  /** The only action, which is accepted. */
  lemma NegativeSale(config: RebalanceConfig)
    requires config.minOrderValue == -100.0 && config.sellPercentage == -0.1 && config.tradingFee == 0.001
    requires config.usdtReserve == 0.3
    ensures "B" in State().assets
    ensures var actions := UpsideActions(config, ASSETS, State(), "B");
            actions != [] && Execute(config.tradingFee, LEDGER, actions).fees == -0.03
  {
    StateIs();
    hide Mean, Orders;
    var sell := UpsideSell(config, State(), "B");
    assert sell.quantity == -30.0 && sell.price == 1.0 && sell.valueUsdt == -30.0;
    assert ToRedistribute(config, -30.0) < 0.0;
    assert UpsideActions(config, ASSETS, State(), "B") == [sell];
    assert [sell][..0] == [];
    assert Execute(config.tradingFee, LEDGER, []) == Execution(LEDGER, 0.0, []);
    assert Attempt(config.tradingFee, LEDGER, sell).Success?;
  }
}
