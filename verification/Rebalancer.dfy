/** The threshold cascade: which asset triggers, which actions follow, and how they execute. */
module Rebalancing {
  import opened Sums
  import opened Portfolio
  import opened PortfolioTracking

  datatype Direction = Upside | Downside

  datatype Trigger = Trigger(symbol: Symbol, deviation: real, direction: Direction)

  /** A state whose dictionary order is complete and whose prices are strictly positive. */
  ghost predicate Tradable(st: PortfolioState)
  {
    st.WellFormed() && forall s :: s in st.assets ==> st.assets[s].currentPrice > 0.0
  }

  // ----- trigger selection

  function TriggerOf(config: RebalanceConfig, last: map<Symbol, real>, st: PortfolioState, s: Symbol): Option<Trigger>
    requires s in st.assets
  {
    if InCooldown(config, last, s, st.timestamp) then None
    else if st.Deviation(s) > config.upsideThreshold then Some(Trigger(s, st.Deviation(s), Upside))
    else if st.Deviation(s) < -config.downsideThreshold then Some(Trigger(s, st.Deviation(s), Downside))
    else None
  }

  /** First trigger among the assets from index i on, in dictionary order. */
  function FirstTrigger(config: RebalanceConfig, last: map<Symbol, real>, st: PortfolioState, i: nat)
    : (r: Option<Trigger>)
    requires i <= |st.symbols| && st.WellFormed()
    ensures r.Some? ==> r.value.symbol in st.assets
    decreases |st.symbols| - i
  {
    if i == |st.symbols| then None
    else
      var t := TriggerOf(config, last, st, st.symbols[i]);
      if t.Some? then t else FirstTrigger(config, last, st, i + 1)
  }

  // ----- actions after an upside trigger

  function IsNot(s: Symbol): Symbol -> bool
  {
    a => a != s
  }

  function Others(assets: seq<Symbol>, s: Symbol): seq<Symbol>
  {
    Filter(assets, IsNot(s))
  }

  function UpsideSell(config: RebalanceConfig, st: PortfolioState, s: Symbol): RebalanceAction
    requires s in st.assets
  {
    var quantity := st.assets[s].quantity * config.sellPercentage;
    var price := st.assets[s].currentPrice;
    RebalanceAction(st.timestamp, SELL_UPSIDE, s, SELL, quantity, price, quantity * price)
  }

  /** What is left of the proceeds after the fee and the USDT reserve. */
  function ToRedistribute(config: RebalanceConfig, sellValue: real): real
  {
    var proceeds := sellValue - sellValue * config.tradingFee;
    proceeds - proceeds * config.usdtReserve
  }

  /** An order for the given value of an asset at its current price. */
  function Order(st: PortfolioState, kind: ActionType, side: Side, s: Symbol, value: real): RebalanceAction
    requires s in st.assets && st.assets[s].currentPrice > 0.0
  {
    var price := st.assets[s].currentPrice;
    RebalanceAction(st.timestamp, kind, s, side, value / price, price, value)
  }

  predicate Orderable(st: PortfolioState, s: Symbol)
  {
    s in st.assets && st.assets[s].currentPrice > 0.0
  }

  /** One order per target, each worth value(target), leaving out those below the minimum. */
  function Orders(minimum: real, st: PortfolioState, side: Side, targets: seq<Symbol>, value: Symbol -> real)
    : seq<RebalanceAction>
  {
    if |targets| == 0 then []
    else
      var n := |targets| - 1;
      var rest := Orders(minimum, st, side, targets[..n], value);
      if !Orderable(st, targets[n]) || value(targets[n]) < minimum then rest
      else rest + [Order(st, REDISTRIBUTE, side, targets[n], value(targets[n]))]
  }

  function Same(value: real): Symbol -> real
  {
    s => value
  }

  function PerAsset(config: RebalanceConfig, sellValue: real, n: nat): real
    requires n > 0
  {
    ToRedistribute(config, sellValue) / n as real
  }

  function UpsideActions(config: RebalanceConfig, assets: seq<Symbol>, st: PortfolioState, s: Symbol)
    : seq<RebalanceAction>
    requires s in st.assets
  {
    var sell := UpsideSell(config, st, s);
    var others := Others(assets, s);
    if sell.valueUsdt < config.minOrderValue then []
    else if |others| > 0 && ToRedistribute(config, sell.valueUsdt) > 0.0 then
      [sell] + Orders(config.minOrderValue, st, BUY, others, Same(PerAsset(config, sell.valueUsdt, |others|)))
    else [sell]
  }

  // ----- actions after a downside trigger

  function Excess(st: PortfolioState): Symbol -> real
  {
    s => if s in st.assets then st.assets[s].valueUsdt - st.meanAssetValue else 0.0
  }

  /** Another asset worth more than the mean. */
  function IsOutperformer(st: PortfolioState, s: Symbol): Symbol -> bool
  {
    a => a != s && Excess(st)(a) > 0.0
  }

  function Outperformers(st: PortfolioState, s: Symbol): seq<Symbol>
  {
    Filter(st.symbols, IsOutperformer(st, s))
  }

  /** Value sold from each outperformer: its share of the deficit, capped at a quarter of its value. */
  function SupportValue(st: PortfolioState, deficit: real, totalExcess: real): Symbol -> real
  {
    s => if s in st.assets && totalExcess > 0.0
         then Min(deficit * Min(Excess(st)(s) / totalExcess, 1.0), st.assets[s].valueUsdt * 0.25)
         else 0.0
  }

  function Volume(): RebalanceAction -> real
  {
    (a: RebalanceAction) => a.valueUsdt
  }

  function TotalVolume(actions: seq<RebalanceAction>): real
  {
    Sum(actions, Volume())
  }

  /** What the given sells bring in after fees. */
  function NetProceeds(config: RebalanceConfig, sells: seq<RebalanceAction>): real
  {
    TotalVolume(sells) * (1.0 - config.tradingFee)
  }

  function Deficit(st: PortfolioState, s: Symbol): real
    requires s in st.assets
  {
    st.meanAssetValue - st.assets[s].valueUsdt
  }

  /** The sales a downside trigger asks for. */
  function SupportOrders(config: RebalanceConfig, st: PortfolioState, s: Symbol): seq<RebalanceAction>
    requires s in st.assets
  {
    var sources := Outperformers(st, s);
    Orders(config.minOrderValue, st, SELL, sources, SupportValue(st, Deficit(st, s), Sum(sources, Excess(st))))
  }

  function DownsideActions(config: RebalanceConfig, st: PortfolioState, s: Symbol): seq<RebalanceAction>
    requires Tradable(st) && s in st.assets
  {
    var deficit := Deficit(st, s);
    var sources := Outperformers(st, s);
    if deficit < config.minOrderValue then []
    else if st.usdtBalance >= deficit then [Order(st, BUY_DOWNSIDE, BUY, s, deficit)]
    else if |sources| == 0 || Sum(sources, Excess(st)) <= 0.0 then []
    else
      var sells := SupportOrders(config, st, s);
      var proceeds := NetProceeds(config, sells);
      if proceeds > config.minOrderValue then sells + [Order(st, BUY_DOWNSIDE, BUY, s, proceeds)] else sells
  }

  function Actions(config: RebalanceConfig, assets: seq<Symbol>, st: PortfolioState, t: Trigger): seq<RebalanceAction>
    requires Tradable(st) && t.symbol in st.assets
  {
    match t.direction
    case Upside => UpsideActions(config, assets, st, t.symbol)
    case Downside => DownsideActions(config, st, t.symbol)
  }

  // ----- execution

  /** Outcome of running actions one by one, skipping those that are refused. */
  datatype Execution = Execution(ledger: Ledger, fees: real, executed: seq<bool>)

  function Attempt(fee: real, l: Ledger, a: RebalanceAction): Result<(Ledger, real), TradeError>
  {
    Trade(fee, l, a.symbol, a.quantity, a.price, a.side, a.timestamp)
  }

  function Execute(fee: real, l: Ledger, actions: seq<RebalanceAction>): (r: Execution)
    ensures |r.executed| == |actions|
  {
    if |actions| == 0 then Execution(l, 0.0, [])
    else
      var n := |actions| - 1;
      var before := Execute(fee, l, actions[..n]);
      match Attempt(fee, before.ledger, actions[n])
      case Success(out) => Execution(out.0, before.fees + actions[n].valueUsdt * fee, before.executed + [true])
      case Failure(_) => Execution(before.ledger, before.fees, before.executed + [false])
  }

  /** Ledger and event after acting on a trigger; without one, or without actions, nothing happens. */
  function Rebalanced(
    config: RebalanceConfig, assets: seq<Symbol>, l: Ledger, st: PortfolioState, prices: map<Symbol, real>,
    t: Option<Trigger>): (Ledger, Option<RebalanceEvent>)
    requires Tradable(st) && (t.Some? ==> t.value.symbol in st.assets)
  {
    if t.None? then (l, None)
    else
      var actions := Actions(config, assets, st, t.value);
      if actions == [] then (l, None)
      else
        var run := Execute(config.tradingFee, l, actions);
        (run.ledger,
         Some(RebalanceEvent(st.timestamp, t.value.symbol, t.value.deviation, actions, st,
                             Snapshot(assets, run.ledger, prices, st.timestamp), run.fees)))
  }

  // ----- statistics

  datatype RebalanceStatistics = RebalanceStatistics(
    totalEvents: nat,
    totalActions: nat,
    totalVolume: real,
    totalFees: real,
    upsideTriggers: nat,
    downsideTriggers: nat)

  /** The event has an action of the given type. */
  predicate HasType(e: RebalanceEvent, kind: ActionType)
  {
    exists i :: 0 <= i < |e.actions| && e.actions[i].actionType == kind
  }

  function StatisticsOf(events: seq<RebalanceEvent>): RebalanceStatistics
  {
    if |events| == 0 then RebalanceStatistics(0, 0, 0.0, 0.0, 0, 0)
    else
      var s := StatisticsOf(events[..|events| - 1]);
      var e := events[|events| - 1];
      RebalanceStatistics(
        s.totalEvents + 1, s.totalActions + |e.actions|, s.totalVolume + TotalVolume(e.actions),
        s.totalFees + e.feesPaid,
        s.upsideTriggers + (if HasType(e, SELL_UPSIDE) then 1 else 0),
        s.downsideTriggers + (if HasType(e, BUY_DOWNSIDE) then 1 else 0))
  }

  function AverageActions(s: RebalanceStatistics): (r: Option<real>)
    ensures r.Some? <==> s.totalEvents > 0
    ensures r.Some? ==> r.value * s.totalEvents as real == s.totalActions as real
  {
    if s.totalEvents == 0 then None else Some(s.totalActions as real / s.totalEvents as real)
  }

  class ThresholdCascadeRebalancer {
    const assets: seq<Symbol>
    const config: RebalanceConfig
    const tracker: PortfolioTracker
    var rebalanceHistory: seq<RebalanceEvent>

    ghost predicate Valid()
      reads this, tracker
    {
      tracker.Valid() && tracker.assets == assets && tracker.config == config
    }

    /** The histories grew by the event and its final state, or not at all. */
    ghost predicate Recorded(states: seq<PortfolioState>, events: seq<RebalanceEvent>, event: Option<RebalanceEvent>)
      reads this, tracker
    {
      match event
      case None => tracker.portfolioHistory == states && rebalanceHistory == events
      case Some(e) => tracker.portfolioHistory == states + [e.after] && rebalanceHistory == events + [e]
    }

    constructor (assets: seq<Symbol>, config: RebalanceConfig, tracker: PortfolioTracker)
      requires tracker.Valid() && tracker.assets == assets && tracker.config == config
      ensures Valid() && rebalanceHistory == []
      ensures this.assets == assets && this.config == config && this.tracker == tracker
    {
      this.assets, this.config, this.tracker := assets, config, tracker;
      rebalanceHistory := [];
    }

    method CheckRebalanceNeeded(state: PortfolioState) returns (t: Option<Trigger>)
      requires Valid() && state.WellFormed()
      ensures t == FirstTrigger(config, tracker.lastRebalance, state, 0)
    {
      var deviations := state.GetDeviations();
      for i := 0 to |state.symbols|
        invariant FirstTrigger(config, tracker.lastRebalance, state, 0)
               == FirstTrigger(config, tracker.lastRebalance, state, i)
      {
        var symbol := state.symbols[i];
        var deviation := deviations[symbol];
        var cooling := tracker.CheckCooldown(symbol, state.timestamp);
        if cooling {
          continue;
        }
        if deviation > config.upsideThreshold {
          return Some(Trigger(symbol, deviation, Upside));
        } else if deviation < -config.downsideThreshold {
          return Some(Trigger(symbol, deviation, Downside));
        }
      }
      return None;
    }

    method HandleUpside(state: PortfolioState, symbol: Symbol) returns (actions: seq<RebalanceAction>)
      requires Tradable(state) && symbol in state.assets
      ensures actions == UpsideActions(config, assets, state, symbol)
    {
      var sell := UpsideSell(config, state, symbol);
      if sell.valueUsdt < config.minOrderValue {
        return [];
      }
      actions := [sell];
      var others := Others(assets, symbol);
      if |others| > 0 && ToRedistribute(config, sell.valueUsdt) > 0.0 {
        var buys := PlaceOrders(state, BUY, others, Same(PerAsset(config, sell.valueUsdt, |others|)));
        actions := actions + buys;
      }
    }

    /** Walks over the targets, skipping unpriced assets and orders below the minimum. */
    method PlaceOrders(state: PortfolioState, side: Side, targets: seq<Symbol>, value: Symbol -> real)
      returns (actions: seq<RebalanceAction>)
      ensures actions == Orders(config.minOrderValue, state, side, targets, value)
    {
      actions := [];
      for i := 0 to |targets|
        invariant actions == Orders(config.minOrderValue, state, side, targets[..i], value)
      {
        assert targets[..i + 1][..i] == targets[..i];
        var target := targets[i];
        if target !in state.assets || state.assets[target].currentPrice <= 0.0 {
          continue;
        }
        if value(target) < config.minOrderValue {
          continue;
        }
        actions := actions + [Order(state, REDISTRIBUTE, side, target, value(target))];
      }
      assert targets[..|targets|] == targets;
    }

    method HandleDownside(state: PortfolioState, symbol: Symbol) returns (actions: seq<RebalanceAction>)
      requires Tradable(state) && symbol in state.assets
      ensures actions == DownsideActions(config, state, symbol)
    {
      var deficit := Deficit(state, symbol);
      if deficit < config.minOrderValue {
        return [];
      }
      if state.usdtBalance >= deficit {
        return [Order(state, BUY_DOWNSIDE, BUY, symbol, deficit)];
      }
      var sources := Outperformers(state, symbol);
      if |sources| == 0 {
        return [];
      }
      var totalExcess := Sum(sources, Excess(state));
      if totalExcess <= 0.0 {
        return [];
      }
      actions := PlaceOrders(state, SELL, sources, SupportValue(state, deficit, totalExcess));
      var proceeds := NetProceeds(config, actions);
      if proceeds > config.minOrderValue {
        actions := actions + [Order(state, BUY_DOWNSIDE, BUY, symbol, proceeds)];
      }
    }

    /** Runs the actions in order against the tracker; a refused action is skipped. */
    method RunActions(actions: seq<RebalanceAction>) returns (totalFees: real)
      requires Valid()
      modifies tracker`positions, tracker`usdtBalance, tracker`lastRebalance
      ensures Valid()
      ensures tracker.Book() == Execute(config.tradingFee, old(tracker.Book()), actions).ledger
      ensures totalFees == Execute(config.tradingFee, old(tracker.Book()), actions).fees
    {
      totalFees := 0.0;
      for i := 0 to |actions|
        invariant Valid()
        invariant tracker.Book() == Execute(config.tradingFee, old(tracker.Book()), actions[..i]).ledger
        invariant totalFees == Execute(config.tradingFee, old(tracker.Book()), actions[..i]).fees
      {
        assert actions[..i + 1][..i] == actions[..i];
        var action := actions[i];
        if action.side == BUY || action.side == SELL {
          var r := tracker.ExecuteTrade(action.symbol, action.quantity, action.price, action.side, action.timestamp);
          if r.Success? {
            totalFees := totalFees + action.valueUsdt * config.tradingFee;
          }
        }
      }
      assert actions[..|actions|] == actions;
    }

    /** Carries out the rebalance for a trigger and records the event. */
    method ExecuteTrigger(state: PortfolioState, prices: map<Symbol, real>, trigger: Trigger)
      returns (event: Option<RebalanceEvent>)
      requires Valid() && Tradable(state) && trigger.symbol in state.assets
      modifies this`rebalanceHistory, tracker
      ensures Valid()
      ensures (tracker.Book(), event)
           == Rebalanced(config, assets, old(tracker.Book()), state, prices, Some(trigger))
      ensures Recorded(old(tracker.portfolioHistory), old(rebalanceHistory), event)
    {
      var actions;
      if trigger.direction == Upside {
        actions := HandleUpside(state, trigger.symbol);
      } else {
        actions := HandleDownside(state, trigger.symbol);
      }
      if actions == [] {
        return None;
      }
      var totalFees := RunActions(actions);
      var after := tracker.UpdatePrices(prices, state.timestamp);
      event := Some(RebalanceEvent(state.timestamp, trigger.symbol, trigger.deviation, actions, state, after,
                                   totalFees));
      rebalanceHistory := rebalanceHistory + [event.value];
    }

    /** Checks for a trigger and, if there is one, carries out the rebalance. */
    method ExecuteRebalance(state: PortfolioState, prices: map<Symbol, real>) returns (event: Option<RebalanceEvent>)
      requires Valid() && Tradable(state)
      modifies this`rebalanceHistory, tracker
      ensures Valid()
      ensures (tracker.Book(), event)
           == Rebalanced(config, assets, old(tracker.Book()), state, prices,
                         FirstTrigger(config, old(tracker.lastRebalance), state, 0))
      ensures Recorded(old(tracker.portfolioHistory), old(rebalanceHistory), event)
    {
      var trigger := CheckRebalanceNeeded(state);
      if trigger.None? {
        return None;
      }
      event := ExecuteTrigger(state, prices, trigger.value);
    }

    /** Figures over all recorded events; the average number of actions is missing without events. */
    method GetStatistics() returns (stats: RebalanceStatistics, actionsPerEvent: Option<real>)
      ensures stats == StatisticsOf(rebalanceHistory)
      ensures actionsPerEvent == AverageActions(stats)
    {
      hide HasType, TotalVolume;
      stats := RebalanceStatistics(0, 0, 0.0, 0.0, 0, 0);
      for i := 0 to |rebalanceHistory|
        invariant stats == StatisticsOf(rebalanceHistory[..i])
      {
        assert rebalanceHistory[..i + 1][..i] == rebalanceHistory[..i];
        var e := rebalanceHistory[i];
        stats := stats.(totalEvents := stats.totalEvents + 1, totalActions := stats.totalActions + |e.actions|,
                        totalVolume := stats.totalVolume + TotalVolume(e.actions),
                        totalFees := stats.totalFees + e.feesPaid);
        if HasType(e, SELL_UPSIDE) {
          stats := stats.(upsideTriggers := stats.upsideTriggers + 1);
        }
        if HasType(e, BUY_DOWNSIDE) {
          stats := stats.(downsideTriggers := stats.downsideTriggers + 1);
        }
      }
      assert rebalanceHistory[..|rebalanceHistory|] == rebalanceHistory;
      actionsPerEvent := AverageActions(stats);
    }
  }
}
