/** Safety over whole runs: any sequence of price updates, trades and rebalances from a fresh
    tracker keeps cash and positions non-negative and spaces out repeated triggers. */
module RunSafety {
  import opened Sums
  import opened Portfolio
  import opened PortfolioTracking
  import opened Rebalancing
  import opened ConservationLaws

  // ----- what a trigger means

  /** The trigger is exactly the first asset, in dictionary order, that is out of cooldown and
      outside the thresholds; none is reported exactly when there is no such asset. */
  lemma {:induction false} TriggerIsFirst(config: RebalanceConfig, last: map<Symbol, real>, st: PortfolioState, i: nat)
    requires i <= |st.symbols| && st.WellFormed()
    ensures var t := FirstTrigger(config, last, st, i);
            && (t.None? <==> forall j :: i <= j < |st.symbols| ==> TriggerOf(config, last, st, st.symbols[j]).None?)
            && (t.Some? ==> exists k :: (
                  && i <= k < |st.symbols|
                  && t == TriggerOf(config, last, st, st.symbols[k]) && t.value.symbol == st.symbols[k]
                  && forall j :: i <= j < k ==> TriggerOf(config, last, st, st.symbols[j]).None?))
    decreases |st.symbols| - i
  {
    if i < |st.symbols| && TriggerOf(config, last, st, st.symbols[i]).None? {
      TriggerIsFirst(config, last, st, i + 1);
    }
  }

  // ----- solvency of single trades and of executions

  ghost predicate NonNegative(a: RebalanceAction)
  {
    a.quantity >= 0.0 && a.price >= 0.0
  }

  lemma ProductNonNegative(x: real, y: real)
    requires x >= 0.0 && y >= 0.0
    ensures x * y >= 0.0
  {
  }

  lemma FeeWithinValue(value: real, fee: real)
    requires value >= 0.0 && fee <= 1.0
    ensures value - value * fee >= 0.0
  {
    assert value - value * fee == value * (1.0 - fee);
  }

  /** Cash a sale brings in; negative for a negative quantity or price. */
  function Proceeds(fee: real, quantity: real, price: real): real
  {
    quantity * price - quantity * price * fee
  }

  /** What the guards of `execute_trade` leave open: a purchase must not take the position below zero,
      a sale must not take the cash below zero. */
  predicate TradeHarmless(fee: real, l: Ledger, symbol: Symbol, quantity: real, price: real, side: Side)
  {
    match side
    case BUY => l.Position(symbol) + quantity >= 0.0
    case SELL => l.usdt + Proceeds(fee, quantity, price) >= 0.0
    case UNKNOWN => true
  }

  /** For every quantity, price and fee: an accepted trade keeps cash and positions non-negative exactly when
      it is harmless. */
  lemma TradeSolventExactly(fee: real, l: Ledger, symbol: Symbol, quantity: real, price: real, side: Side,
                            timestamp: real)
    requires l.Solvent()
    ensures match Trade(fee, l, symbol, quantity, price, side, timestamp)
            case Success(out) => out.0.Solvent() <==> TradeHarmless(fee, l, symbol, quantity, price, side)
            case Failure(_) => true
  {
    var r := Trade(fee, l, symbol, quantity, price, side, timestamp);
    if r.Success? {
      TradeParts(fee, l, symbol, quantity, price, side, timestamp);
      SolventAfter(l, r.value.0, symbol);
    }
  }

  /** The new position and the new cash of an accepted trade; one of the two is already guarded. */
  lemma TradeParts(fee: real, l: Ledger, symbol: Symbol, quantity: real, price: real, side: Side, timestamp: real)
    requires l.Solvent() && Trade(fee, l, symbol, quantity, price, side, timestamp).Success?
    ensures var m := Trade(fee, l, symbol, quantity, price, side, timestamp).value.0;
            && side != UNKNOWN
            && symbol in m.positions && m.positions == l.positions[symbol := m.positions[symbol]]
            && (side == BUY ==> m.usdt >= 0.0 && m.positions[symbol] == l.Position(symbol) + quantity)
            && (side == SELL ==> m.positions[symbol] >= 0.0 && m.usdt == l.usdt + Proceeds(fee, quantity, price))
  {
  }

  lemma SolventAfter(l: Ledger, m: Ledger, symbol: Symbol)
    requires l.Solvent() && symbol in m.positions && m.positions == l.positions[symbol := m.positions[symbol]]
    ensures m.Solvent() <==> m.usdt >= 0.0 && m.positions[symbol] >= 0.0
  {
  }

  lemma NonNegativeIsHarmless(fee: real, l: Ledger, a: RebalanceAction)
    requires l.Solvent() && NonNegative(a) && fee <= 1.0
    ensures TradeHarmless(fee, l, a.symbol, a.quantity, a.price, a.side)
  {
    ProductNonNegative(a.quantity, a.price);
    FeeWithinValue(a.quantity * a.price, fee);
  }

  /** Whichever non-negative trades are refused, an execution leaves nothing negative. */
  lemma {:induction false} ExecutionKeepsSolvent(fee: real, l: Ledger, actions: seq<RebalanceAction>)
    requires l.Solvent() && fee <= 1.0 && forall i :: 0 <= i < |actions| ==> NonNegative(actions[i])
    ensures Execute(fee, l, actions).ledger.Solvent()
  {
    if |actions| == 0 {
    } else {
      hide Trade, Ledger.Solvent, NonNegative, TradeHarmless;
      var n := |actions| - 1;
      ExecutionKeepsSolvent(fee, l, actions[..n]);
      var before := Execute(fee, l, actions[..n]).ledger;
      NonNegativeIsHarmless(fee, before, actions[n]);
      TradeSolventExactly(fee, before, actions[n].symbol, actions[n].quantity, actions[n].price, actions[n].side,
                          actions[n].timestamp);
    }
  }

  lemma AttemptKeepsKeys(fee: real, l: Ledger, a: RebalanceAction, s: Symbol)
    requires s in l.positions && Attempt(fee, l, a).Success?
    ensures s in Attempt(fee, l, a).value.0.positions
  {
  }

  /** No position disappears. */
  lemma {:induction false} ExecutionKeepsKeys(fee: real, l: Ledger, actions: seq<RebalanceAction>, s: Symbol)
    requires s in l.positions
    ensures s in Execute(fee, l, actions).ledger.positions
  {
    if |actions| == 0 {
    } else {
      hide Attempt;
      var n := |actions| - 1;
      ExecutionKeepsKeys(fee, l, actions[..n], s);
      var before := Execute(fee, l, actions[..n]).ledger;
      if Attempt(fee, before, actions[n]).Success? {
        AttemptKeepsKeys(fee, before, actions[n], s);
      }
    }
  }

  lemma StampOfTrade(fee: real, l: Ledger, a: RebalanceAction)
    ensures match Attempt(fee, l, a)
            case Success(out) => out.0.lastRebalance == l.lastRebalance[a.symbol := a.timestamp]
            case Failure(_) => true
  {
  }

  /** Some executed action traded s. */
  predicate TradedIn(actions: seq<RebalanceAction>, executed: seq<bool>, s: Symbol)
    requires |actions| == |executed|
  {
    exists i :: 0 <= i < |actions| && actions[i].symbol == s && executed[i]
  }

  lemma TradedInSnoc(actions: seq<RebalanceAction>, executed: seq<bool>, s: Symbol)
    requires |actions| == |executed| > 0
    ensures var n := |actions| - 1;
            TradedIn(actions, executed, s)
            <==> TradedIn(actions[..n], executed[..n], s) || (actions[n].symbol == s && executed[n])
  {
    var n := |actions| - 1;
    if TradedIn(actions[..n], executed[..n], s) {
      var i :| 0 <= i < n && actions[..n][i].symbol == s && executed[..n][i];
      assert actions[i].symbol == s && executed[i];
    }
    if TradedIn(actions, executed, s) {
      var i :| 0 <= i < |actions| && actions[i].symbol == s && executed[i];
      assert i < n ==> actions[..n][i].symbol == s && executed[..n][i];
    }
  }

  /** All actions carry the same time. */
  ghost predicate AllAt(actions: seq<RebalanceAction>, now: real)
  {
    forall i :: 0 <= i < |actions| ==> actions[i].timestamp == now
  }

  /** The stamp of s after an execution at one moment: that moment exactly if s was traded. */
  ghost predicate StampIs(before: map<Symbol, real>, after: map<Symbol, real>, s: Symbol, traded: bool, now: real)
  {
    if traded then s in after && after[s] == now
    else (s in after <==> s in before) && (s in before ==> after[s] == before[s])
  }

  lemma StampStep(
    last: map<Symbol, real>, before: map<Symbol, real>, after: map<Symbol, real>, a: Symbol, s: Symbol, traded: bool,
    executed: bool, now: real)
    requires StampIs(last, before, s, traded, now) && after == if executed then before[a := now] else before
    ensures StampIs(last, after, s, traded || (a == s && executed), now)
  {
  }

  /** An execution at one moment stamps exactly the assets it traded. */
  lemma {:induction false} ExecutionStamps(fee: real, l: Ledger, actions: seq<RebalanceAction>, now: real, s: Symbol)
    requires AllAt(actions, now)
    ensures var run := Execute(fee, l, actions);
            StampIs(l.lastRebalance, run.ledger.lastRebalance, s, TradedIn(actions, run.executed, s), now)
  {
    if |actions| == 0 {
    } else {
      hide Attempt, StampIs, TradedIn;
      var n := |actions| - 1;
      ExecutionStamps(fee, l, actions[..n], now, s);
      var before := Execute(fee, l, actions[..n]);
      var run := Execute(fee, l, actions);
      StampOfTrade(fee, before.ledger, actions[n]);
      assert run.executed[..n] == before.executed;
      TradedInSnoc(actions, run.executed, s);
      StampStep(l.lastRebalance, before.ledger.lastRebalance, run.ledger.lastRebalance, actions[n].symbol, s,
                TradedIn(actions[..n], before.executed, s), run.executed[n], now);
    }
  }

  lemma QuantityNonNegative(q: real, p: real)
    requires q * p >= 0.0 && p > 0.0
    ensures q >= 0.0
  {
  }

  lemma ActionsAreNonNegative(assets: seq<Symbol>, prices: map<Symbol, real>, actions: seq<RebalanceAction>)
    requires Priced(assets, prices) && AllFair(assets, prices, actions) && AtLeast(actions, 0.0)
    ensures forall i :: 0 <= i < |actions| ==> NonNegative(actions[i])
  {
    forall i | 0 <= i < |actions|
      ensures NonNegative(actions[i])
    {
      assert Fair(assets, prices, actions[i]);
      QuantityNonNegative(actions[i].quantity, actions[i].price);
    }
  }

  lemma {:induction false} OrdersTimestamp(
    minimum: real, st: PortfolioState, side: Side, targets: seq<Symbol>, value: Symbol -> real)
    ensures AllAt(Orders(minimum, st, side, targets, value), st.timestamp)
  {
    if |targets| == 0 {
    } else {
      var n := |targets| - 1;
      OrdersTimestamp(minimum, st, side, targets[..n], value);
      if Orderable(st, targets[n]) {
        assert Order(st, REDISTRIBUTE, side, targets[n], value(targets[n])).timestamp == st.timestamp;
      }
    }
  }

  lemma ActionsTimestamp(config: RebalanceConfig, assets: seq<Symbol>, st: PortfolioState, t: Trigger)
    requires Tradable(st) && t.symbol in st.assets
    ensures AllAt(Actions(config, assets, st, t), st.timestamp)
  {
    hide PerAsset, ToRedistribute, Excess, SupportValue, NetProceeds, Orders, Outperformers, Others;
    match t.direction
    case Upside =>
      var others := Others(assets, t.symbol);
      if |others| > 0 {
        var each := PerAsset(config, UpsideSell(config, st, t.symbol).valueUsdt, |others|);
        OrdersTimestamp(config.minOrderValue, st, BUY, others, Same(each));
      }
    case Downside =>
      var sources := Outperformers(st, t.symbol);
      OrdersTimestamp(config.minOrderValue, st, SELL, sources,
                      SupportValue(st, Deficit(st, t.symbol), Sum(sources, Excess(st))));
  }

  /** A rebalance of a solvent ledger leaves it solvent and drops no position. */
  lemma RebalanceKeepsSolvent(
    config: RebalanceConfig, assets: seq<Symbol>, l: Ledger, prices: map<Symbol, real>, timestamp: real,
    t: Option<Trigger>)
    requires Priced(assets, prices) && l.Solvent() && config.tradingFee <= 1.0 && config.minOrderValue >= 0.0
    requires t.Some? ==> t.value.symbol in assets
    ensures Rebalanced(config, assets, l, Snapshot(assets, l, prices, timestamp), prices, t).0.Solvent()
  {
    hide Ledger.Solvent, Actions, Execute, Mean, Ledger.TotalValue, Ledger.Value, AllFair, AtLeast;
    if t.Some? {
      var actions := Actions(config, assets, Snapshot(assets, l, prices, timestamp), t.value);
      ActionsAreFair(config, assets, l, prices, timestamp, t.value);
      AtLeastZero(actions, config.minOrderValue);
      ActionsAreNonNegative(assets, prices, actions);
      ExecutionKeepsSolvent(config.tradingFee, l, actions);
    }
  }

  lemma AtLeastZero(actions: seq<RebalanceAction>, minimum: real)
    requires AtLeast(actions, minimum) && minimum >= 0.0
    ensures AtLeast(actions, 0.0)
  {
  }

  // ----- the initial purchases

  /** Whether an equal share of s is bought from l. */
  predicate ShareBought(fee: real, perAsset: real, price: real, l: Ledger)
  {
    price > 0.0 && l.usdt >= GrossShare(perAsset, fee)
  }

  lemma Quotient(x: real, y: real)
    requires y > 0.0
    ensures x / y >= 0.0 <==> x >= 0.0
  {
    var q := x / y;
    assert q * y == x;
    if q >= 0.0 {
      assert q * y >= 0.0;
    } else {
      assert q * y < 0.0;
    }
  }

  /** One purchase leaves the cash non-negative and a position whose sign is the share's. */
  lemma BuyShareEffect(fee: real, perAsset: real, price: real, timestamp: real, l: Ledger, s: Symbol)
    requires l.usdt >= 0.0
    ensures var m := BuyShare(fee, perAsset, price, timestamp, l, s);
            && m.usdt >= 0.0
            && (if ShareBought(fee, perAsset, price, l)
                then s in m.positions && m.positions == l.positions[s := m.positions[s]]
                     && (m.positions[s] >= 0.0 <==> perAsset >= 0.0)
                     && m.lastRebalance == l.lastRebalance[s := timestamp]
                else m == l)
  {
    if price > 0.0 {
      Quotient(perAsset, price);
    }
  }

  /** Some asset has a positive price. */
  ghost predicate SomePriced(assets: seq<Symbol>, prices: map<Symbol, real>, n: nat)
    requires n <= |assets|
  {
    exists i :: 0 <= i < n && Lookup(prices, assets[i], 0.0) > 0.0
  }

  /** A non-negative share keeps everything non-negative. */
  lemma {:induction false} SharesKeepSolvent(
    config: RebalanceConfig, perAsset: real, assets: seq<Symbol>, prices: map<Symbol, real>, t: real, l: Ledger, n: nat)
    requires n <= |assets| && l.Solvent() && perAsset >= 0.0
    ensures Initialized(config, perAsset, assets, prices, t, l, n).Solvent()
  {
    if n == 0 {
    } else {
      hide BuyShare, ShareBought;
      SharesKeepSolvent(config, perAsset, assets, prices, t, l, n - 1);
      BuyShareEffect(config.tradingFee, perAsset, Lookup(prices, assets[n - 1], 0.0), t,
                     Initialized(config, perAsset, assets, prices, t, l, n - 1), assets[n - 1]);
    }
  }

  /** A negative share with a fee of at least -100% is always affordable: every priced asset is left short. */
  lemma {:induction false} NegativeSharesLeaveDebt(
    config: RebalanceConfig, perAsset: real, assets: seq<Symbol>, prices: map<Symbol, real>, t: real, l: Ledger, n: nat)
    requires n <= |assets| && l.Solvent() && perAsset < 0.0 && config.tradingFee >= -1.0
    ensures var m := Initialized(config, perAsset, assets, prices, t, l, n);
            m.usdt >= 0.0 && (m.Solvent() <==> !SomePriced(assets, prices, n))
    ensures !SomePriced(assets, prices, n) ==> Initialized(config, perAsset, assets, prices, t, l, n) == l
    ensures SomePriced(assets, prices, n) ==>
      exists s :: Short(Initialized(config, perAsset, assets, prices, t, l, n), s)
  {
    if n == 0 {
    } else {
      hide BuyShare;
      NegativeSharesLeaveDebt(config, perAsset, assets, prices, t, l, n - 1);
      var before := Initialized(config, perAsset, assets, prices, t, l, n - 1);
      var price := Lookup(prices, assets[n - 1], 0.0);
      NegativeGross(perAsset, config.tradingFee);
      BuyShareEffect(config.tradingFee, perAsset, price, t, before, assets[n - 1]);
      var m := Initialized(config, perAsset, assets, prices, t, l, n);
      if price > 0.0 {
        assert Short(m, assets[n - 1]);
      } else if s :| Short(before, s) {
        assert Short(m, s);
      }
    }
  }

  ghost predicate Short(l: Ledger, s: Symbol)
  {
    s in l.positions && l.positions[s] < 0.0
  }

  lemma NegativeGross(perAsset: real, fee: real)
    requires perAsset < 0.0 && fee >= -1.0
    ensures GrossShare(perAsset, fee) <= 0.0
  {
  }

  /** The share is non-negative exactly when the reserve is at most the whole positive capital. */
  lemma ShareSign(config: RebalanceConfig, capital: real, n: nat)
    requires n > 0 && capital > 0.0
    ensures Allocation(config, capital, n) >= 0.0 <==> config.usdtReserve <= 1.0
  {
    Quotient(capital - capital * config.usdtReserve, n as real);
    RestSign(capital, config.usdtReserve);
  }

  lemma RestSign(capital: real, reserve: real)
    requires capital > 0.0
    ensures capital - capital * reserve >= 0.0 <==> reserve <= 1.0
  {
    assert capital - capital * reserve == capital * (1.0 - reserve);
  }

  /** Ledger after `initialize_equal_weights`. */
  function AfterInitialize(
    config: RebalanceConfig, assets: seq<Symbol>, capital: real, prices: map<Symbol, real>, t: real, l: Ledger): Ledger
  {
    if |assets| == 0 || |prices| == 0 then l
    else Initialized(config, Allocation(config, capital, |assets|), assets, prices, t, l, |assets|)
  }

  /** With a positive capital the initial purchases leave nothing negative exactly when the reserve is at most
      100% or there is nothing to buy. */
  predicate InitializeHarmless(config: RebalanceConfig, assets: seq<Symbol>, prices: map<Symbol, real>)
  {
    config.usdtReserve <= 1.0 || !exists i :: 0 <= i < |assets| && Lookup(prices, assets[i], 0.0) > 0.0
  }

  lemma InitializeSolventExactly(
    config: RebalanceConfig, assets: seq<Symbol>, capital: real, prices: map<Symbol, real>, t: real, l: Ledger)
    requires l.Solvent() && capital > 0.0 && config.tradingFee >= -1.0
    ensures AfterInitialize(config, assets, capital, prices, t, l).Solvent()
      <==> InitializeHarmless(config, assets, prices)
  {
    if |assets| > 0 && |prices| > 0 {
      hide Initialized, Allocation, Ledger.Solvent;
      var share := Allocation(config, capital, |assets|);
      ShareSign(config, capital, |assets|);
      if share >= 0.0 {
        SharesKeepSolvent(config, share, assets, prices, t, l, |assets|);
      } else {
        NegativeSharesLeaveDebt(config, share, assets, prices, t, l, |assets|);
      }
    } else {
      NoPrices(assets, prices);
    }
  }

  lemma NoPrices(assets: seq<Symbol>, prices: map<Symbol, real>)
    requires |assets| == 0 || |prices| == 0
    ensures forall i :: 0 <= i < |assets| ==> Lookup(prices, assets[i], 0.0) == 0.0
  {
    if |prices| == 0 {
      assert prices == map[];
    }
  }

  lemma {:induction false} InitializedKeepsKeys(
    config: RebalanceConfig, perAsset: real, assets: seq<Symbol>, prices: map<Symbol, real>, t: real, l: Ledger, n: nat,
    s: Symbol)
    requires n <= |assets| && s in l.positions
    ensures s in Initialized(config, perAsset, assets, prices, t, l, n).positions
  {
    if n == 0 {
    } else {
      InitializedKeepsKeys(config, perAsset, assets, prices, t, l, n - 1, s);
    }
  }

  // ----- runs

  /** One call on the tracker or the rebalancer. `blocked` is a trend filter's veto. */
  datatype Op =
    | Initialize(prices: map<Symbol, real>, timestamp: real)
    | UpdatePrices(prices: map<Symbol, real>, timestamp: real)
    | ExecuteTrade(symbol: Symbol, quantity: real, price: real, side: Side, timestamp: real)
    | Rebalance(prices: map<Symbol, real>, timestamp: real, blocked: bool)

  /** What a run did, in order: executed trades and the events that triggers led to. */
  datatype Record =
    | Traded(symbol: Symbol, time: real)
    | Triggered(event: RebalanceEvent)

  datatype World = World(ledger: Ledger, log: seq<Record>)

  datatype Setup = Setup(config: RebalanceConfig, assets: seq<Symbol>, capital: real)

  function Fresh(setup: Setup): World
  {
    World(Ledger(map s | s in setup.assets :: 0.0, setup.capital, map[]), [])
  }

  /** Rebalances see a positive price for every asset; every other call takes any arguments. */
  ghost predicate ValidOp(setup: Setup, op: Op)
  {
    op.Rebalance? ==> Priced(setup.assets, op.prices)
  }

  ghost predicate AllValid(setup: Setup, ops: seq<Op>)
  {
    forall i :: 0 <= i < |ops| ==> ValidOp(setup, ops[i])
  }

  function TriggerIn(config: RebalanceConfig, l: Ledger, st: PortfolioState, blocked: bool): Option<Trigger>
    requires st.WellFormed()
  {
    if blocked then None else FirstTrigger(config, l.lastRebalance, st, 0)
  }

  /** Records of the executed actions. */
  function TradeRecords(actions: seq<RebalanceAction>, executed: seq<bool>): seq<Record>
    requires |actions| == |executed|
  {
    if |actions| == 0 then []
    else
      var n := |actions| - 1;
      TradeRecords(actions[..n], executed[..n])
      + if executed[n] then [Traded(actions[n].symbol, actions[n].timestamp)] else []
  }

  /** Records of the initial purchases of the first n assets. */
  function ShareRecords(
    config: RebalanceConfig, perAsset: real, assets: seq<Symbol>, prices: map<Symbol, real>, t: real, l: Ledger, n: nat)
    : seq<Record>
    requires n <= |assets|
  {
    if n == 0 then []
    else
      ShareRecords(config, perAsset, assets, prices, t, l, n - 1)
      + if ShareBought(config.tradingFee, perAsset, Lookup(prices, assets[n - 1], 0.0),
                       Initialized(config, perAsset, assets, prices, t, l, n - 1))
        then [Traded(assets[n - 1], t)] else []
  }

  function InitializeRecords(setup: Setup, prices: map<Symbol, real>, t: real, l: Ledger): seq<Record>
  {
    if |setup.assets| == 0 || |prices| == 0 then []
    else
      ShareRecords(setup.config, Allocation(setup.config, setup.capital, |setup.assets|), setup.assets, prices, t, l,
                   |setup.assets|)
  }

  /** The event of a rebalance, then the trades it executed. */
  function EventRecords(config: RebalanceConfig, l: Ledger, event: Option<RebalanceEvent>): seq<Record>
  {
    if event.None? then []
    else
      var actions := event.value.actions;
      [Triggered(event.value)] + TradeRecords(actions, Execute(config.tradingFee, l, actions).executed)
  }

  ghost function Step(setup: Setup, w: World, op: Op): World
    requires ValidOp(setup, op)
  {
    match op
    case Initialize(prices, t) =>
      World(AfterInitialize(setup.config, setup.assets, setup.capital, prices, t, w.ledger),
            w.log + InitializeRecords(setup, prices, t, w.ledger))
    case UpdatePrices(_, _) => w
    case ExecuteTrade(symbol, quantity, price, side, timestamp) =>
      (match Trade(setup.config.tradingFee, w.ledger, symbol, quantity, price, side, timestamp)
       case Success(out) => World(out.0, w.log + [Traded(symbol, timestamp)])
       case Failure(_) => w)
    case Rebalance(prices, timestamp, blocked) =>
      var st := Snapshot(setup.assets, w.ledger, prices, timestamp);
      var (m, event) := Rebalanced(setup.config, setup.assets, w.ledger, st, prices,
                                   TriggerIn(setup.config, w.ledger, st, blocked));
      World(m, w.log + EventRecords(setup.config, w.ledger, event))
  }

  ghost function Run(setup: Setup, ops: seq<Op>): World
    requires AllValid(setup, ops)
  {
    if |ops| == 0 then Fresh(setup) else Step(setup, Run(setup, ops[..|ops| - 1]), ops[|ops| - 1])
  }

  // ----- solvency over runs

  /** What a caller can check before a call. */
  ghost predicate Harmless(setup: Setup, l: Ledger, op: Op)
  {
    match op
    case Initialize(prices, _) => InitializeHarmless(setup.config, setup.assets, prices)
    case UpdatePrices(_, _) => true
    case ExecuteTrade(symbol, quantity, price, side, timestamp) =>
      Trade(setup.config.tradingFee, l, symbol, quantity, price, side, timestamp).Failure?
      || TradeHarmless(setup.config.tradingFee, l, symbol, quantity, price, side)
    case Rebalance(_, _, _) => true
  }

  ghost predicate Sane(setup: Setup)
  {
    setup.capital > 0.0 && -1.0 <= setup.config.tradingFee <= 1.0 && setup.config.minOrderValue >= 0.0
  }

  /** From a solvent ledger one call leaves a solvent ledger exactly when it is harmless. */
  lemma StepSolventExactly(setup: Setup, w: World, op: Op)
    requires ValidOp(setup, op) && Sane(setup) && w.ledger.Solvent()
    ensures Step(setup, w, op).ledger.Solvent() <==> Harmless(setup, w.ledger, op)
  {
    hide Ledger.Solvent, Trade, TradeHarmless, InitializeHarmless, AfterInitialize, Rebalanced, FirstTrigger, Mean,
      Ledger.TotalValue, EventRecords, InitializeRecords;
    match op
    case Initialize(prices, t) =>
      InitializeSolventExactly(setup.config, setup.assets, setup.capital, prices, t, w.ledger);
    case UpdatePrices(_, _) =>
    case ExecuteTrade(symbol, quantity, price, side, timestamp) =>
      TradeSolventExactly(setup.config.tradingFee, w.ledger, symbol, quantity, price, side, timestamp);
    case Rebalance(prices, timestamp, blocked) =>
      var st := Snapshot(setup.assets, w.ledger, prices, timestamp);
      RebalanceKeepsSolvent(setup.config, setup.assets, w.ledger, prices, timestamp,
                            TriggerIn(setup.config, w.ledger, st, blocked));
  }

  /** Solvent after every call so far. */
  ghost predicate SolventThroughout(setup: Setup, ops: seq<Op>)
    requires AllValid(setup, ops)
  {
    forall n :: 0 <= n <= |ops| ==> Run(setup, ops[..n]).ledger.Solvent()
  }

  ghost predicate HarmlessThroughout(setup: Setup, ops: seq<Op>)
    requires AllValid(setup, ops)
  {
    forall n :: 0 <= n < |ops| ==> Harmless(setup, Run(setup, ops[..n]).ledger, ops[n])
  }

  lemma SolventSnoc(setup: Setup, ops: seq<Op>)
    requires AllValid(setup, ops) && |ops| > 0
    ensures SolventThroughout(setup, ops)
       <==> SolventThroughout(setup, ops[..|ops| - 1]) && Run(setup, ops).ledger.Solvent()
  {
    hide Run, Ledger.Solvent, ValidOp;
    var m := |ops| - 1;
    assert forall n :: 0 <= n <= m ==> ops[..m][..n] == ops[..n];
    assert ops[..m + 1] == ops;
    if SolventThroughout(setup, ops) {
      forall n | 0 <= n <= m
        ensures Run(setup, ops[..m][..n]).ledger.Solvent()
      {
        assert Run(setup, ops[..n]).ledger.Solvent();
      }
    }
  }

  lemma HarmlessSnoc(setup: Setup, ops: seq<Op>)
    requires AllValid(setup, ops) && |ops| > 0
    ensures HarmlessThroughout(setup, ops)
       <==> HarmlessThroughout(setup, ops[..|ops| - 1])
            && Harmless(setup, Run(setup, ops[..|ops| - 1]).ledger, ops[|ops| - 1])
  {
    hide Run, Harmless, ValidOp;
    var m := |ops| - 1;
    assert forall n :: 0 <= n < m ==> ops[..m][..n] == ops[..n] && ops[..m][n] == ops[n];
    if HarmlessThroughout(setup, ops) {
      forall n | 0 <= n < m
        ensures Harmless(setup, Run(setup, ops[..m][..n]).ledger, ops[..m][n])
      {
        assert Harmless(setup, Run(setup, ops[..n]).ledger, ops[n]);
      }
    }
  }

  lemma FreshIsSolvent(setup: Setup)
    requires Sane(setup)
    ensures Fresh(setup).ledger.Solvent()
  {
  }

  /** Over every run of initial purchases, price updates, trades of any quantity and price, and rebalances, in
      any order of times: cash and positions stay non-negative throughout exactly when every direct trade is
      refused or harmless and no initial purchase is made with a reserve above 100%. */
  lemma {:induction false} RunSolventExactly(setup: Setup, ops: seq<Op>)
    requires Sane(setup) && AllValid(setup, ops)
    ensures SolventThroughout(setup, ops) <==> HarmlessThroughout(setup, ops)
  {
    hide Ledger.Solvent, Harmless, Step;
    if |ops| == 0 {
      FreshIsSolvent(setup);
      assert ops[..0] == ops;
    } else {
      var m := |ops| - 1;
      RunSolventExactly(setup, ops[..m]);
      SolventSnoc(setup, ops);
      HarmlessSnoc(setup, ops);
      if SolventThroughout(setup, ops[..m]) {
        assert ops[..m][..m] == ops[..m];
        StepSolventExactly(setup, Run(setup, ops[..m]), ops[m]);
      }
    }
  }

  /** A reserve of 200% is accepted, and the initial purchase leaves the position at -100. */
  lemma ReserveAboveCapitalLeavesDebt(config: RebalanceConfig)
    requires config.usdtReserve == 2.0 && config.tradingFee == 0.0
    ensures var setup := Setup(config, ["A"], 100.0);
            && AllValid(setup, [Initialize(map["A" := 1.0], 0.0)])
            && Run(setup, [Initialize(map["A" := 1.0], 0.0)]).ledger.Position("A") == -100.0
  {
    var setup := Setup(config, ["A"], 100.0);
    var ops := [Initialize(map["A" := 1.0], 0.0)];
    var l := Fresh(setup).ledger;
    assert ops[..0] == [] && |map["A" := 1.0]| == 1;
    assert Allocation(config, 100.0, 1) == -100.0;
    assert Initialized(config, -100.0, ["A"], map["A" := 1.0], 0.0, l, 0) == l;
    assert Initialized(config, -100.0, ["A"], map["A" := 1.0], 0.0, l, 1).Position("A") == -100.0;
  }

  /** No asset ever loses its position entry. */
  lemma {:induction false} RunKeepsKeys(setup: Setup, ops: seq<Op>, s: Symbol)
    requires AllValid(setup, ops) && s in setup.assets
    ensures s in Run(setup, ops).ledger.positions
  {
    if |ops| == 0 {
    } else {
      hide Step;
      RunKeepsKeys(setup, ops[..|ops| - 1], s);
      StepKeepsKeys(setup, Run(setup, ops[..|ops| - 1]), ops[|ops| - 1], s);
    }
  }

  lemma StepKeepsKeys(setup: Setup, w: World, op: Op, s: Symbol)
    requires ValidOp(setup, op) && s in w.ledger.positions
    ensures s in Step(setup, w, op).ledger.positions
  {
    hide Actions, Execute, FirstTrigger, Mean, Ledger.TotalValue, EventRecords, InitializeRecords, Initialized,
      Allocation;
    if op.Initialize? && |setup.assets| > 0 {
      InitializedKeepsKeys(setup.config, Allocation(setup.config, setup.capital, |setup.assets|), setup.assets,
                           op.prices, op.timestamp, w.ledger, |setup.assets|, s);
    } else if op.Rebalance? {
      var st := Snapshot(setup.assets, w.ledger, op.prices, op.timestamp);
      var t := TriggerIn(setup.config, w.ledger, st, op.blocked);
      if t.Some? {
        ExecutionKeepsKeys(setup.config.tradingFee, w.ledger, Actions(setup.config, setup.assets, st, t.value), s);
      }
    }
  }

  // ----- spacing over runs

  ghost predicate InOrder(ops: seq<Op>)
  {
    forall i, j :: 0 <= i < j < |ops| ==> ops[i].timestamp <= ops[j].timestamp
  }

  /** Every event comes a cooldown or more after every earlier executed trade of the asset that triggers it:
      in an event of its own or of another asset, a direct trade or an initial purchase. */
  ghost predicate Spaced(config: RebalanceConfig, log: seq<Record>)
  {
    forall i, j | 0 <= i < j < |log| && log[i].Traded? && log[j].Triggered?
                  && log[i].symbol == log[j].event.triggerAsset ::
      log[j].event.timestamp - log[i].time >= config.cooldownMinutes * 60.0
  }

  /** The stamps are at most now, and each logged trade is at most its asset's stamp. */
  ghost predicate Stamped(last: map<Symbol, real>, log: seq<Record>, now: real)
  {
    && (forall s :: s in last ==> last[s] <= now)
    && forall i :: 0 <= i < |log| && log[i].Traded? ==> log[i].symbol in last && log[i].time <= last[log[i].symbol]
  }

  lemma StampedLater(last: map<Symbol, real>, log: seq<Record>, now: real, later: real)
    requires Stamped(last, log, now) && now <= later
    ensures Stamped(last, log, later)
  {
  }

  lemma StampedTrade(last: map<Symbol, real>, log: seq<Record>, s: Symbol, now: real)
    requires Stamped(last, log, now)
    ensures Stamped(last[s := now], log + [Traded(s, now)], now)
  {
  }

  lemma StampedEvent(last: map<Symbol, real>, log: seq<Record>, e: RebalanceEvent, now: real)
    requires Stamped(last, log, now)
    ensures Stamped(last, log + [Triggered(e)], now)
  {
  }

  /** Trades alone add nothing to space out. */
  lemma SpacedTrade(config: RebalanceConfig, log: seq<Record>, s: Symbol, now: real)
    requires Spaced(config, log)
    ensures Spaced(config, log + [Traded(s, now)])
  {
  }

  /** An event triggered out of cooldown keeps the log spaced. */
  lemma SpacedEvent(config: RebalanceConfig, last: map<Symbol, real>, log: seq<Record>, e: RebalanceEvent)
    requires Spaced(config, log) && Stamped(last, log, e.timestamp)
    requires !InCooldown(config, last, e.triggerAsset, e.timestamp)
    ensures Spaced(config, log + [Triggered(e)])
  {
  }

  lemma {:induction false} ExecutionLogged(
    config: RebalanceConfig, l: Ledger, log: seq<Record>, actions: seq<RebalanceAction>, now: real)
    requires AllAt(actions, now) && Stamped(l.lastRebalance, log, now) && Spaced(config, log)
    ensures var run := Execute(config.tradingFee, l, actions);
            var after := log + TradeRecords(actions, run.executed);
            Stamped(run.ledger.lastRebalance, after, now) && Spaced(config, after)
  {
    if |actions| == 0 {
      assert log + [] == log;
    } else {
      hide Attempt, Stamped, Spaced;
      var n := |actions| - 1;
      ExecutionLogged(config, l, log, actions[..n], now);
      var before := Execute(config.tradingFee, l, actions[..n]);
      var run := Execute(config.tradingFee, l, actions);
      assert run.executed[..n] == before.executed;
      var logged := log + TradeRecords(actions[..n], before.executed);
      StampOfTrade(config.tradingFee, before.ledger, actions[n]);
      if run.executed[n] {
        StampedTrade(before.ledger.lastRebalance, logged, actions[n].symbol, now);
        SpacedTrade(config, logged, actions[n].symbol, now);
        assert log + TradeRecords(actions, run.executed) == logged + [Traded(actions[n].symbol, now)];
      } else {
        assert log + TradeRecords(actions, run.executed) == logged;
      }
    }
  }

  lemma {:induction false} SharesLogged(
    config: RebalanceConfig, perAsset: real, assets: seq<Symbol>, prices: map<Symbol, real>, t: real, l: Ledger,
    log: seq<Record>, n: nat)
    requires n <= |assets| && Stamped(l.lastRebalance, log, t) && Spaced(config, log)
    ensures var m := Initialized(config, perAsset, assets, prices, t, l, n);
            var after := log + ShareRecords(config, perAsset, assets, prices, t, l, n);
            Stamped(m.lastRebalance, after, t) && Spaced(config, after)
  {
    if n == 0 {
      assert log + [] == log;
    } else {
      hide Stamped, Spaced, GrossShare;
      SharesLogged(config, perAsset, assets, prices, t, l, log, n - 1);
      var before := Initialized(config, perAsset, assets, prices, t, l, n - 1);
      var logged := log + ShareRecords(config, perAsset, assets, prices, t, l, n - 1);
      var after := log + ShareRecords(config, perAsset, assets, prices, t, l, n);
      if ShareBought(config.tradingFee, perAsset, Lookup(prices, assets[n - 1], 0.0), before) {
        StampedTrade(before.lastRebalance, logged, assets[n - 1], t);
        SpacedTrade(config, logged, assets[n - 1], t);
        assert after == logged + [Traded(assets[n - 1], t)];
      } else {
        assert after == logged;
      }
    }
  }

  ghost predicate Logged(setup: Setup, w: World, now: real)
  {
    Stamped(w.ledger.lastRebalance, w.log, now) && Spaced(setup.config, w.log)
  }

  lemma StepLogged(setup: Setup, w: World, op: Op)
    requires ValidOp(setup, op) && Logged(setup, w, op.timestamp)
    ensures Logged(setup, Step(setup, w, op), op.timestamp)
  {
    match op
    case Initialize(prices, t) =>
      hide Initialized, ShareRecords, Allocation, Stamped, Spaced;
      assert w.log + [] == w.log;
      if |setup.assets| > 0 {
        SharesLogged(setup.config, Allocation(setup.config, setup.capital, |setup.assets|), setup.assets, prices, t,
                     w.ledger, w.log, |setup.assets|);
      }
    case UpdatePrices(_, _) =>
    case ExecuteTrade(symbol, quantity, price, side, timestamp) =>
      hide Stamped, Spaced;
      StampedTrade(w.ledger.lastRebalance, w.log, symbol, timestamp);
      SpacedTrade(setup.config, w.log, symbol, timestamp);
    case Rebalance(prices, timestamp, blocked) =>
      RebalanceLogged(setup, w, prices, timestamp, blocked);
  }

  lemma RebalanceLogged(setup: Setup, w: World, prices: map<Symbol, real>, timestamp: real, blocked: bool)
    requires Priced(setup.assets, prices) && Logged(setup, w, timestamp)
    ensures Logged(setup, Step(setup, w, Rebalance(prices, timestamp, blocked)), timestamp)
  {
    hide Actions, Execute, Mean, Ledger.TotalValue, Ledger.Value, PortfolioState.Deviation, Stamped, Spaced,
      TradeRecords, FirstTrigger, AllAt;
    var l := w.ledger;
    var st := Snapshot(setup.assets, l, prices, timestamp);
    var t := TriggerIn(setup.config, l, st, blocked);
    var event := Rebalanced(setup.config, setup.assets, l, st, prices, t).1;
    assert w.log + [] == w.log;
    if event.Some? {
      var actions := Actions(setup.config, setup.assets, st, t.value);
      OutOfCooldown(setup.config, l, st);
      SpacedEvent(setup.config, l.lastRebalance, w.log, event.value);
      StampedEvent(l.lastRebalance, w.log, event.value, timestamp);
      ActionsTimestamp(setup.config, setup.assets, st, t.value);
      ExecutionLogged(setup.config, l, w.log + [Triggered(event.value)], actions, timestamp);
      var records := TradeRecords(actions, Execute(setup.config.tradingFee, l, actions).executed);
      assert w.log + ([Triggered(event.value)] + records) == (w.log + [Triggered(event.value)]) + records;
    }
  }

  lemma OutOfCooldown(config: RebalanceConfig, l: Ledger, st: PortfolioState)
    requires st.WellFormed() && FirstTrigger(config, l.lastRebalance, st, 0).Some?
    ensures !InCooldown(config, l.lastRebalance, FirstTrigger(config, l.lastRebalance, st, 0).value.symbol,
                        st.timestamp)
  {
    hide InCooldown, PortfolioState.Deviation;
    TriggerIsFirst(config, l.lastRebalance, st, 0);
  }

  /** On non-decreasing times every executed trade of an asset, whoever made it, keeps the asset's next event a
      cooldown away. */
  lemma {:induction false} RunIsSpaced(setup: Setup, ops: seq<Op>)
    requires AllValid(setup, ops) && InOrder(ops)
    ensures Spaced(setup.config, Run(setup, ops).log)
    ensures |ops| > 0 ==> Logged(setup, Run(setup, ops), ops[|ops| - 1].timestamp)
  {
    if |ops| == 0 {
    } else {
      hide Step, Spaced, Stamped;
      var n := |ops| - 1;
      RunIsSpaced(setup, ops[..n]);
      var w := Run(setup, ops[..n]);
      if n == 0 {
        FreshLogged(setup, ops[0].timestamp);
      } else {
        StampedLater(w.ledger.lastRebalance, w.log, ops[n - 1].timestamp, ops[n].timestamp);
      }
      StepLogged(setup, w, ops[n]);
    }
  }

  lemma FreshLogged(setup: Setup, now: real)
    ensures Logged(setup, Fresh(setup), now)
  {
  }
}
