/** The stateful portfolio tracker, each method proved against the ledger functions. */
module PortfolioTracking {
  import opened Sums
  import opened Portfolio

  /** What one equal share costs with the fee on top. */
  function GrossShare(perAsset: real, fee: real): real
  {
    perAsset * (1.0 + fee)
  }

  /** Ledger after trying to buy one equal share of s. */
  function BuyShare(fee: real, perAsset: real, price: real, timestamp: real, l: Ledger, s: Symbol): Ledger
  {
    var cost := GrossShare(perAsset, fee);
    if price > 0.0 && l.usdt >= cost then
      Ledger(l.positions[s := perAsset / price], l.usdt - cost, l.lastRebalance[s := timestamp])
    else l
  }

  /** Ledger after the equal-weight purchases of the first n assets. */
  function Initialized(
    config: RebalanceConfig, perAsset: real, assets: seq<Symbol>, prices: map<Symbol, real>,
    timestamp: real, l: Ledger, n: nat): Ledger
    requires n <= |assets|
  {
    if n == 0 then l
    else
      BuyShare(config.tradingFee, perAsset, Lookup(prices, assets[n - 1], 0.0), timestamp,
               Initialized(config, perAsset, assets, prices, timestamp, l, n - 1), assets[n - 1])
  }

  /** Equal share of the capital that is not held in reserve. */
  function Allocation(config: RebalanceConfig, capital: real, n: nat): real
    requires n > 0
  {
    (capital - capital * config.usdtReserve) / n as real
  }

  /** Highest recorded total, counting the initial capital. */
  function Peak(capital: real, history: seq<PortfolioState>): real
  {
    if |history| == 0 then capital
    else Max(Peak(capital, history[..|history| - 1]), history[|history| - 1].totalValue)
  }

  /** Lowest recorded total, counting the initial capital. */
  function Trough(capital: real, history: seq<PortfolioState>): real
  {
    if |history| == 0 then capital
    else Min(Trough(capital, history[..|history| - 1]), history[|history| - 1].totalValue)
  }

  /** Lowest against highest value; the order in which they came plays no part. */
  function DrawdownFrom(peak: real, trough: real): real
  {
    if peak > 0.0 then (trough - peak) / peak else 0.0
  }

  predicate InCooldown(config: RebalanceConfig, last: map<Symbol, real>, s: Symbol, timestamp: real)
  {
    s in last && timestamp - last[s] < config.cooldownMinutes * 60.0
  }

  class PortfolioTracker {
    const assets: seq<Symbol>
    const initialCapital: real
    const config: RebalanceConfig
    var positions: map<Symbol, real>
    var usdtBalance: real
    var lastRebalance: map<Symbol, real>
    var portfolioHistory: seq<PortfolioState>
    var peakValue: real
    var troughValue: real

    function Book(): Ledger
      reads this
    {
      Ledger(positions, usdtBalance, lastRebalance)
    }

    ghost predicate Valid()
      reads this
    {
      && Distinct(assets)
      && (forall s :: s in assets ==> s in positions)
      && peakValue == Peak(initialCapital, portfolioHistory)
      && troughValue == Trough(initialCapital, portfolioHistory)
    }

    constructor (assets: seq<Symbol>, initialCapital: real, config: RebalanceConfig)
      requires Distinct(assets)
      ensures Valid()
      ensures this.assets == assets && this.initialCapital == initialCapital && this.config == config
      ensures Book() == Ledger(map s | s in assets :: 0.0, initialCapital, map[])
      ensures portfolioHistory == []
    {
      this.assets, this.initialCapital, this.config := assets, initialCapital, config;
      positions := map s | s in assets :: 0.0;
      usdtBalance := initialCapital;
      lastRebalance := map[];
      portfolioHistory := [];
      peakValue, troughValue := initialCapital, initialCapital;
    }

    method UpdatePrices(prices: map<Symbol, real>, timestamp: real) returns (state: PortfolioState)
      requires Valid()
      modifies this`portfolioHistory, this`peakValue, this`troughValue
      ensures Valid()
      ensures state == Snapshot(assets, Book(), prices, timestamp)
      ensures portfolioHistory == old(portfolioHistory) + [state]
    {
      var states, totalAssets := CollectStates(prices);
      var totalValue := totalAssets + usdtBalance;
      var mean := if |assets| > 0 then totalAssets / |assets| as real else 0.0;
      state := PortfolioState(timestamp, assets, states, usdtBalance, totalValue, mean);

      assert state == Snapshot(assets, Book(), prices, timestamp);

      Record(state);
    }

    /** Appends a state and moves the peak and the trough. */
    method Record(state: PortfolioState)
      requires Valid()
      modifies this`portfolioHistory, this`peakValue, this`troughValue
      ensures Valid()
      ensures portfolioHistory == old(portfolioHistory) + [state]
    {
      assert (portfolioHistory + [state])[..|portfolioHistory|] == portfolioHistory;
      portfolioHistory := portfolioHistory + [state];
      peakValue := Max(peakValue, state.totalValue);
      if state.totalValue < troughValue {
        troughValue := state.totalValue;
      }
    }

    /** Values every asset at the given prices and adds the values up. */
    method CollectStates(prices: map<Symbol, real>)
      returns (states: map<Symbol, AssetState>, totalAssets: real)
      ensures states == map s | s in assets :: StateOf(s, Book(), prices)
      ensures totalAssets == Book().AssetsValue(assets, prices)
    {
      hide StateOf, Ledger.Values;
      ghost var l := Book();
      states := map[];
      totalAssets := 0.0;
      for i := 0 to |assets|
        invariant totalAssets == Sum(assets[..i], l.Values(prices))
        invariant states.Keys == set s | s in assets[..i]
        invariant forall s :: s in states ==> states[s] == StateOf(s, l, prices)
      {
        var state := ValueAsset(assets[i], prices);
        assert assets[..i + 1] == assets[..i] + [assets[i]];
        SumPrefix(assets, i, l.Values(prices));
        totalAssets := totalAssets + state.valueUsdt;
        states := states[assets[i] := state];
      }
      assert assets[..|assets|] == assets;
    }

    /** Values one position; an unknown price counts as zero. */
    method ValueAsset(s: Symbol, prices: map<Symbol, real>) returns (state: AssetState)
      ensures state == StateOf(s, Book(), prices) && state.valueUsdt == Book().Values(prices)(s)
    {
      var price := Lookup(prices, s, 0.0);
      var quantity := Lookup(positions, s, 0.0);
      state := AssetState(s, quantity, price, quantity * price,
        if s in lastRebalance then Some(lastRebalance[s]) else None);
    }

    /** Drawdown as reported. */
    function MaxDrawdown(): real
      reads this
    {
      DrawdownFrom(peakValue, troughValue)
    }

    /** Executes one trade, or reports why it was refused and leaves the tracker alone. */
    method ExecuteTrade(symbol: Symbol, quantity: real, price: real, side: Side, timestamp: real)
      returns (r: Result<real, TradeError>)
      requires Valid()
      modifies this`positions, this`usdtBalance, this`lastRebalance
      ensures Valid()
      ensures var t := Trade(config.tradingFee, old(Book()), symbol, quantity, price, side, timestamp);
              match t
              case Success(out) => Book() == out.0 && r == Success(out.1)
              case Failure(e) => Book() == old(Book()) && r == Failure(e)
    {
      hide Trade;
      var value := quantity * price;
      var fee := value * config.tradingFee;
      TradeIs(config.tradingFee, Book(), symbol, quantity, price, side, timestamp, value, fee);
      if side == BUY {
        var totalCost := value + fee;
        if usdtBalance >= totalCost {
          positions := positions[symbol := Lookup(positions, symbol, 0.0) + quantity];
          usdtBalance := usdtBalance - totalCost;
          lastRebalance := lastRebalance[symbol := timestamp];
          return Success(totalCost);
        } else {
          return Failure(InsufficientUsdt);
        }
      } else if side == SELL {
        if Lookup(positions, symbol, 0.0) >= quantity {
          if symbol !in positions {
            return Failure(UnknownAsset);
          }
          positions := positions[symbol := positions[symbol] - quantity];
          var proceeds := value - fee;
          usdtBalance := usdtBalance + proceeds;
          lastRebalance := lastRebalance[symbol := timestamp];
          return Success(proceeds);
        } else {
          return Failure(InsufficientAsset);
        }
      } else {
        return Failure(InvalidSide);
      }
    }

    method CheckCooldown(symbol: Symbol, timestamp: real) returns (b: bool)
      ensures b == InCooldown(config, lastRebalance, symbol, timestamp)
      ensures b <==> symbol in lastRebalance && timestamp < lastRebalance[symbol] + 60.0 * config.cooldownMinutes
    {
      if symbol !in lastRebalance {
        return false;
      }
      var timeSince := timestamp - lastRebalance[symbol];
      return timeSince < config.cooldownMinutes * 60.0;
    }

    /** Buys the same value of every priced asset while the cash lasts. */
    method InitializeEqualWeights(prices: map<Symbol, real>, timestamp: real)
      requires Valid()
      modifies this`positions, this`usdtBalance, this`lastRebalance
      ensures Valid()
      ensures if |assets| == 0 || |prices| == 0 then Book() == old(Book())
              else Book() == Initialized(config, Allocation(config, initialCapital, |assets|), assets, prices,
                                         timestamp, old(Book()), |assets|)
    {
      if |assets| == 0 || |prices| == 0 {
        return;
      }
      var perAsset := Allocation(config, initialCapital, |assets|);
      for i := 0 to |assets|
        invariant Valid()
        invariant Book() == Initialized(config, perAsset, assets, prices, timestamp, old(Book()), i)
      {
        BuyEqualShare(assets[i], perAsset, Lookup(prices, assets[i], 0.0), timestamp);
      }
    }

    /** One round of the equal-weight loop. */
    method BuyEqualShare(symbol: Symbol, perAsset: real, price: real, timestamp: real)
      requires Valid()
      modifies this`positions, this`usdtBalance, this`lastRebalance
      ensures Valid()
      ensures Book() == BuyShare(config.tradingFee, perAsset, price, timestamp, old(Book()), symbol)
    {
      hide GrossShare, Peak, Trough;
      if price > 0.0 {
        var quantity := perAsset / price;
        var actualCost := GrossShare(perAsset, config.tradingFee);
        if usdtBalance >= actualCost {
          positions := positions[symbol := quantity];
          usdtBalance := usdtBalance - actualCost;
          lastRebalance := lastRebalance[symbol := timestamp];
        }
      }
    }
  }
}
