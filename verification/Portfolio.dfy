/** Data structures of the portfolio rebalancer. Money, prices, quantities and times
    (seconds) are exact reals. */
module Portfolio {
  import opened Sums

  type Symbol = string

  datatype RebalanceConfig = RebalanceConfig(
    upsideThreshold: real,
    downsideThreshold: real,
    sellPercentage: real,
    usdtReserve: real,
    minOrderValue: real,
    cooldownMinutes: real,
    tradingFee: real)

  datatype AssetState = AssetState(
    symbol: Symbol,
    quantity: real,
    currentPrice: real,
    valueUsdt: real,
    lastRebalance: Option<real>)

  /** `symbols` is the iteration order of the `assets` dictionary. */
  datatype PortfolioState = PortfolioState(
    timestamp: real,
    symbols: seq<Symbol>,
    assets: map<Symbol, AssetState>,
    usdtBalance: real,
    totalValue: real,
    meanAssetValue: real)
  {
    ghost predicate WellFormed()
    {
      forall s :: s in symbols <==> s in assets
    }

    function Deviation(s: Symbol): real
      requires s in assets
    {
      if meanAssetValue > 0.0 then (assets[s].valueUsdt - meanAssetValue) / meanAssetValue else 0.0
    }

    /** Deviation from the mean for every asset. */
    method GetDeviations() returns (deviations: map<Symbol, real>)
      requires WellFormed()
      ensures deviations == map s | s in assets :: Deviation(s)
    {
      deviations := map[];
      for i := 0 to |symbols|
        invariant deviations.Keys == set s | s in symbols[..i]
        invariant forall s :: s in deviations ==> s in assets && deviations[s] == Deviation(s)
      {
        deviations := deviations[symbols[i] := Deviation(symbols[i])];
      }
    }
  }

  datatype Side = BUY | SELL | UNKNOWN

  datatype ActionType = SELL_UPSIDE | BUY_DOWNSIDE | REDISTRIBUTE

  datatype RebalanceAction = RebalanceAction(
    timestamp: real,
    actionType: ActionType,
    symbol: Symbol,
    side: Side,
    quantity: real,
    price: real,
    valueUsdt: real)

  datatype RebalanceEvent = RebalanceEvent(
    timestamp: real,
    triggerAsset: Symbol,
    triggerDeviation: real,
    actions: seq<RebalanceAction>,
    before: PortfolioState,
    after: PortfolioState,
    feesPaid: real)

  /** What a tracker owns: positions, cash and the time of each asset's last trade. */
  datatype Ledger = Ledger(
    positions: map<Symbol, real>,
    usdt: real,
    lastRebalance: map<Symbol, real>)
  {
    function Position(s: Symbol): real { Lookup(positions, s, 0.0) }

    /** Value of one asset at the given prices; a missing price counts as 0. */
    function Value(prices: map<Symbol, real>, s: Symbol): real
    {
      Position(s) * Lookup(prices, s, 0.0)
    }

    function Values(prices: map<Symbol, real>): Symbol -> real
    {
      s => Value(prices, s)
    }

    function AssetsValue(assets: seq<Symbol>, prices: map<Symbol, real>): real
    {
      Sum(assets, Values(prices))
    }

    function TotalValue(assets: seq<Symbol>, prices: map<Symbol, real>): real
    {
      AssetsValue(assets, prices) + usdt
    }

    /** Cash and every position are non-negative. */
    ghost predicate Solvent()
    {
      usdt >= 0.0 && forall s :: s in positions ==> positions[s] >= 0.0
    }
  }

  /** Every managed asset has a strictly positive price. */
  ghost predicate Priced(assets: seq<Symbol>, prices: map<Symbol, real>)
  {
    forall s :: s in assets ==> s in prices && prices[s] > 0.0
  }

  function Mean(assets: seq<Symbol>, l: Ledger, prices: map<Symbol, real>): real
  {
    if |assets| > 0 then l.AssetsValue(assets, prices) / |assets| as real else 0.0
  }

  /** One asset's entry in the state reported for ledger l. */
  function StateOf(s: Symbol, l: Ledger, prices: map<Symbol, real>): AssetState
  {
    AssetState(s, l.Position(s), Lookup(prices, s, 0.0), l.Value(prices, s),
               if s in l.lastRebalance then Some(l.lastRebalance[s]) else None)
  }

  /** The state a tracker reports for ledger l at the given prices. */
  function Snapshot(assets: seq<Symbol>, l: Ledger, prices: map<Symbol, real>, timestamp: real): PortfolioState
  {
    PortfolioState(
      timestamp,
      assets,
      map s | s in assets :: StateOf(s, l, prices),
      l.usdt,
      l.TotalValue(assets, prices),
      Mean(assets, l, prices))
  }

  datatype TradeError = InsufficientUsdt | InsufficientAsset | UnknownAsset | InvalidSide

  /** One trade against a ledger: the new ledger and the amount of cash moved, or the error. */
  function Trade(fee: real, l: Ledger, symbol: Symbol, quantity: real, price: real, side: Side, timestamp: real)
    : (r: Result<(Ledger, real), TradeError>)
  {
    var value := quantity * price;
    match side
    case BUY =>
      var cost := value + value * fee;
      if l.usdt >= cost then
        Success((Ledger(l.positions[symbol := l.Position(symbol) + quantity],
                        l.usdt - cost,
                        l.lastRebalance[symbol := timestamp]), cost))
      else Failure(InsufficientUsdt)
    case SELL =>
      if l.Position(symbol) < quantity then Failure(InsufficientAsset)
      else if symbol !in l.positions then Failure(UnknownAsset)
      else
        var proceeds := value - value * fee;
        Success((Ledger(l.positions[symbol := l.positions[symbol] - quantity],
                        l.usdt + proceeds,
                        l.lastRebalance[symbol := timestamp]), proceeds))
    case UNKNOWN => Failure(InvalidSide)
  }

  /** One trade, given its value and its fee. */
  lemma TradeIs(
    fee: real, l: Ledger, symbol: Symbol, quantity: real, price: real, side: Side, timestamp: real, value: real,
    paid: real)
    requires value == quantity * price && paid == value * fee
    ensures Trade(fee, l, symbol, quantity, price, side, timestamp) ==
            match side
            case BUY =>
              if l.usdt >= value + paid then
                Success((Ledger(l.positions[symbol := l.Position(symbol) + quantity], l.usdt - (value + paid),
                                l.lastRebalance[symbol := timestamp]), value + paid))
              else Failure(InsufficientUsdt)
            case SELL =>
              if l.Position(symbol) < quantity then Failure(InsufficientAsset)
              else if symbol !in l.positions then Failure(UnknownAsset)
              else
                Success((Ledger(l.positions[symbol := l.positions[symbol] - quantity], l.usdt + (value - paid),
                                l.lastRebalance[symbol := timestamp]), value - paid))
            case UNKNOWN => Failure(InvalidSide)
  {
    var t := Trade(fee, l, symbol, quantity, price, side, timestamp);
    assert (quantity * price) * fee == paid;
    if t.Success? {
      assert t.value.1 == (if side == BUY then value + paid else value - paid);
    }
  }
}
