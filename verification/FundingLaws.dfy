/** Exactly which of a rebalance's actions the cash and the positions can carry. */
module FundingLaws {
  import opened Sums
  import opened Portfolio
  import opened Rebalancing
  import opened ConservationLaws
  import opened DownsideLaws

  ghost predicate AllTrue(flags: seq<bool>)
  {
    forall i :: 0 <= i < |flags| ==> flags[i]
  }

  /** Executing a concatenation is executing its parts one after the other. */
  lemma {:induction false} ExecuteConcat(fee: real, l: Ledger, xs: seq<RebalanceAction>, ys: seq<RebalanceAction>)
    ensures var first := Execute(fee, l, xs);
            var second := Execute(fee, first.ledger, ys);
            Execute(fee, l, xs + ys)
            == Execution(second.ledger, first.fees + second.fees, first.executed + second.executed)
  {
    hide Attempt;
    if |ys| == 0 {
      assert xs + ys == xs;
      assert Execute(fee, l, xs).executed + [] == Execute(fee, l, xs).executed;
    } else {
      var n := |ys| - 1;
      ExecuteConcat(fee, l, xs, ys[..n]);
      assert (xs + ys)[..|xs + ys| - 1] == xs + ys[..n];
      assert (xs + ys)[|xs + ys| - 1] == ys[n];
      var first := Execute(fee, l, xs);
      var second := Execute(fee, first.ledger, ys[..n]);
      var flag := [Attempt(fee, second.ledger, ys[n]).Success?];
      assert first.executed + (second.executed + flag) == (first.executed + second.executed) + flag;
    }
  }

  // ----- sales

  /** What a sale of the given value pays after the fee. */
  function Net(value: real, fee: real): real
  {
    value * (1.0 - fee)
  }

  /** The position holds what the action wants to sell. */
  ghost predicate Held(l: Ledger, a: RebalanceAction)
  {
    a.side == SELL && a.symbol in l.positions && a.quantity <= l.Position(a.symbol)
    && a.valueUsdt == a.quantity * a.price
  }

  /** Sales of different held assets all execute and pay their value less the fee. */
  lemma {:induction false} SalesExecute(fee: real, l: Ledger, sells: seq<RebalanceAction>)
    requires OncePerAsset(sells) && forall i :: 0 <= i < |sells| ==> Held(l, sells[i])
    ensures var run := Execute(fee, l, sells);
            && AllTrue(run.executed)
            && run.ledger.usdt == l.usdt + Net(TotalVolume(sells), fee)
            && l.positions.Keys <= run.ledger.positions.Keys
  {
    if |sells| == 0 {
    } else {
      var n := |sells| - 1;
      SalesExecute(fee, l, sells[..n]);
      UntouchedPosition(fee, l, sells[..n], sells[n].symbol);
      var before := Execute(fee, l, sells[..n]).ledger;
      SaleExecutes(fee, before, sells[n]);
      LessFee(TotalVolume(sells[..n]), sells[n].valueUsdt, fee);
      hide Attempt;
    }
  }

  lemma SaleExecutes(fee: real, l: Ledger, a: RebalanceAction)
    requires Held(l, a)
    ensures Attempt(fee, l, a).Success?
    ensures Attempt(fee, l, a).value.0.usdt == l.usdt + (a.valueUsdt - a.valueUsdt * fee)
    ensures Attempt(fee, l, a).value.0.positions.Keys == l.positions.Keys
  {
  }

  lemma LessFee(x: real, y: real, fee: real)
    ensures Net(x + y, fee) == Net(x, fee) + (y - y * fee)
  {
  }

  // ----- purchases

  /** What a purchase of the given value costs. */
  function Cost(value: real, fee: real): real
  {
    value + value * fee
  }

  /** A purchase executes exactly when the cash covers its cost. */
  lemma PurchaseExecutes(fee: real, l: Ledger, a: RebalanceAction)
    requires a.side == BUY && a.valueUsdt == a.quantity * a.price
    ensures Attempt(fee, l, a).Success? <==> l.usdt >= Cost(a.valueUsdt, fee)
    ensures Attempt(fee, l, a).Success? ==> Attempt(fee, l, a).value.0.usdt == l.usdt - Cost(a.valueUsdt, fee)
  {
  }

  function Times(n: nat, c: real): real
  {
    n as real * c
  }

  lemma TimesSteps(n: nat, c: real)
    ensures Times(0, c) == 0.0 && Times(n + 1, c) == Times(n, c) + c
    ensures c >= 0.0 ==> Times(n, c) >= 0.0
  {
  }

  /** Purchases of equal value all execute exactly when the cash covers all of them. */
  lemma {:induction false} EqualPurchasesExecute(fee: real, l: Ledger, buys: seq<RebalanceAction>, value: real)
    requires Cost(value, fee) >= 0.0
    requires forall i :: 0 <= i < |buys| ==>
               buys[i].side == BUY && buys[i].valueUsdt == value
               && buys[i].valueUsdt == buys[i].quantity * buys[i].price
    ensures var run := Execute(fee, l, buys);
            && (AllTrue(run.executed) <==> |buys| == 0 || l.usdt >= Times(|buys|, Cost(value, fee)))
            && (AllTrue(run.executed) ==> run.ledger.usdt == l.usdt - Times(|buys|, Cost(value, fee)))
  {
    hide Attempt, Cost, Times;
    var c := Cost(value, fee);
    TimesSteps(0, c);
    if |buys| == 0 {
    } else {
      var n := |buys| - 1;
      EqualPurchasesExecute(fee, l, buys[..n], value);
      PurchaseExecutes(fee, Execute(fee, l, buys[..n]).ledger, buys[n]);
      TimesSteps(n, c);
      LastFlag(fee, l, buys);
    }
  }

  /** With cash for some but not all equal purchases, exactly the first ones the cash covers execute. */
  lemma {:induction false} EqualPurchasesInOrder(fee: real, l: Ledger, buys: seq<RebalanceAction>, value: real, i: nat)
    requires Cost(value, fee) >= 0.0 && i < |buys|
    requires forall i :: 0 <= i < |buys| ==>
               buys[i].side == BUY && buys[i].valueUsdt == value
               && buys[i].valueUsdt == buys[i].quantity * buys[i].price
    ensures Execute(fee, l, buys).executed[i] <==> l.usdt >= Times(i + 1, Cost(value, fee))
  {
    hide Attempt, Cost, Times, AllTrue;
    var n := |buys| - 1;
    var before := Execute(fee, l, buys[..n]);
    if i < n {
      EqualPurchasesInOrder(fee, l, buys[..n], value, i);
    } else {
      PurchaseExecutes(fee, before.ledger, buys[n]);
      EqualPurchasesExecute(fee, l, buys[..n], value);
      if !AllTrue(before.executed) {
        ShortOfCash(fee, l, buys[..n], value);
      }
      NextPurchase(l.usdt, before.ledger.usdt, n, Cost(value, fee), AllTrue(before.executed));
    }
  }

  /** The cash test of one more purchase, after n that all executed or did not. */
  lemma NextPurchase(cash: real, left: real, n: nat, c: real, all: bool)
    requires c >= 0.0
    requires all <==> n == 0 || cash >= Times(n, c)
    requires if all then left == cash - Times(n, c) else left < c
    ensures left >= c <==> cash >= Times(n + 1, c)
  {
    hide Times;
    TimesSteps(n, c);
    TimesSteps(0, c);
  }

  /** Once an equal purchase is refused the cash stays below its cost. */
  lemma {:induction false} ShortOfCash(fee: real, l: Ledger, buys: seq<RebalanceAction>, value: real)
    requires Cost(value, fee) >= 0.0 && !AllTrue(Execute(fee, l, buys).executed)
    requires forall i :: 0 <= i < |buys| ==>
               buys[i].side == BUY && buys[i].valueUsdt == value
               && buys[i].valueUsdt == buys[i].quantity * buys[i].price
    ensures Execute(fee, l, buys).ledger.usdt < Cost(value, fee)
  {
    hide Attempt, Cost, AllTrue;
    if |buys| == 0 {
      NothingRefused(fee, l);
    } else {
      var n := |buys| - 1;
      var before := Execute(fee, l, buys[..n]);
      PurchaseExecutes(fee, before.ledger, buys[n]);
      LastFlag(fee, l, buys);
      if !AllTrue(before.executed) {
        ShortOfCash(fee, l, buys[..n], value);
      }
    }
  }

  lemma NothingRefused(fee: real, l: Ledger)
    ensures AllTrue(Execute(fee, l, []).executed)
  {
  }

  /** All actions execute exactly when all but the last do and then the last does. */
  lemma LastFlag(fee: real, l: Ledger, actions: seq<RebalanceAction>)
    requires |actions| > 0
    ensures var n := |actions| - 1;
            var before := Execute(fee, l, actions[..n]);
            AllTrue(Execute(fee, l, actions).executed)
            <==> AllTrue(before.executed) && Attempt(fee, before.ledger, actions[n]).Success?
  {
    hide Attempt;
    var n := |actions| - 1;
    var before := Execute(fee, l, actions[..n]);
    var flags := Execute(fee, l, actions).executed;
    assert flags == before.executed + [Attempt(fee, before.ledger, actions[n]).Success?];
    assert flags[n] == Attempt(fee, before.ledger, actions[n]).Success?;
    assert forall i :: 0 <= i < n ==> flags[i] == before.executed[i];
  }

  // ----- upside

  lemma {:induction false} OrdersFull(
    minimum: real, st: PortfolioState, side: Side, targets: seq<Symbol>, value: real)
    requires forall s :: s in targets ==> Orderable(st, s)
    ensures var orders := Orders(minimum, st, side, targets, Same(value));
            && |orders| == (if value < minimum then 0 else |targets|)
            && forall i :: 0 <= i < |orders| ==> orders[i].side == side && orders[i].valueUsdt == value
  {
    if |targets| == 0 {
    } else {
      hide Orderable;
      OrdersFull(minimum, st, side, targets[..|targets| - 1], value);
    }
  }

  lemma SplitCost(total: real, n: nat, fee: real)
    requires n > 0
    ensures Times(n, Cost(total / n as real, fee)) == Cost(total, fee)
  {
    var share := total / n as real;
    assert n as real * share == total;
    calc {
      Times(n, Cost(share, fee));
      n as real * (share + share * fee);
      n as real * share + (n as real * share) * fee;
      Cost(total, fee);
    }
  }

  /** Selling a fraction of at most 1 never asks for more than is held. */
  lemma FractionHeld(q: real, pct: real)
    requires q >= 0.0 && pct <= 1.0
    ensures q * pct <= q
  {
  }

  lemma UpsideSellFields(config: RebalanceConfig, st: PortfolioState, s: Symbol)
    requires s in st.assets
    ensures var a := UpsideSell(config, st, s);
            && a.side == SELL && a.symbol == s && a.valueUsdt == a.quantity * a.price
            && a.quantity == st.assets[s].quantity * config.sellPercentage
  {
  }

  lemma UpsideSellHeld(
    config: RebalanceConfig, assets: seq<Symbol>, l: Ledger, prices: map<Symbol, real>, timestamp: real, s: Symbol)
    requires Priced(assets, prices) && l.Solvent() && s in assets && s in l.positions && config.sellPercentage <= 1.0
    ensures Held(l, UpsideSell(config, Snapshot(assets, l, prices, timestamp), s))
  {
    hide Mean, Ledger.TotalValue, Ledger.Value, UpsideSell;
    var st := Snapshot(assets, l, prices, timestamp);
    assert st.assets[s].quantity == l.Position(s) >= 0.0;
    UpsideSellFields(config, st, s);
    FractionHeld(st.assets[s].quantity, config.sellPercentage);
  }

  /** A unit of proceeds covers the gross cost of redistributing it. */
  predicate SelfFunding(config: RebalanceConfig)
  {
    (1.0 - config.usdtReserve) * (1.0 + config.tradingFee) <= 1.0
  }

  /** Redistributing a fraction whose gross cost stays within the proceeds is always affordable. */
  lemma RedistributionAffordable(config: RebalanceConfig, sold: real)
    requires sold >= 0.0 && 0.0 <= config.tradingFee <= 1.0 && SelfFunding(config)
    ensures Cost(ToRedistribute(config, sold), config.tradingFee) <= Net(sold, config.tradingFee)
  {
    var fee := config.tradingFee;
    var proceeds := sold - sold * fee;
    FractionHeld(sold, fee);
    LessFee(0.0, sold, fee);
    CostOfRest(proceeds, config.usdtReserve, fee);
    FractionHeld(proceeds, (1.0 - config.usdtReserve) * (1.0 + fee));
  }

  lemma CostOfRest(p: real, r: real, f: real)
    ensures Cost(p - p * r, f) == p * ((1.0 - r) * (1.0 + f))
  {
  }

  /** The purchases of an upside rebalance, if any. */
  lemma UpsidePlan(
    config: RebalanceConfig, assets: seq<Symbol>, l: Ledger, prices: map<Symbol, real>, timestamp: real, s: Symbol)
    returns (buys: seq<RebalanceAction>, perAsset: real)
    requires Priced(assets, prices) && s in assets
    requires UpsideActions(config, assets, Snapshot(assets, l, prices, timestamp), s) != []
    ensures var st := Snapshot(assets, l, prices, timestamp);
            var sell := UpsideSell(config, st, s);
            && UpsideActions(config, assets, st, s) == [sell] + buys
            && sell.valueUsdt >= config.minOrderValue
            && (forall i :: 0 <= i < |buys| ==>
                  buys[i].side == BUY && buys[i].valueUsdt == perAsset
                  && buys[i].valueUsdt == buys[i].quantity * buys[i].price)
            && (buys != [] ==>
                  perAsset >= config.minOrderValue
                  && Times(|buys|, Cost(perAsset, config.tradingFee))
                     == Cost(ToRedistribute(config, sell.valueUsdt), config.tradingFee))
  {
    hide Mean, Ledger.TotalValue, Ledger.Value, UpsideSell, ToRedistribute, Orders, Times, Cost;
    var st := Snapshot(assets, l, prices, timestamp);
    var sell := UpsideSell(config, st, s);
    var others := Others(assets, s);
    buys, perAsset := [], 0.0;
    if |others| > 0 && ToRedistribute(config, sell.valueUsdt) > 0.0 {
      perAsset := PerAsset(config, sell.valueUsdt, |others|);
      buys := Orders(config.minOrderValue, st, BUY, others, Same(perAsset));
      OrdersFull(config.minOrderValue, st, BUY, others, perAsset);
      OrdersAreFair(config.minOrderValue, assets, l, prices, timestamp, BUY, others, Same(perAsset));
      SplitCost(ToRedistribute(config, sell.valueUsdt), |others|, config.tradingFee);
    } else {
      assert [sell] + buys == [sell];
    }
  }

  /** Upside funding: the sale always executes; the purchases all execute exactly when cash plus
      proceeds covers the gross cost of what is redistributed; and when a unit of proceeds covers
      the gross cost of its own redistribution, everything executes and cash never ends lower. */
  lemma UpsideFunding(
    config: RebalanceConfig, assets: seq<Symbol>, l: Ledger, prices: map<Symbol, real>, timestamp: real, s: Symbol)
    requires Priced(assets, prices) && l.Solvent() && s in assets && s in l.positions
    requires config.sellPercentage <= 1.0 && 0.0 <= config.tradingFee <= 1.0 && config.minOrderValue >= 0.0
    ensures var st := Snapshot(assets, l, prices, timestamp);
            var fee := config.tradingFee;
            var actions := UpsideActions(config, assets, st, s);
            var run := Execute(fee, l, actions);
            var sold := UpsideSell(config, st, s).valueUsdt;
            var cost := Cost(ToRedistribute(config, sold), fee);
            actions != [] ==>
              && run.executed[0]
              && (AllTrue(run.executed) <==> |actions| == 1 || l.usdt + Net(sold, fee) >= cost)
              && (AllTrue(run.executed) ==>
                    run.ledger.usdt == l.usdt + Net(sold, fee) - if |actions| == 1 then 0.0 else cost)
              && (SelfFunding(config) ==>
                    AllTrue(run.executed) && run.ledger.usdt >= l.usdt)
  {
    var st := Snapshot(assets, l, prices, timestamp);
    var fee := config.tradingFee;
    var actions := UpsideActions(config, assets, st, s);
    hide UpsideActions, UpsideSell, Snapshot, Net, Cost, ToRedistribute, SelfFunding, Execute, AllTrue, Held, Times,
      Priced, Ledger.Solvent;
    if actions != [] {
      var sell := UpsideSell(config, st, s);
      var buys, perAsset := UpsidePlan(config, assets, l, prices, timestamp, s);
      UpsideSellHeld(config, assets, l, prices, timestamp, s);
      UpsideExecution(fee, l, sell, buys, perAsset, ToRedistribute(config, sell.valueUsdt));
      if SelfFunding(config) {
        RedistributionAffordable(config, sell.valueUsdt);
      }
      NetNonNegative(sell.valueUsdt, fee);
    }
  }

  lemma UpsideExecution(
    fee: real, l: Ledger, sell: RebalanceAction, buys: seq<RebalanceAction>, perAsset: real, amount: real)
    requires Held(l, sell) && fee >= 0.0
    requires forall i :: 0 <= i < |buys| ==>
               buys[i].side == BUY && buys[i].valueUsdt == perAsset
               && buys[i].valueUsdt == buys[i].quantity * buys[i].price
    requires buys != [] ==> perAsset >= 0.0 && Times(|buys|, Cost(perAsset, fee)) == Cost(amount, fee)
    ensures var run := Execute(fee, l, [sell] + buys);
            var cash := l.usdt + Net(sell.valueUsdt, fee);
            && run.executed[0]
            && (AllTrue(run.executed) <==> |buys| == 0 || cash >= Cost(amount, fee))
            && (AllTrue(run.executed) ==>
                  run.ledger.usdt == cash - if |buys| == 0 then 0.0 else Cost(amount, fee))
  {
    assert TotalVolume([sell]) == sell.valueUsdt by {
      SumSnoc([], sell, Volume());
      assert [] + [sell] == [sell];
    }
    SalesExecute(fee, l, [sell]);
    ExecuteConcat(fee, l, [sell], buys);
    var first := Execute(fee, l, [sell]);
    hide Times, Net, Attempt, Held;
    if buys != [] {
      CostNonNegative(perAsset, fee);
      hide Cost;
      EqualPurchasesExecute(fee, first.ledger, buys, perAsset);
    }
    AllTrueConcat(first.executed, Execute(fee, first.ledger, buys).executed);
  }

  lemma CostNonNegative(value: real, fee: real)
    requires value >= 0.0 && fee >= 0.0
    ensures Cost(value, fee) >= 0.0
  {
  }

  lemma NetNonNegative(value: real, fee: real)
    requires value >= 0.0 && fee <= 1.0
    ensures Net(value, fee) >= 0.0
  {
  }

  lemma AllTrueConcat(xs: seq<bool>, ys: seq<bool>)
    ensures AllTrue(xs + ys) <==> AllTrue(xs) && AllTrue(ys)
  {
    assert forall i :: 0 <= i < |ys| ==> ys[i] == (xs + ys)[|xs| + i];
    assert forall i :: 0 <= i < |xs| ==> xs[i] == (xs + ys)[i];
  }

  // ----- downside

  /** A sale worth at most a quarter of the position's value is held. */
  lemma QuarterHeld(l: Ledger, prices: map<Symbol, real>, a: RebalanceAction)
    requires l.Solvent() && a.symbol in l.positions && a.symbol in prices
    requires a.price == prices[a.symbol] > 0.0 && a.side == SELL && a.valueUsdt == a.quantity * a.price
    requires a.valueUsdt <= l.Value(prices, a.symbol) * 0.25
    ensures Held(l, a)
  {
    assert l.Value(prices, a.symbol) == l.Position(a.symbol) * a.price >= 0.0;
    CancelFactor(a.quantity, l.Position(a.symbol), a.price);
  }

  lemma SupportOrdersFair(
    config: RebalanceConfig, assets: seq<Symbol>, l: Ledger, prices: map<Symbol, real>, timestamp: real, s: Symbol)
    requires Priced(assets, prices) && s in assets
    ensures AllFair(assets, prices, SupportOrders(config, Snapshot(assets, l, prices, timestamp), s))
  {
    var st := Snapshot(assets, l, prices, timestamp);
    var sources := Outperformers(st, s);
    var value := SupportValue(st, Deficit(st, s), Sum(sources, Excess(st)));
    OrdersAreFair(config.minOrderValue, assets, l, prices, timestamp, SELL, sources, value);
  }

  lemma SupportOrdersHeld(
    config: RebalanceConfig, assets: seq<Symbol>, l: Ledger, prices: map<Symbol, real>, timestamp: real, s: Symbol)
    requires Distinct(assets) && Priced(assets, prices) && l.Solvent() && s in assets
    requires forall a :: a in assets ==> a in l.positions
    requires Deficit(Snapshot(assets, l, prices, timestamp), s) > 0.0
    ensures var sells := SupportOrders(config, Snapshot(assets, l, prices, timestamp), s);
            forall i :: 0 <= i < |sells| ==> Held(l, sells[i])
  {
    var sells := SupportOrders(config, Snapshot(assets, l, prices, timestamp), s);
    SupportOrdersBounded(config, assets, l, prices, timestamp, s);
    SupportOrdersFair(config, assets, l, prices, timestamp, s);
    hide SupportOrders, Snapshot, Deficit, Mean, Held, Ledger.Value, TotalVolume, Fair, Ledger.Solvent, Priced;
    forall i | 0 <= i < |sells|
      ensures Held(l, sells[i])
    {
      FairSale(assets, l, prices, sells[i]);
    }
  }

  lemma FairSale(assets: seq<Symbol>, l: Ledger, prices: map<Symbol, real>, a: RebalanceAction)
    requires Fair(assets, prices, a) && Priced(assets, prices) && l.Solvent() && a.side == SELL
    requires forall s :: s in assets ==> s in l.positions
    requires a.valueUsdt <= l.Value(prices, a.symbol) * 0.25
    ensures Held(l, a)
  {
    hide Held, Ledger.Value;
    QuarterHeld(l, prices, a);
  }

  lemma NetIsProceeds(config: RebalanceConfig, sells: seq<RebalanceAction>)
    ensures NetProceeds(config, sells) == Net(TotalVolume(sells), config.tradingFee)
  {
  }

  /** Selling first and then buying for the net proceeds works exactly when the prior cash covers
      the purchase's own fee. */
  lemma SalesThenPurchase(fee: real, l: Ledger, sells: seq<RebalanceAction>, buy: RebalanceAction)
    requires OncePerAsset(sells) && forall i :: 0 <= i < |sells| ==> Held(l, sells[i])
    requires buy.side == BUY && buy.valueUsdt == buy.quantity * buy.price
    requires buy.valueUsdt == Net(TotalVolume(sells), fee)
    ensures var run := Execute(fee, l, sells + [buy]);
            && AllTrue(run.executed[..|sells|])
            && (run.executed[|sells|] <==> l.usdt >= buy.valueUsdt * fee)
  {
    hide Net, Held, Attempt, TotalVolume;
    SalesExecute(fee, l, sells);
    ExecuteConcat(fee, l, sells, [buy]);
    var first := Execute(fee, l, sells);
    PurchaseExecutes(fee, first.ledger, buy);
    assert [buy][..0] == [];
    assert Execute(fee, first.ledger, [buy]).executed == [Attempt(fee, first.ledger, buy).Success?];
    assert Execute(fee, l, sells + [buy]).executed[..|sells|] == first.executed;
  }

  /** Which downside actions execute. */
  ghost predicate DownsideFunded(config: RebalanceConfig, l: Ledger, st: PortfolioState, s: Symbol)
    requires Tradable(st) && s in st.assets
  {
    var fee := config.tradingFee;
    var deficit := Deficit(st, s);
    var actions := DownsideActions(config, st, s);
    var run := Execute(fee, l, actions);
    && (config.minOrderValue <= deficit <= l.usdt ==> run.executed == [l.usdt >= Cost(deficit, fee)])
    && (config.minOrderValue <= deficit && l.usdt < deficit ==>
          FundedBySales(config, l, actions, SupportOrders(config, st, s)))
  }

  /** All sales execute; the purchase after them, if there is one, does exactly when the prior cash covers its fee. */
  ghost predicate FundedBySales(
    config: RebalanceConfig, l: Ledger, actions: seq<RebalanceAction>, sells: seq<RebalanceAction>)
  {
    var run := Execute(config.tradingFee, l, actions);
    && |sells| <= |actions| <= |sells| + 1
    && AllTrue(run.executed[..|sells|])
    && (|actions| > |sells| ==>
          (run.executed[|sells|] <==> l.usdt >= NetProceeds(config, sells) * config.tradingFee))
  }

  /** Downside funding: a covered deficit is bought exactly when the cash also covers the fee;
      otherwise every support sale executes, and the purchase they fund executes exactly when the
      prior cash covers that purchase's fee. */
  lemma DownsideFunding(
    config: RebalanceConfig, assets: seq<Symbol>, l: Ledger, prices: map<Symbol, real>, timestamp: real, s: Symbol)
    requires Distinct(assets) && Priced(assets, prices) && l.Solvent() && s in assets
    requires forall a :: a in assets ==> a in l.positions
    ensures DownsideFunded(config, l, Snapshot(assets, l, prices, timestamp), s)
  {
    var st := Snapshot(assets, l, prices, timestamp);
    var deficit := Deficit(st, s);
    hide Deficit, Order, Cost, Attempt, SupportOrders, NetProceeds, Outperformers, Excess, Mean, Execute, FundedBySales,
      Ledger.TotalValue, Ledger.Value;
    if config.minOrderValue <= deficit && l.usdt < deficit {
      DownsideSaleFunding(config, assets, l, prices, timestamp, s);
    } else if config.minOrderValue <= deficit {
      var buy := Order(st, BUY_DOWNSIDE, BUY, s, deficit);
      OrderIsFair(assets, l, prices, timestamp, BUY_DOWNSIDE, BUY, s, deficit);
      OnePurchase(config.tradingFee, l, buy);
    }
  }

  lemma OnePurchase(fee: real, l: Ledger, buy: RebalanceAction)
    requires buy.side == BUY && buy.valueUsdt == buy.quantity * buy.price
    ensures Execute(fee, l, [buy]).executed == [l.usdt >= Cost(buy.valueUsdt, fee)]
  {
    PurchaseExecutes(fee, l, buy);
    hide Attempt, Cost;
    assert [buy][..0] == [];
  }

  lemma DownsideSaleFunding(
    config: RebalanceConfig, assets: seq<Symbol>, l: Ledger, prices: map<Symbol, real>, timestamp: real, s: Symbol)
    requires Distinct(assets) && Priced(assets, prices) && l.Solvent() && s in assets
    requires forall a :: a in assets ==> a in l.positions
    requires config.minOrderValue <= Deficit(Snapshot(assets, l, prices, timestamp), s)
    requires l.usdt < Deficit(Snapshot(assets, l, prices, timestamp), s)
    ensures var st := Snapshot(assets, l, prices, timestamp);
            FundedBySales(config, l, DownsideActions(config, st, s), SupportOrders(config, st, s))
  {
    hide *;
    var st := Snapshot(assets, l, prices, timestamp);
    SnapshotIsTradable(assets, l, prices, timestamp);
    KnownSymbol(assets, l, prices, timestamp, s);
    var sells := SupportOrders(config, st, s);
    CashIsNonNegative(l);
    var buy := DownsidePlan(config, assets, l, prices, timestamp, s);
    SalesAreOnce(config, assets, l, prices, timestamp, s);
    SupportOrdersHeld(config, assets, l, prices, timestamp, s);
    SalesPlan(config, l, sells, buy);
  }

  lemma CashIsNonNegative(l: Ledger)
    requires l.Solvent()
    ensures l.usdt >= 0.0
  {
  }

  lemma SalesAreOnce(
    config: RebalanceConfig, assets: seq<Symbol>, l: Ledger, prices: map<Symbol, real>, timestamp: real, s: Symbol)
    requires Distinct(assets) && Priced(assets, prices) && l.Solvent() && s in assets
    requires 0.0 <= l.usdt < Deficit(Snapshot(assets, l, prices, timestamp), s)
    ensures OncePerAsset(SupportOrders(config, Snapshot(assets, l, prices, timestamp), s))
    ensures Deficit(Snapshot(assets, l, prices, timestamp), s) > 0.0
  {
    hide Snapshot, Deficit, SupportOrders, TotalVolume, Ledger.Value, OncePerAsset;
    SupportOrdersBounded(config, assets, l, prices, timestamp, s);
  }

  /** Held sales, alone or followed by a purchase for their net proceeds. */
  lemma SalesPlan(config: RebalanceConfig, l: Ledger, sells: seq<RebalanceAction>, buy: RebalanceAction)
    requires OncePerAsset(sells) && forall i :: 0 <= i < |sells| ==> Held(l, sells[i])
    requires buy.side == BUY && buy.valueUsdt == buy.quantity * buy.price && buy.valueUsdt == NetProceeds(config, sells)
    ensures FundedBySales(config, l, sells, sells) && FundedBySales(config, l, sells + [buy], sells)
  {
    hide Held, Net, NetProceeds, OncePerAsset, Execute;
    SalesExecute(config.tradingFee, l, sells);
    NetIsProceeds(config, sells);
    SalesThenPurchase(config.tradingFee, l, sells, buy);
    assert Execute(config.tradingFee, l, sells).executed[..|sells|] == Execute(config.tradingFee, l, sells).executed;
  }

  /** The plan against an uncovered deficit: the support sales, then perhaps one purchase. */
  lemma DownsidePlan(
    config: RebalanceConfig, assets: seq<Symbol>, l: Ledger, prices: map<Symbol, real>, timestamp: real, s: Symbol)
    returns (buy: RebalanceAction)
    requires Distinct(assets) && Priced(assets, prices) && l.usdt >= 0.0 && s in assets
    requires config.minOrderValue <= Deficit(Snapshot(assets, l, prices, timestamp), s)
    requires l.usdt < Deficit(Snapshot(assets, l, prices, timestamp), s)
    ensures var st := Snapshot(assets, l, prices, timestamp);
            var sells := SupportOrders(config, st, s);
            && buy.symbol == s && buy.side == BUY && buy.valueUsdt == buy.quantity * buy.price
            && buy.valueUsdt == NetProceeds(config, sells)
            && DownsideActions(config, st, s)
               == if NetProceeds(config, sells) > config.minOrderValue then sells + [buy] else sells
  {
    hide Mean, Ledger.TotalValue, Ledger.Value, Excess, Order, NetProceeds, SupportOrders, Outperformers;
    var st := Snapshot(assets, l, prices, timestamp);
    var value := NetProceeds(config, SupportOrders(config, st, s));
    buy := Order(st, BUY_DOWNSIDE, BUY, s, value);
    OrderIsFair(assets, l, prices, timestamp, BUY_DOWNSIDE, BUY, s, value);
    GuardsUnreachable(config, assets, l, prices, timestamp, s);
  }
}
