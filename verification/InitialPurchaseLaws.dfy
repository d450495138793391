/** When the capital carries every one of the initial equal-weight purchases. */
module InitialPurchaseLaws {
  import opened Sums
  import opened Portfolio
  import opened PortfolioTracking
  import opened FundingLaws
  import opened Backtesting

  /** The purchases of the first n assets were all made. */
  predicate AllBought(
    config: RebalanceConfig, perAsset: real, assets: seq<Symbol>, prices: map<Symbol, real>, t: real, l: Ledger, n: nat)
    requires n <= |assets|
  {
    n == 0
    || (AllBought(config, perAsset, assets, prices, t, l, n - 1)
        && Lookup(prices, assets[n - 1], 0.0) > 0.0
        && Initialized(config, perAsset, assets, prices, t, l, n - 1).usdt >= GrossShare(perAsset, config.tradingFee))
  }

  lemma BuyShareCash(fee: real, perAsset: real, price: real, t: real, l: Ledger, s: Symbol)
    requires price > 0.0
    ensures BuyShare(fee, perAsset, price, t, l, s).usdt
         == if l.usdt >= GrossShare(perAsset, fee) then l.usdt - GrossShare(perAsset, fee) else l.usdt
  {
  }

  /** Equal shares are all bought exactly while the cash covers them together. */
  lemma {:induction false} BoughtWhileCashLasts(
    config: RebalanceConfig, perAsset: real, assets: seq<Symbol>, prices: map<Symbol, real>, t: real, l: Ledger, n: nat)
    requires n <= |assets| && Priced(assets, prices) && l.usdt >= 0.0
    ensures var gross := GrossShare(perAsset, config.tradingFee);
            && (AllBought(config, perAsset, assets, prices, t, l, n) <==> l.usdt >= Times(n, gross))
            && (AllBought(config, perAsset, assets, prices, t, l, n) ==>
                  Initialized(config, perAsset, assets, prices, t, l, n).usdt == l.usdt - Times(n, gross))
  {
    hide GrossShare, BuyShare, Times;
    var gross := GrossShare(perAsset, config.tradingFee);
    TimesSteps(0, gross);
    if n == 0 {
    } else {
      TimesSteps(n - 1, gross);
      TimesSign(n - 1, gross);
      BoughtWhileCashLasts(config, perAsset, assets, prices, t, l, n - 1);
      var before := Initialized(config, perAsset, assets, prices, t, l, n - 1);
      BuyShareCash(config.tradingFee, perAsset, Lookup(prices, assets[n - 1], 0.0), t, before, assets[n - 1]);
    }
  }

  lemma TimesSign(n: nat, c: real)
    ensures c >= 0.0 ==> Times(n, c) >= 0.0
    ensures c <= 0.0 ==> Times(n, c) <= 0.0
  {
  }

  /** With cash for some but not all equal shares, exactly the first ones the cash covers are bought. */
  lemma {:induction false} SharesInOrder(
    config: RebalanceConfig, perAsset: real, assets: seq<Symbol>, prices: map<Symbol, real>, t: real, l: Ledger, n: nat)
    requires n < |assets| && Priced(assets, prices) && l.usdt >= 0.0
    ensures Initialized(config, perAsset, assets, prices, t, l, n).usdt >= GrossShare(perAsset, config.tradingFee)
       <==> l.usdt >= Times(n + 1, GrossShare(perAsset, config.tradingFee))
  {
    hide GrossShare, BuyShare, Times;
    var gross := GrossShare(perAsset, config.tradingFee);
    BoughtWhileCashLasts(config, perAsset, assets, prices, t, l, n);
    TimesSteps(n, gross);
    TimesSign(n, gross);
    if !AllBought(config, perAsset, assets, prices, t, l, n) {
      ShortAfterRefusal(config, perAsset, assets, prices, t, l, n);
    }
  }

  /** Once a share is refused the cash stays below its cost. */
  lemma {:induction false} ShortAfterRefusal(
    config: RebalanceConfig, perAsset: real, assets: seq<Symbol>, prices: map<Symbol, real>, t: real, l: Ledger, n: nat)
    requires n <= |assets| && Priced(assets, prices) && l.usdt >= 0.0
    requires !AllBought(config, perAsset, assets, prices, t, l, n)
    ensures 0.0 <= Initialized(config, perAsset, assets, prices, t, l, n).usdt < GrossShare(perAsset, config.tradingFee)
  {
    hide GrossShare, BuyShare;
    var before := Initialized(config, perAsset, assets, prices, t, l, n - 1);
    BuyShareCash(config.tradingFee, perAsset, Lookup(prices, assets[n - 1], 0.0), t, before, assets[n - 1]);
    if !AllBought(config, perAsset, assets, prices, t, l, n - 1) {
      ShortAfterRefusal(config, perAsset, assets, prices, t, l, n - 1);
    } else {
      CashStays(config, perAsset, assets, prices, t, l, n - 1);
    }
  }

  /** No purchase takes the cash below zero. */
  lemma {:induction false} CashStays(
    config: RebalanceConfig, perAsset: real, assets: seq<Symbol>, prices: map<Symbol, real>, t: real, l: Ledger, n: nat)
    requires n <= |assets| && Priced(assets, prices) && l.usdt >= 0.0
    ensures Initialized(config, perAsset, assets, prices, t, l, n).usdt >= 0.0
  {
    hide GrossShare, BuyShare;
    if n == 0 {
    } else {
      CashStays(config, perAsset, assets, prices, t, l, n - 1);
      BuyShareCash(config.tradingFee, perAsset, Lookup(prices, assets[n - 1], 0.0), t,
                   Initialized(config, perAsset, assets, prices, t, l, n - 1), assets[n - 1]);
    }
  }

  /** What all shares cost together, fees included. */
  function Spent(config: RebalanceConfig, capital: real): real
  {
    capital * ((1.0 - config.usdtReserve) * (1.0 + config.tradingFee))
  }

  lemma AllSharesCost(config: RebalanceConfig, capital: real, n: nat)
    requires n > 0
    ensures Times(n, GrossShare(Allocation(config, capital, n), config.tradingFee))
         == Spent(config, capital)
  {
    var share := Allocation(config, capital, n);
    WholeAllocation(config, capital, n);
    Regrouped(n as real, share, 1.0 + config.tradingFee);
    RestOf(capital, config.usdtReserve, 1.0 + config.tradingFee);
  }

  lemma WholeAllocation(config: RebalanceConfig, capital: real, n: nat)
    requires n > 0
    ensures n as real * Allocation(config, capital, n) == capital - capital * config.usdtReserve
  {
  }

  lemma Regrouped(a: real, b: real, c: real)
    ensures a * (b * c) == (a * b) * c
  {
  }

  lemma RestOf(capital: real, reserve: real, factor: real)
    ensures (capital - capital * reserve) * factor == capital * ((1.0 - reserve) * factor)
  {
    assert capital - capital * reserve == capital * (1.0 - reserve);
    Regrouped(capital, 1.0 - reserve, factor);
  }

  lemma WithinCapital(config: RebalanceConfig, capital: real)
    requires capital > 0.0
    ensures Spent(config, capital) <= capital <==> SelfFunding(config)
  {
    PartOf(capital, (1.0 - config.usdtReserve) * (1.0 + config.tradingFee));
  }

  lemma PartOf(whole: real, part: real)
    requires whole > 0.0
    ensures whole * part <= whole <==> part <= 1.0
  {
    if part > 1.0 {
      assert whole * (part - 1.0) > 0.0;
    } else {
      assert whole * (1.0 - part) >= 0.0;
    }
  }

  /** From a fresh tracker every asset is bought exactly when the reserve covers the fees:
      (1 - reserve) * (1 + fee) at most 1. Any reserve and any fee. */
  lemma InitialPurchasesComplete(
    config: RebalanceConfig, assets: seq<Symbol>, prices: map<Symbol, real>, t: real, capital: real)
    requires |assets| > 0 && Priced(assets, prices) && capital > 0.0
    ensures AllBought(config, Allocation(config, capital, |assets|), assets, prices, t, Empty(assets, capital),
                      |assets|)
       <==> SelfFunding(config)
  {
    hide Allocation, GrossShare, Times, AllBought, Spent, SelfFunding;
    BoughtWhileCashLasts(config, Allocation(config, capital, |assets|), assets, prices, t, Empty(assets, capital),
                         |assets|);
    AllSharesCost(config, capital, |assets|);
    WithinCapital(config, capital);
  }

  /** Otherwise exactly the first assets are bought whose shares the capital covers. */
  lemma InitialPurchasesInOrder(
    config: RebalanceConfig, assets: seq<Symbol>, prices: map<Symbol, real>, t: real, capital: real, i: nat)
    requires i < |assets| && Priced(assets, prices) && capital > 0.0
    ensures var share := Allocation(config, capital, |assets|);
            Initialized(config, share, assets, prices, t, Empty(assets, capital), i).usdt
              >= GrossShare(share, config.tradingFee)
            <==> capital >= Times(i + 1, GrossShare(share, config.tradingFee))
  {
    hide Allocation, GrossShare, Times, Initialized;
    SharesInOrder(config, Allocation(config, capital, |assets|), assets, prices, t, Empty(assets, capital), i);
  }
}
