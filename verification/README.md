# Verification of the arbitrage repository's stateful core

Dafny models of the parts of the repository that keep state or do arithmetic over many
assets, levels or rows, with proofs of what they promise over whole runs. `dafny verify
dfyconfig.toml` checks everything.

## What is modelled

| files | subject |
|---|---|
| `Portfolio`, `PortfolioTracker`, `Rebalancer`, `TrendFilter`, `Backtest` | the threshold rebalancer: tracker, triggers, action lists, execution with partial failure, trend filter, backtest loop |
| `ConservationLaws`, `DownsideLaws`, `TriggerLaws`, `OrderAmounts`, `UpsideLaws`, `UpsideReach`, `FundingLaws`, `CooldownLaws`, `DrainedCashLaws`, `InitialPurchaseLaws` | its theorems about one event: what triggers, what is ordered, accounting, no overshoot, which actions the cash carries, when a cooldown is set |
| `RunSafety`, `BacktestSafety`, `StatisticsLaws`, `Drawdown` | its theorems about whole runs and backtests: solvency, cooldowns, statistics, drawdown |
| `TwoAssetExample` | the two-asset state that the examples start from |
| `OrderedKeys`, `HftOrderBook`, `BookReplay`, `DiffProcessor`, `OrderbookManager`, `LiveBooks`, `ManagerCounts`, `ManagerRecords` | the order book updated in place, the meaning of update streams, message decoding, the manager |
| `AmiaLifecycle`, `AmiaPositions`, `TimingFilter` | the AMIA position lifecycle and signal timing filter |
| `Arbitrage`, `TimeRange`, `Deduplication`, `DeduplicationRuns` | the pairwise scan, the chunking iterator, the cross-batch caches |
| `Sums` | sums over sequences, filters, options and results |

Objects that the code updates in place are classes, loops are loops, and each method is
proved equal to a specification function (a ledger, a plain map of levels, a book of
entries); the laws are lemmas about those functions. Money, prices, quantities and times
are exact reals (times in the chunking iterator are whole microseconds). Clock readings
are arguments. Prices are strictly positive and asset symbols are distinct.

## Main results

Rebalancer and backtest

- Accounting: the final value of a backtest is the capital less all fees plus the price gains on what was held
  (`BacktestAccounting`), so an event wins exactly when its fees are negative (`WinsExactly`) and none does with
  non-negative fee and minimum order (`NothingWins`); `Simulate` and `RunBacktest` tie the objects to it.
- What triggers, and what is then ordered, in stamps, holdings, prices and configuration alone (`FirstTriggerExactly`,
  `UpsideListExactly`, `DownsideListExactly`, `UpsideCash`).
- A downside rebalance takes no asset past the mean and shrinks the distance to equal weights by exactly the traded
  value, whichever actions are refused (`DownsideNeverOvershoots`), in every round of every backtest (`BacktestDownside`).
- An upside rebalance of an asset never takes it below the mean if and only if the asset cannot trigger one at all or
  (1 - sell percentage)(1 + threshold) >= 1 (`NeverBelowMeanExactly`, `BacktestStaysAboveMean`).
- A rebalance sets the cooldown of its trigger under an exact condition on cash, fees and minimum order
  (`DownsideStampsExactly`, `BacktestStampsExactly`).
- Which generated actions the cash carries, as equivalences (`UpsideFunding`, `DownsideFunding`,
  `EqualPurchasesInOrder`, `InitialPurchasesComplete`, `InitialPurchasesInOrder`).
- Over every run nothing turns negative, if and only if no direct trade is harmful and the reserve is at most 100%
  (`RunSolventExactly`, `BacktestSolventExactly`); every trade keeps the asset's next event a cooldown away
  (`RunIsSpaced`, `BacktestSpaced`).
- Upside and downside triggers and the unplaced purchases add up to the events (`BacktestStatistics`, `NeitherExactly`).
- Trend windows are the last twenty prices after any run (`WindowIsLastTwenty`); when a trigger is blocked
  (`BlockMeansStrongTrend`). The reported drawdown is right if and only if a peak precedes a trough (`ReportedIsExact`).

Order books

- The sorted side updated in place means the plain map (`ApplyUpdates`, `ApplyDiff`, `ApplySnapshot`); after any stream
  each level is decided by the last item that counts (`ReplayDecidedByLast`), also from raw messages
  (`MessageDecidesLevel`, `SplitMessage`).
- What an entry that was read earlier shows after a diff, and when it is unaffected (`ReadThenDiff`,
  `UnaffectedExactly`); the round trip through a depth and a snapshot (`SendDepth`, `SnapshotRoundTrip`).
- Which channels carry snapshots, and what a message does to a book (`SnapshotChannelExactly`, `MexcMessageUpdatesBook`).
- After every run the manager's records count exactly the updates made, and a cleanup evicts exactly the inactive
  symbols whose last update is too old (`RecordsTally`, `CleanupAfterRun`, `GlobalsTally`).
- The manager's invariant over every run (`Run`), every tracked book the replay of its updates (`RunReplays`), the same
  run over book objects updated in place (`RunObjects`), exactly when the published counts are right
  (`CountCurrentExactly`).

The rest

- AMIA: every position once and judged right over every run (`EveryPositionOnce`, `EveryCloseIsJudged`), what a row does and
  what a trade earns (`RowExactly`); the timing
  filter keeps as many signals as any selection that respects the gap (`FilterStaysAhead`).
- Arbitrage: exactly the profitable pairs are reported, once, at the right prices (`ReportedExactly`, `ReportedOnce`,
  `ReportedContents`), and which markets take
  part (`MarketsCollapse`).
- Chunking covers each grid point once, and when the end is reached (`GridPointInOneChunk`, `LastChunkReachesEnd`);
  when a key passes the caches again (`SeenExactly`, `EmittedAgain`), with cutoffs from the clock
  (`BookTickerWrittenAgain`, `BookTickerWrittenOnce`).

## Where the code differs from what it says

- `to_orderbook` (src/common/hft_orderbook.py:232-254) builds an `OrderBook` without its required
  `symbol` (src/exchanges/structs/common.py:44-50), so it always raises. With any update handler registered
  the manager changes the book, counts an error and reports failure (`HandlersMakeUpdatesFail`).
- `get_depth`, `get_best_bid` and `get_best_ask` return live entries although `get_depth` promises copies on read: a
  later diff shows through them until it removes the level (`ReadThenDiff`, `LiveSizeIs`; unaffected exactly when
  `UnaffectedExactly` says), a later snapshot never does (`ReadThenSnapshot`).
- A `usdt_reserve` above 100% is accepted and makes the initial purchases leave negative positions
  (`ReserveAboveCapitalLeavesDebt`); up to 100% nothing turns negative (`BacktestSolventExactly`).
- The tracker's drawdown ignores the order of peak and trough: a portfolio rising from 100 to 200 is reported
  with -50% (`RisingPortfolioReportsLoss`); it is exact if and only if some peak is not later than some trough.
- `win_rate` is 0 on every backtest with a non-negative fee and a non-negative minimum order (`NothingWins`). In general
  an event wins exactly when its fees are negative (`WinsExactly`; a configuration that does it: `NegativeMinimumWins`).
- A downside event need not set the cooldown of the asset that triggered it. It does if and only if the deficit is
  covered by the cash together with its fee, or is uncovered and the net sale proceeds exceed the minimum order with
  the cash covering the fee on them (`DownsideStampsExactly`). It does not when the cash covers the deficit but not its
  fee, so that the only action is refused (`FeeUncovered`, `FeeUncoveredExample`); when the purchase is left unplaced
  (`UnplacedExample`); and when it is placed and refused, as always without cash and with a positive fee
  (`DrainedCashOnlySells`, `DrainedCashSetsNoCooldown`, `DrainedCashExample`).
- Without a cooldown an asset after the first may be unable to trigger an upside rebalance: with two assets and the
  shipped thresholds the second has room for 1.35 times the mean and would need more than 1.4 (`TriggerHasRoom`, `SecondOfTwo`).
- `upside_triggers` + `downside_triggers` can be less than `total_events`: a downside event whose sales raise too
  little places no purchase and counts as neither (exactly then: `NeitherExactly`; a state that does it:
  `UnplacedExample`; the difference over a backtest: `BacktestStatistics`).
- Splitting a snapshot message in two loses levels unless the second part sets them again (`SplitMessage`,
  `SplitSnapshotLoses`); diffs can always be split.
- `max_position_pct` and `min_position_pct` are declared and never used.
- `stop` leaves the published symbol counts as they were (`StopLeavesCounts`); a later call that publishes a count
  makes it right again (`CountCurrentExactly`).
- A freshly tracked symbol is reported healthy before its first update although its book is empty. `remove_symbol` keeps
  the book until cleanup.
- The time range documentation speaks of `limit` items per chunk; a full closed chunk holds limit + 1 grid points
  (`GridPointInOneChunk`), and the end of the range can fall between chunks (`LastChunkReachesEnd`). The example in
  its documentation passes 60 as the interval, which is not an interval and raises.
- Batch deduplication says it keeps the latest of several records with one key; the cache filter before it keeps
  the first, and the later pass never sees two (`FirstOccurrenceWins`, `CollectByKey`). What it keeps is the latest
  exactly when no later record with the key was created later (`LatestKeptExactly`; a batch that loses the newer one:
  `OlderIsKept`).
- The arbitrage scan names an exchange by its cache key up to the first underscore, so spot and futures of one
  exchange are one exchange to it (`SpotAndFuturesShare`, `MarketsCollapse`). A zero ask under a bid abandons the whole scan.

## Model

| member | source | states |
|---|---|---|
| `TriggerLaws.FirstTriggerExactly` | src/applications/portfolio_rebalancer/rebalancer.py:46-61 | there is no trigger if and only if every asset was traded less than 60 * cooldown minutes seconds ago or is worth between (1 - downside threshold) and (1 + upside threshold) times the mean; otherwise it is the first asset of which neither holds, with its deviation and direction |
| `TriggerLaws.CooldownEndsOnTime` | src/applications/portfolio_rebalancer/portfolio_tracker.py:160-161 | a 30-minute cooldown is over 1800 seconds after the trade and not a second earlier |
| `InitialPurchaseLaws.InitialPurchasesComplete` | src/applications/portfolio_rebalancer/portfolio_tracker.py:228-244 | from a fresh tracker, for any reserve and any fee, every asset is bought if and only if (1 - reserve) * (1 + fee) is at most 1 |
| `InitialPurchaseLaws.InitialPurchasesInOrder` | src/applications/portfolio_rebalancer/portfolio_tracker.py:228-244 | when the capital falls short, the purchase of asset i goes through if and only if the capital covers i + 1 shares with fees |
| `ConservationLaws.TradeCostsItsFee` | src/applications/portfolio_rebalancer/portfolio_tracker.py:117-140 | a successful trade at the current price lowers total value by exactly its fee |
| `ConservationLaws.ExecutionCostsItsFees` | src/applications/portfolio_rebalancer/rebalancer.py:296-313 | whichever actions are refused, total value falls by exactly the fees counted |
| `ConservationLaws.ActionsAreFair` | src/applications/portfolio_rebalancer/rebalancer.py:85-259 | every generated action trades a managed asset at its current price, has value = quantity * price, and is at least the minimum order |
| `ConservationLaws.EventCostsItsFees` | src/applications/portfolio_rebalancer/rebalancer.py:286-316 | value after an event = value before - fees paid, for every subset of failing actions |
| `ConservationLaws.RepricingGains` | src/applications/portfolio_rebalancer/portfolio_tracker.py:53-78 | with unchanged holdings total value moves by the sum of quantity * price change |
| `DownsideLaws.ExcessesCancel` | src/applications/portfolio_rebalancer/portfolio_tracker.py:82-88 | deviations from the mean asset value sum to zero |
| `DownsideLaws.ExcessCoversDeficit` | src/applications/portfolio_rebalancer/rebalancer.py:197-209 | the outperformers together exceed the mean by at least the deficit of the trigger |
| `DownsideLaws.GuardsUnreachable` | src/applications/portfolio_rebalancer/rebalancer.py:205-213 | with non-negative cash an uncovered deficit always leaves an outperformer and a positive total excess: neither early return is taken |
| `DownsideLaws.SupportOrdersBounded` | src/applications/portfolio_rebalancer/rebalancer.py:215-239 | each support sale is within the seller's excess and a quarter of its value, no asset is sold twice, and together they raise at most the deficit |
| `DownsideLaws.SupportWithinDeficit` | src/applications/portfolio_rebalancer/rebalancer.py:215-223 | the proportional shares, caps included, sum to at most the deficit |
| `DownsideLaws.ExecutionContracts` | src/applications/portfolio_rebalancer/rebalancer.py:296-313 | any subset of one-per-asset moves towards the mean leaves no asset past it and shrinks the L1 distance by exactly the executed value |
| `DownsideLaws.DownsideContracts` | src/applications/portfolio_rebalancer/rebalancer.py:156-259 | every downside action list consists of such moves |
| `DownsideLaws.DownsideNeverOvershoots` | src/applications/portfolio_rebalancer/rebalancer.py:156-259 | a downside rebalance never overshoots: no seller falls below the pre-trade mean, the buyer does not rise above it, and the distance falls by the traded value, whatever is refused |
| `FundingLaws.SalesExecute` | src/applications/portfolio_rebalancer/portfolio_tracker.py:131-138 | sales of different held assets all execute and pay their value less the fee |
| `FundingLaws.EqualPurchasesExecute` | src/applications/portfolio_rebalancer/portfolio_tracker.py:117-127 | equal purchases all execute if and only if the cash covers all of them with fees |
| `FundingLaws.EqualPurchasesInOrder` | src/applications/portfolio_rebalancer/portfolio_tracker.py:117-127 | when the cash falls short, equal purchase i executes if and only if the cash covers i + 1 of them |
| `OrderAmounts.UpsideListExactly` | src/applications/portfolio_rebalancer/rebalancer.py:101-152 | the whole upside list in holdings, prices and configuration: the fraction sold, and for every other asset, once, an equal share of (1 - reserve) * (1 - fee) * the value sold, exactly when that share is positive and reaches the minimum order |
| `OrderAmounts.UpsideCash` | src/applications/portfolio_rebalancer/rebalancer.py:119-152 | when everything executes the cash grows by the reserved part of the net proceeds less the fee on the purchases |
| `OrderAmounts.DownsideListExactly` | src/applications/portfolio_rebalancer/rebalancer.py:170-259 | the whole downside list: nothing below the minimum order; one purchase of exactly what is missing to the mean if the cash covers it; otherwise, of each asset above the mean, the smaller of its pro rata share and a quarter of its value where that reaches the minimum order, and one purchase for the net proceeds exactly when they exceed it |
| `OrderAmounts.CoveredPurchaseReachesMean` | src/applications/portfolio_rebalancer/rebalancer.py:181-194 | a purchase out of the cash that is paid for brings the asset exactly to the mean |
| `FundingLaws.UpsideFunding` | src/applications/portfolio_rebalancer/rebalancer.py:101-152 | upside: the sale always executes, all purchases do if and only if cash plus proceeds covers the gross redistribution; if (1 - reserve) * (1 + fee) <= 1 everything executes and cash never ends lower |
| `FundingLaws.DownsideFunding` | src/applications/portfolio_rebalancer/rebalancer.py:181-257 | downside: the direct purchase executes if and only if cash >= deficit * (1 + fee); otherwise every support sale executes, and the purchase they fund does if and only if prior cash covers that purchase's fee |
| `DrainedCashLaws.DrainedCashOnlySells` | src/applications/portfolio_rebalancer/rebalancer.py:241-257 | with no cash and a positive fee every placed purchase is refused and every sale executes |
| `DrainedCashLaws.DrainedCashSetsNoCooldown` | src/applications/portfolio_rebalancer/rebalancer.py:241-313 | and the trigger's stamp stays as it was, so its cooldown is not set |
| `DrainedCashLaws.DrainedCashExample` | src/applications/portfolio_rebalancer/rebalancer.py:241-257 | a two-asset portfolio without cash in which a sale of 75 executes and the purchase it should fund is placed and refused |
| `CooldownLaws.DownsideStampsExactly` | src/applications/portfolio_rebalancer/rebalancer.py:181-313 | for every solvent ledger a downside rebalance sets its trigger's cooldown if and only if the deficit reaches the minimum order and is either covered by the cash with its fee, or uncovered with net sale proceeds above the minimum order and a fee that the cash covers; otherwise the stamp stays |
| `CooldownLaws.FeeUncovered` | src/applications/portfolio_rebalancer/rebalancer.py:181-194 | cash for the deficit but not for its fee: the event has one action, it is refused, and nothing changes |
| `CooldownLaws.FeeUncoveredExample` | src/applications/portfolio_rebalancer/rebalancer.py:181-194 | a two-asset portfolio with 100 in cash against a deficit of 100 that does it |
| `CooldownLaws.RebalanceStampsExactly` | src/applications/portfolio_rebalancer/rebalancer.py:261-321 | a rebalance stamps its trigger if and only if it is an upside one that places its sale or a downside one whose purchase is placed and paid for |
| `UpsideLaws.ValueAfterIs` | src/applications/portfolio_rebalancer/rebalancer.py:85-154 | after an upside rebalance the trigger keeps exactly the unsold fraction of its value, and all of it when nothing was placed |
| `UpsideLaws.UpsideStaysAboveMean` | src/applications/portfolio_rebalancer/rebalancer.py:85-118 | with (1 - sell percentage) * (1 + upside threshold) >= 1 the sale of an asset past the threshold leaves it at or above the mean |
| `UpsideReach.TriggerHasRoom` | src/applications/portfolio_rebalancer/rebalancer.py:36-61 | asset i of n triggers an upside rebalance only if 1 + threshold is below n, or without a cooldown below n less the least that each asset before it must be worth |
| `UpsideReach.NeverBelowMeanExactly` | src/applications/portfolio_rebalancer/rebalancer.py:36-118 | no upside rebalance that the trigger selection picks for asset i takes it below the pre-trade mean, on any holdings, prices, stamps and time, if and only if asset i has no such room or (1 - sell percentage) * (1 + upside threshold) >= 1 |
| `UpsideReach.SecondOfTwo` | src/applications/portfolio_rebalancer/rebalancer.py:36-118 | with two assets, thresholds 40% and 35% and half sold, the second asset triggers no upside rebalance without a cooldown, and with one it can be taken below the mean |
| `RunSafety.ExecutionKeepsSolvent` | src/applications/portfolio_rebalancer/portfolio_tracker.py:117-140 | no subset of executed non-negative trades makes cash or a position negative |
| `RunSafety.ExecutionStamps` | src/applications/portfolio_rebalancer/portfolio_tracker.py:121-138 | an execution sets the cooldown of exactly the assets it traded |
| `RunSafety.TradeSolventExactly` | src/applications/portfolio_rebalancer/portfolio_tracker.py:117-140 | for every quantity and price, negative ones too, an accepted trade keeps cash and positions non-negative if and only if a purchase does not take the position below zero and a sale's proceeds do not take the cash below zero |
| `RunSafety.InitializeSolventExactly` | src/applications/portfolio_rebalancer/portfolio_tracker.py:217-244 | the initial purchases keep cash and positions non-negative if and only if the reserve is at most 100% or nothing is priced |
| `RunSafety.RunSolventExactly` | src/applications/portfolio_rebalancer/portfolio_tracker.py:38-244 | over every run of initial purchases, updates, direct trades and rebalances, in any order of times, cash and positions stay non-negative throughout if and only if each direct trade is refused or harmless and no initial purchase is made with a reserve above 100% |
| `RunSafety.ReserveAboveCapitalLeavesDebt` | src/applications/portfolio_rebalancer/portfolio_tracker.py:228-244 | with a reserve of 200% of a capital of 100 the initial purchase leaves a position of -100 |
| `RunSafety.RunIsSpaced` | src/applications/portfolio_rebalancer/portfolio_tracker.py:145-161 | on non-decreasing times every event comes at least a cooldown after every earlier executed trade of its trigger, whoever made it |
| `StatisticsLaws.NeitherExactly` | src/applications/portfolio_rebalancer/rebalancer.py:181-257 | an event counts as neither an upside nor a downside trigger if and only if it is a downside one with an uncovered deficit and support sales whose net proceeds do not exceed the minimum order |
| `StatisticsLaws.StatisticsExactly` | src/applications/portfolio_rebalancer/rebalancer.py:323-352 | over any events: the numbers of events and actions, the volume and the fees are the sums, and the two trigger counts are the numbers of events that sell for an upside trigger and that buy for a downside one |
| `StatisticsLaws.EventFees` | src/applications/portfolio_rebalancer/rebalancer.py:296-313 | an event's fees are at most the fee on its total volume, with equality if and only if no action was refused |
| `StatisticsLaws.BacktestStatistics` | src/applications/portfolio_rebalancer/rebalancer.py:339-352 | after every round of every backtest, upside triggers + downside triggers + rounds whose downside purchase was left unplaced = number of events, and the fees are those of all events |
| `StatisticsLaws.UnplacedExample` | src/applications/portfolio_rebalancer/rebalancer.py:241-257 | a two-asset state with a minimum order of 75 in which an event is counted as neither |
| `TrendFiltering.BlockMeansStrongTrend` | src/applications/portfolio_rebalancer/trend_filtered_rebalancer.py:68-171 | a trigger is blocked if and only if its window has at least six prices and the short mean lies more than 3% beyond a positive long mean in the trigger's direction |
| `TrendFiltering.BlocksExactly` | src/applications/portfolio_rebalancer/trend_filtered_rebalancer.py:68-171 | with fewer than five prices nothing is blocked; otherwise exactly on a positive mean and a mean of the last five more than 3% above it against a sale, or below it against a purchase |
| `TrendFiltering.FilteredTriggerExactly` | src/applications/portfolio_rebalancer/trend_filtered_rebalancer.py:173-204 | the filtered trigger is the base trigger unless the last twenty prices of its asset, the current one included, trend against it that way |
| `TrendFiltering.MeanRevertingExactly` | src/applications/portfolio_rebalancer/trend_filtered_rebalancer.py:104-116 | mean reverting means within 5% of a positive mean, a mean that is not positive, or a move since the third last price against the short mean |
| `TrendFiltering.FilteredStatsExactly` | src/applications/portfolio_rebalancer/trend_filtered_rebalancer.py:128-171 | which counters a check increments |
| `BacktestSafety.BacktestWindows` | src/applications/portfolio_rebalancer/trend_filtered_rebalancer.py:53-66 | with the filter, after n rounds of every backtest the window of each asset is the last twenty of its n closes |
| `BacktestSafety.BacktestFilter` | src/applications/portfolio_rebalancer/trend_filtered_rebalancer.py:173-204 | in every round of every backtest the filter, if on, lets the first trigger through unless the last twenty closes of its asset, this round included, trend against it; if off it always does |
| `TrendFiltering.WindowIsLastTwenty` | src/applications/portfolio_rebalancer/trend_filtered_rebalancer.py:53-66 | after any run each window is the last min(n, 20) prices of its asset |
| `Backtesting.BacktestAccounting` | src/applications/portfolio_rebalancer/backtester.py:253-277 | final value = capital - fees of the initial purchases - fees of all events + gains on what was held between recorded states, with or without the trend filter, for every positive price path |
| `Backtesting.NothingWins` | src/applications/portfolio_rebalancer/backtester.py:273-279 | with non-negative fee and minimum order no event raises the value at its own prices, so the winning count stays 0 on every run |
| `Backtesting.WinsExactly` | src/applications/portfolio_rebalancer/backtester.py:273-279 | for every configuration and run, an event wins if and only if the fees counted for it are negative |
| `StatisticsLaws.NegativeMinimumWins` | src/applications/portfolio_rebalancer/backtester.py:275-279 | a configuration with a negative minimum order and a negative sell percentage in which an event wins |
| `Backtesting.InitialPurchasesCostFees` | src/applications/portfolio_rebalancer/portfolio_tracker.py:231-244 | the initial purchases lower total value by exactly their fees |
| `BacktestSafety.BacktestIsRun` | src/applications/portfolio_rebalancer/backtester.py:253-271 | the ledger and the events of a backtest after n rounds are those of the run of its calls: the initial purchases, then one rebalance a round, a trend filter veto blocking it |
| `BacktestSafety.BacktestSolventExactly` | src/applications/portfolio_rebalancer/backtester.py:253-271 | every round of a backtest has non-negative cash and positions if and only if the reserve is at most 100% |
| `BacktestSafety.BacktestDownside` | src/applications/portfolio_rebalancer/rebalancer.py:156-259 | in every round of every backtest a downside rebalance takes no asset past the mean and shrinks the L1 distance to equal weights by the traded value |
| `BacktestSafety.BacktestDownsideFunding` | src/applications/portfolio_rebalancer/rebalancer.py:181-257 | in every round of every backtest the funding conditions of a downside rebalance are exactly those of DownsideFunding |
| `BacktestSafety.BacktestUpside` | src/applications/portfolio_rebalancer/rebalancer.py:101-152 | in every round of every backtest an upside sale executes, and with (1 - reserve) * (1 + fee) <= 1 everything does, leaving no less cash |
| `BacktestSafety.BacktestStampsExactly` | src/applications/portfolio_rebalancer/rebalancer.py:261-321 | in every round of every backtest a rebalance stamps its trigger exactly under the conditions of RebalanceStampsExactly |
| `BacktestSafety.BacktestStaysAboveMean` | src/applications/portfolio_rebalancer/rebalancer.py:85-118 | with such parameters, in every round of every backtest an upside rebalance leaves its trigger at or above the mean |
| `BacktestSafety.BacktestSpaced` | src/applications/portfolio_rebalancer/portfolio_tracker.py:145-161 | over every backtest on ordered times each event comes a cooldown or more after every earlier trade of its trigger, initial purchases included |
| `Backtesting.PricesAreFirstCloses` | src/applications/portfolio_rebalancer/backtester.py:198-218 | an asset is priced at a time exactly when it has a candle that opens then, by the close of the first one |
| `Backtesting.AdvanceRecords` | src/applications/portfolio_rebalancer/backtester.py:262-275 | a round records the state at its prices and, after an event, the state that the event reports; the event carries its trigger, the state before it and the time |
| `Backtesting.RecordsPerRound` | src/applications/portfolio_rebalancer/backtester.py:262-282 | a run records one state a round and one more for each event |
| `Drawdown.DrawdownIsWorstChange` | AMIA_strategy_development/AMIA_example_implementation.py:634-638 | for positive series the AMIA figure is the minimum of (x_j - x_i) / x_i over all i <= j, and it is attained |
| `Drawdown.ReportedNeverUnderstates` | src/applications/portfolio_rebalancer/portfolio_tracker.py:179 | the tracker's figure is at or below the change between any two recorded values |
| `Drawdown.ReportedIsExact` | src/applications/portfolio_rebalancer/portfolio_tracker.py:95-98 | the tracker's figure equals the true drawdown if and only if some peak is not later than some trough |
| `Drawdown.RisingPortfolioReportsLoss` | src/applications/portfolio_rebalancer/portfolio_tracker.py:179 | a portfolio that rose from 100 to 200 is reported with -50% |
| `Drawdown.TrackerReports` | src/applications/portfolio_rebalancer/portfolio_tracker.py:95-98 | the running peak and trough fields give exactly the figure of the recorded history |
| `HftOrderBooks.SpreadIsSmallestGap` | src/common/hft_orderbook.py:184-192 | the spread is the smallest gap between any ask and any bid |
| `HftOrderBooks.MidIsHalfway` | src/common/hft_orderbook.py:194-202 | the mid price lies halfway between the highest bid and the lowest ask, and is missing exactly when a side is empty |
| `HftOrderBooks.TopDecidesHealth` | src/common/hft_orderbook.py:269-282 | the check of the two best levels passes if and only if both sides are non-empty and every bid is below every ask |
| `BookReplay.DiffDecidedByLast` | src/common/hft_orderbook.py:98-131 | the last item for a price decides its level, other prices are untouched |
| `BookReplay.SnapshotDecidedByLast` | src/common/hft_orderbook.py:151-168 | the last positive item for a price decides its level |
| `BookReplay.ReplayDecidedByLast` | src/common/hft_orderbook.py:98-168 | after any stream of snapshots and diffs each level is decided by the last update to its price since the last snapshot |
| `BookReplay.SnapshotForgets` | src/common/hft_orderbook.py:151-168 | nothing before a snapshot matters |
| `BookReplay.DiffsCompose` | src/common/hft_orderbook.py:98-131 | diff A then diff B is the diff of their concatenation |
| `BookReplay.DiffsComposeSizes` | src/common/hft_orderbook.py:98-131 | at different times the two diffs still leave the same prices and sizes as their concatenation |
| `BookReplay.LiveSizeIs` | src/common/hft_orderbook.py:98-131 | after any diff an entry read at p shows the last size the diff carries for p before the first item that removes p, or its old size without one |
| `BookReplay.UnaffectedExactly` | src/common/hft_orderbook.py:98-131 | it shows its old size if and only if no such item carries another size |
| `BookReplay.ReadThenDiff` | src/common/hft_orderbook.py:74-230 | the depth and the best levels of a book are read, then a diff is applied: the book takes it, and every entry read shows its live size |
| `BookReplay.ReadThenOneItem` | src/common/hft_orderbook.py:98-175 | on every book with a bid, a one-item diff for the best price changes the entry that was read before it |
| `BookReplay.ReadThenSnapshot` | src/common/hft_orderbook.py:133-230 | the depth and the best levels are read, then a snapshot is applied: the book takes it, and no entry read changes |
| `BookReplay.SnapshotRoundTrip` | src/common/hft_orderbook.py:133-230 | the prices and sizes of a depth request, taken as a snapshot, rebuild the side if and only if the depth covers it |
| `BookReplay.SendDepth` | src/common/hft_orderbook.py:133-230 | a depth read from one book and applied as a snapshot to any book leaves there the sizes of exactly the sides it covers |
| `DiffProcessing.MalformedIgnored` | src/common/orderbook_diff_processor.py:213-235 | malformed items change nothing wherever they stand |
| `DiffProcessing.SnapshotChannelExactly` | src/common/orderbook_diff_processor.py:237-239 | a channel carries snapshots if and only if its name has limit.depth somewhere in it |
| `DiffProcessing.LimitChannelIsSnapshot` | src/common/orderbook_diff_processor.py:126-127 | every channel that starts with the documented name of full depth does |
| `DiffProcessing.IncreaseChannelIsDiff` | src/common/orderbook_diff_processor.py:126-127 | one that starts with the documented name of increments does not, unless what follows names limit.depth |
| `DiffProcessing.MessageDecidesLevel` | src/common/orderbook_diff_processor.py:203-248 | diff channel or snapshot channel: the last well-formed item for a price, in a snapshot the last positive one, decides its level in the book |
| `DiffProcessing.MexcMessageUpdatesBook` | src/common/orderbook_diff_processor.py:187-248 | a readable MEXC message, parsed and applied, leaves every price of both sides as its last counting item says: as a snapshot, with all other prices gone, exactly when its channel names limit.depth, and otherwise with all other prices alone; the levels carry its time in seconds |
| `DiffProcessing.GateioMessageUpdatesBook` | src/common/orderbook_diff_processor.py:352-436 | the same for a Gate.io message, never a snapshot |
| `DiffProcessing.SilentMessage` | src/common/orderbook_diff_processor.py:203-248 | a price without such an item keeps its level through a diff and has none after a snapshot |
| `DiffProcessing.SplitMessage` | src/common/orderbook_diff_processor.py:203-248 | one message leaves the same levels as its parts sent one after the other at the same time if and only if the channel carries diffs or the second part sets again every price that the first sets |
| `DiffProcessing.SplitSnapshotLoses` | src/common/orderbook_diff_processor.py:237-238 | a two-item snapshot message whose split loses the first level |
| `OrderbookManagement.AverageBelowMax` | src/common/orderbook_manager.py:57-69 | a moving average started by its first measurement never exceeds the maximum |
| `OrderbookManagement.RefreshedAgrees` | src/common/orderbook_manager.py:371-402 | after an update the counts add up and cached levels, spread, mid and health are the live book's |
| `OrderbookManagement.HandlersMakeUpdatesFail` | src/common/orderbook_manager.py:254-296 | the book takes every update, but the call reports success if and only if no handler is registered; no other symbol changes |
| `ManagerCounts.CountCurrentExactly` | src/common/orderbook_manager.py:156-211 | after any run the published number of books, and that of active symbols, is right if and only if no stop of a running manager with a non-zero figure came after the last call that publishes it |
| `ManagerCounts.StopLeavesCounts` | src/common/orderbook_manager.py:156-176 | add, start, stop: no books and no active symbols are left, and both counts say 1 |
| `ManagerRecords.RecordsTally` | src/common/orderbook_manager.py:57-69 | after any run the record of a tracked symbol counts exactly the updates since its book was created: all, diffs, snapshots, failures; its time is the reading of the last one or of the creation; its maximum is the longest in microseconds |
| `ManagerRecords.RefreshedCounts` | src/common/orderbook_manager.py:371-390 | one update moves the average a tenth of the way to its time, the first non-zero one starting it |
| `ManagerRecords.CleanupAfterRun` | src/common/orderbook_manager.py:429-447 | a cleanup after any run drops a tracked symbol if and only if it is inactive and its last update, or its creation, lies more than the threshold back; it publishes the number of symbols that old |
| `ManagerRecords.TouchedBookStays` | src/common/orderbook_manager.py:429-447 | a removed symbol updated at 1000 survives a cleanup at 1010 with a threshold of 30, and not one at 1031 |
| `ManagerRecords.TrackedExactly` | src/common/orderbook_manager.py:156-296 | which symbols are tracked after one more call of any run |
| `ManagerRecords.ActiveExactly` | src/common/orderbook_manager.py:178-209 | after any run a symbol is active exactly as the last call that decides it says |
| `ManagerRecords.GlobalsTally` | src/common/orderbook_manager.py:285-402 | after any run updates and failures are counted over the whole run, handlers are those registered, and the manager runs exactly after a start without a stop since |
| `ManagerRecords.GlobalAverageMoves` | src/common/orderbook_manager.py:387-402 | an update moves the global average a hundredth of the way to its time, and the maximum up to it |
| `OrderbookManagement.Run` | src/common/orderbook_manager.py:178-211 | the invariant (same keys, active set inside, counts and cached figures right, averages below maxima) holds after every run |
| `OrderbookManagement.RunReplays` | src/common/orderbook_manager.py:213-296 | after any run each tracked book holds exactly what replaying its own updates since it was created leaves |
| `LiveBooks.RunObjects` | src/common/orderbook_manager.py:156-447 | over every run the book objects updated in place share nothing, hold exactly the levels of the manager's state, and carry the figures cached for them |
| `OrderbookManagement.SameTop` | src/common/hft_orderbook.py:170-202 | counts, spread, mid price and health read off a book object are those read off the value it follows |
| `AmiaLifecycle.EveryPositionOnce` | AMIA_strategy_development/AMIA_example_implementation.py:525-585 | over every run the positions in the two lists carry the numbers 1 to the counter, once each; the counter is their total; at most the maximum are active |
| `AmiaLifecycle.EveryCloseIsJudged` | AMIA_strategy_development/AMIA_example_implementation.py:528-583 | over every run CLOSED positions were held for less than the maximum, FORCE_CLOSED ones for at least that, and no survivor of a row has reached it unless it entered on that row |
| `AmiaLifecycle.ClosedIsFinal` | AMIA_strategy_development/AMIA_example_implementation.py:390-391 | a closed position is never changed, reopened or removed by later rows |
| `AmiaLifecycle.NothingClosesEarly` | AMIA_strategy_development/AMIA_example_implementation.py:386 | on rows in time order no position closes before it opened |
| `AmiaLifecycle.RowExactly` | AMIA_strategy_development/AMIA_example_implementation.py:528-583 | the whole effect of one row: positions held for the maximum are force closed; then an entry signal with room enters one position at spot ask and futures bid, and otherwise an exit signal closes all the rest; each closed leg earns its price difference on the units entered |
| `AmiaLifecycle.RowKeepsNumbers` | AMIA_strategy_development/AMIA_example_implementation.py:533-583 | one row neither loses nor duplicates a position |
| `TimingFilter.KeptExactlyWhen` | AMIA_strategy_development/AMIA_example_implementation.py:273-287 | a signal is kept if and only if neither the incoming last signal nor any kept row before it is within the gap |
| `TimingFilter.KeptAreSpaced` | AMIA_strategy_development/AMIA_example_implementation.py:279-285 | kept signals are at least the gap apart and at least the gap after the incoming last signal |
| `TimingFilter.NothingAdded` | AMIA_strategy_development/AMIA_example_implementation.py:279-285 | a row keeps both of its signals or loses both |
| `TimingFilter.FilterIsIdempotent` | AMIA_strategy_development/AMIA_example_implementation.py:273-287 | filtering the result again from the same start changes nothing |
| `TimingFilter.FilteredInParts` | AMIA_strategy_development/AMIA_example_implementation.py:277-285 | two series filtered in turn, the last signal time carried over, are filtered as one |
| `TimingFilter.FilterStaysAhead` | AMIA_strategy_development/AMIA_example_implementation.py:273-287 | on sorted times no other selection that respects the gap keeps more signals |
| `TimingFilter.KeptRespectsGap` | AMIA_strategy_development/AMIA_example_implementation.py:273-287 | what the filter keeps is itself such a selection |
| `Arbitrage.LatestPerPrefix` | src/applications/data_collection/analytics.py:262-266 | the scan sees, per exchange prefix, exactly the last cached ticker of the symbol with that prefix |
| `Arbitrage.SpotAndFuturesShare` | src/applications/data_collection/analytics.py:265 | the keys of spot and futures of one exchange have the same prefix |
| `Arbitrage.MarketsCollapse` | src/applications/data_collection/analytics.py:262-266 | for any cache: a cached market takes part in the scan if and only if no later entry of the symbol has its prefix |
| `Arbitrage.ReportedExactly` | src/applications/data_collection/analytics.py:282-314 | an ordered pair is reported if and only if bid_b > ask_a and bid_b > (1 + threshold) * ask_a |
| `Arbitrage.ReportedOnce` | src/applications/data_collection/analytics.py:276-314 | no ordered pair is reported twice |
| `Arbitrage.ReportedContents` | src/applications/data_collection/analytics.py:284-314 | every reported opportunity buys at the ask of one quote and sells at the higher bid of another, and carries their exchanges, the difference, its percentage of the ask, which exceeds the threshold, the symbol and the time |
| `Arbitrage.RecentExactly` | src/applications/data_collection/analytics.py:447-455 | what the cleanup check leaves: everything within a minute of the last cleanup, and otherwise what is younger than a minute |
| `Arbitrage.FoundSurvives` | src/applications/data_collection/analytics.py:316-325 | an opportunity just found survives the cleanup of its own scan |
| `Arbitrage.OneDirectionAtMost` | src/applications/data_collection/analytics.py:272-314 | with uncrossed books never both directions of a pair of exchanges are reported |
| `Arbitrage.BestPricesDecide` | src/applications/data_collection/analytics.py:276-314 | with uncrossed books, for every threshold, something is reported if and only if the highest bid exceeds the lowest ask and (1 + threshold) times it |
| `Arbitrage.BestCrossMeans` | src/applications/data_collection/analytics.py:276-314 | for a threshold of at least 0 the second of these comparisons decides alone |
| `TimeRange.ChunkCount` | src/common/iterators.py:49-67 | exactly ceil((to - from) / ((limit + 1) * interval)) chunks |
| `TimeRange.ChunkAt` | src/common/iterators.py:51-63 | where chunk c begins and ends |
| `TimeRange.ChunksAreOrdered` | src/common/iterators.py:51-63 | chunks run forward inside the range and consecutive ones are exactly one interval apart |
| `TimeRange.GridPointInOneChunk` | src/common/iterators.py:49-67 | every grid point from + k * interval before the end lies in exactly one closed chunk, number k / (limit + 1) |
| `TimeRange.LastChunkReachesEnd` | src/common/iterators.py:53-67 | the last chunk ends at the end of the range if and only if (to - from - 1) mod stride is below limit * interval |
| `TimeRange.EndCanBeMissed` | src/common/iterators.py:53-67 | one-minute candles, two a chunk, over three minutes: the end is in no chunk |
| `TimeRange.IntervalSeconds` | src/utils/kline_utils.py:9-26 | only values outside the interval enumeration last 0 seconds |
| `TimeRange.IntervalsLast` | src/utils/kline_utils.py:14-25 | the intervals last what their names say, a month thirty days |
| `Deduplication.KeptKeys` | src/db/operations.py:147-151 | the keys kept are exactly the batch's keys that were not cached |
| `Deduplication.KeptDistinct` | src/db/operations.py:63-78 | no key is kept twice |
| `Deduplication.FirstOccurrenceWins` | src/db/operations.py:147-173 | of several records with one key the first is kept, never a later one |
| `Deduplication.LatestKeptExactly` | src/db/operations.py:147-173 | the record written for an uncached key is the one that keeping the latest would write if and only if no later record of the batch with its key was created later |
| `Deduplication.OlderIsKept` | src/db/operations.py:147-173 | a two-record batch that writes the older record |
| `Deduplication.CachedLeavesNothing` | src/db/operations.py:147-157 | a batch whose keys are all cached leaves nothing |
| `Deduplication.SeenExactly` | src/db/operations.py:29-78 | a key is cached if and only if it was cached at the start or came in some batch, and no cleanup since evicted it |
| `Deduplication.EmittedAgain` | src/db/operations.py:29-78 | a key of an earlier batch comes through again if and only if a cleanup since its last batch found its timestamp at or before the cutoff |
| `Deduplication.EmittedOnce` | src/db/operations.py:29-78 | over a run that never evicts it, a key reaches the database once if it came at all and was not cached at the start, and never otherwise |
| `DeduplicationRuns.InsertBookTickers` | src/db/operations.py:29-176 | a run of batch inserts over one cache, cutoffs taken from the clock readings, writes and caches what Emitted and SeenAfter say |
| `DeduplicationRuns.BookTickerWrittenOnce` | src/db/operations.py:29-176 | a book ticker is written once if it came at all and was not cached at the start, as long as no insert comes ten minutes or more after its timestamp |
| `DeduplicationRuns.BookTickerWrittenAgain` | src/db/operations.py:29-176 | a repeated book ticker is written again if and only if an insert since was due for a cleanup and found it ten minutes old |
| `DeduplicationRuns.InsertTrades` | src/db/operations.py:633-851 | the same run over the trade cache, which cleans up before every batch |
| `DeduplicationRuns.TradeWrittenOnce` | src/db/operations.py:633-851 | a trade is written once under the same condition |
| `DeduplicationRuns.OneBookTickerWritten` | src/db/operations.py:29-176 | of all book tickers of one symbol and time exactly one is written, if any came and none was cached, as long as every insert comes less than ten minutes after that time |
| `DeduplicationRuns.OneTradeWritten` | src/db/operations.py:633-851 | the same for trades of one symbol, time and id, a missing id counting as empty |
| `DeduplicationRuns.LastCleanupExactly` | src/db/operations.py:29-45 | the last cleanup was that of the last call that came five minutes or more after the one before |
| `Portfolio.PortfolioState.GetDeviations` | src/applications/portfolio_rebalancer/config.py:88-96 | every asset gets its relative deviation from the mean asset value, 0 when the mean is not positive |
| `PortfolioTracking.PortfolioTracker.constructor` | src/applications/portfolio_rebalancer/portfolio_tracker.py:15-36 | a fresh tracker holds only the capital, has traded nothing, and its peak and trough are the capital |
| `PortfolioTracking.PortfolioTracker.UpdatePrices` | src/applications/portfolio_rebalancer/portfolio_tracker.py:38-100 | the reported state has every holding with its quantity, price (a missing price is 0), value and last trade, the cash, the total and the mean; it is appended to the history, and peak and trough stay those of the whole history |
| `PortfolioTracking.PortfolioTracker.ExecuteTrade` | src/applications/portfolio_rebalancer/portfolio_tracker.py:102-143 | a trade moves exactly one position, the cash with its fee and one timestamp; a refused trade names its reason and changes nothing |
| `PortfolioTracking.PortfolioTracker.CheckCooldown` | src/applications/portfolio_rebalancer/portfolio_tracker.py:145-161 | true exactly for an asset traded less than the cooldown ago |
| `PortfolioTracking.PortfolioTracker.InitializeEqualWeights` | src/applications/portfolio_rebalancer/portfolio_tracker.py:217-244 | buys equal shares asset by asset while the cash lasts; without assets or prices nothing happens |
| `Rebalancing.ThresholdCascadeRebalancer.CheckRebalanceNeeded` | src/applications/portfolio_rebalancer/rebalancer.py:36-61 | returns the trigger that FirstTriggerExactly characterises |
| `Rebalancing.ThresholdCascadeRebalancer.HandleUpside` | src/applications/portfolio_rebalancer/rebalancer.py:85-154 | the loop over other assets builds the upside action list that UpsideFunding and ActionsAreFair are about |
| `Rebalancing.ThresholdCascadeRebalancer.HandleDownside` | src/applications/portfolio_rebalancer/rebalancer.py:156-259 | the branches and the loop over outperformers build the downside action list that the downside laws are about |
| `Rebalancing.ThresholdCascadeRebalancer.RunActions` | src/applications/portfolio_rebalancer/rebalancer.py:296-313 | running the actions in order, swallowing refusals, gives the ledger and the fees of Execute |
| `Rebalancing.ThresholdCascadeRebalancer.ExecuteRebalance` | src/applications/portfolio_rebalancer/rebalancer.py:261-321 | tracker, event and both histories after a call: nothing without a trigger or without actions, otherwise one event and one more recorded state |
| `Rebalancing.ThresholdCascadeRebalancer.GetStatistics` | src/applications/portfolio_rebalancer/rebalancer.py:323-352 | the figures are sums and counts over all recorded events; the average number of actions is missing exactly without events and times the events gives the actions |
| `TrendFiltering.TrendFilteredRebalancer.UpdatePriceHistory` | src/applications/portfolio_rebalancer/trend_filtered_rebalancer.py:53-66 | every known asset's window gets its price and is cut to 20 |
| `TrendFiltering.TrendFilteredRebalancer.ShouldAllowRebalance` | src/applications/portfolio_rebalancer/trend_filtered_rebalancer.py:128-171 | allows unless blocked, counts the check once, and keeps the outcome counters summing to at most the checks |
| `TrendFiltering.TrendFilteredRebalancer.CheckRebalanceNeeded` | src/applications/portfolio_rebalancer/trend_filtered_rebalancer.py:173-204 | updates windows first, then filters the base trigger |
| `TrendFiltering.TrendFilteredRebalancer.ExecuteRebalance` | src/applications/portfolio_rebalancer/trend_filtered_rebalancer.py:173-204 | the inherited rebalance step driven by the filtered trigger |
| `Backtesting.BacktestEngine.AlignPriceData` | src/applications/portfolio_rebalancer/backtester.py:162-196 | the timestamps are strictly increasing and exactly those at which every asset has a candle |
| `Backtesting.BacktestEngine.GetPricesAtTimestamp` | src/applications/portfolio_rebalancer/backtester.py:198-218 | each asset with a candle at the time gets the close of its first such candle |
| `Backtesting.BacktestEngine.Tick` | src/applications/portfolio_rebalancer/backtester.py:262-282 | one round on the objects is one Advance of the simulation |
| `Backtesting.BacktestEngine.Simulate` | src/applications/portfolio_rebalancer/backtester.py:241-286 | the object loop ends in the state of the simulation and counts its events, its winners and its drawdown |
| `Backtesting.BacktestEngine.RunBacktest` | src/applications/portfolio_rebalancer/backtester.py:220-332 | fails exactly without common timestamps; otherwise the final value is explained by capital, fees and price gains, the initial value is the capital, the event count and the drawdown are those of the run, and the win rate is the share of events with negative fees, 0 for non-negative fee and minimum order |
| `HftOrderBooks.ApplyUpdate` | src/common/hft_orderbook.py:98-131 | one diff item removes, overwrites in place or inserts a level; other levels keep their entry objects |
| `HftOrderBooks.ApplyUpdates` | src/common/hft_orderbook.py:98-131 | the sorted side after the loop means the plain map after the items in order; a level that no item removed keeps its entry object, one that was removed and added again has another; every old entry shows its live size |
| `HftOrderBooks.HFTOrderBook.ApplyDiff` | src/common/hft_orderbook.py:74-131 | both sides take the diff as plain maps, order and positive sizes are kept, sequence and time follow the rules, no stale check; entries handed out before show their live size |
| `HftOrderBooks.HFTOrderBook.ApplySnapshot` | src/common/hft_orderbook.py:133-168 | both sides are replaced by the positive items of the snapshot, and no entry handed out before changes |
| `HftOrderBooks.HFTOrderBook.GetBestBid` | src/common/hft_orderbook.py:170-175 | the live entry at the highest bid, none exactly when there is none |
| `HftOrderBooks.HFTOrderBook.GetBestAsk` | src/common/hft_orderbook.py:177-182 | the live entry at the lowest ask, none exactly when there is none |
| `HftOrderBooks.HFTOrderBook.GetSpread` | src/common/hft_orderbook.py:184-192 | returns that spread, none when a side is empty |
| `HftOrderBooks.HFTOrderBook.GetMidPrice` | src/common/hft_orderbook.py:194-202 | returns the mean of the best prices, none when a side is empty |
| `HftOrderBooks.HFTOrderBook.GetDepth` | src/common/hft_orderbook.py:204-230 | the live entries of the best min(k, n) levels in strict order; no level left out is better |
| `HftOrderBooks.HFTOrderBook.CopyDepth` | src/common/hft_orderbook.py:232-249 | what the conversion copies before it raises: price and size of the best min(k, n) levels |
| `HftOrderBooks.HFTOrderBook.ToOrderbook` | src/common/hft_orderbook.py:232-254 | the conversion always raises for the missing symbol, whatever the book |
| `HftOrderBooks.HFTOrderBook.IsValid` | src/common/hft_orderbook.py:269-282 | decides exactly that |
| `DiffProcessing.MexcOrderbookDiffProcessor.ParseDiffMessage` | src/common/orderbook_diff_processor.py:187-248 | an update for exactly the messages with data, a usable time, list-like sides and a textual channel; other messages with data are parse errors; snapshot exactly on depth-limited channels |
| `DiffProcessing.GateioOrderbookDiffProcessor.ParseDiffMessage` | src/common/orderbook_diff_processor.py:352-436 | an update for exactly the update events with a readable result, never a snapshot; an unreadable result is a parse error; update id 0 counts as none |
| `DiffProcessing.ProcessMexcMessage` | src/common/orderbook_manager.py:213-296 | a MEXC message through processor and manager: its update is applied, or state is unchanged and the call fails |
| `DiffProcessing.ProcessGateioMessage` | src/common/orderbook_manager.py:213-296 | the same for a Gate.io message |
| `OrderbookManagement.OrderbookManager.AddSymbol` | src/common/orderbook_manager.py:178-199 | tracks a new symbol with an empty book and fresh statistics, and activates it |
| `OrderbookManagement.OrderbookManager.RemoveSymbol` | src/common/orderbook_manager.py:201-209 | only deactivates: book and statistics stay |
| `OrderbookManagement.OrderbookManager.UpdateStats` | src/common/orderbook_manager.py:371-402 | refreshes the symbol's record from its book and the global averages |
| `OrderbookManagement.OrderbookManager.ApplyParsedUpdate` | src/common/orderbook_manager.py:493-565 | state and success flag after a parsed update, invariant kept |
| `OrderbookManagement.ApplyToBook` | src/common/orderbook_manager.py:254-296 | the book object updated in place goes on following the value that the manager's state holds for it |
| `OrderbookManagement.OrderbookManager.ProcessDiffUpdate` | src/common/orderbook_manager.py:213-296 | without a processor or a parsed update nothing changes; otherwise as a parsed update |
| `OrderbookManagement.OrderbookManager.CleanupStaleOrderbooks` | src/common/orderbook_manager.py:429-447 | the loops over stale symbols compute the eviction, invariant kept |
| `OrderbookManagement.OrderbookManager.Stop` | src/common/orderbook_manager.py:156-176 | clears books, statistics and the active set of a running manager and leaves the published counts; does nothing when it is not running |
| `AmiaPositions.AMIAPositionManager.OpenPosition` | AMIA_strategy_development/AMIA_example_implementation.py:304-343 | opens exactly when below the maximum, with the next number and the row's entry prices |
| `AmiaPositions.AMIAPositionManager.IndexOf` | AMIA_strategy_development/AMIA_example_implementation.py:362-390 | the first active position equal in all fields; for an active position it is that position itself |
| `AmiaPositions.AMIAPositionManager.ClosePosition` | AMIA_strategy_development/AMIA_example_implementation.py:345-398 | an active position gets its exit, leaves the active list and joins the closed list; one equal to none earns 0 and stays as it is; a copy equal to an active one is written to, then the removal raises and the lists stay |
| `AmiaPositions.AMIAPositionManager.CheckForceClosePositions` | AMIA_strategy_development/AMIA_example_implementation.py:400-407 | the active positions held for at least the maximum, in order |
| `AmiaPositions.AMIAPositionManager.ProcessRow` | AMIA_strategy_development/AMIA_example_implementation.py:528-583 | one row on the objects is one row of the value simulation |
| `AmiaPositions.AMIAPositionManager.SimulateTrading` | AMIA_strategy_development/AMIA_example_implementation.py:518-585 | the loop over the rows ends in the state of the value simulation and returns the closed positions |
| `TimingFilter.AMIASignalGenerator.ApplyTimingFilters` | AMIA_strategy_development/AMIA_example_implementation.py:267-287 | the loop with its two copies and carried time computes the filter; without a timestamp column nothing is filtered |
| `Arbitrage.Scan` | src/applications/data_collection/analytics.py:272-314 | the nested loops report what the laws below describe, and fail exactly when some bid is above a zero ask of another exchange |
| `Arbitrage.RealTimeAnalytics.StoreTicker` | src/applications/data_collection/analytics.py:148-149 | a known key keeps its place and gets the ticker, a new key goes to the end |
| `Arbitrage.RealTimeAnalytics.AnalyzeArbitrageOpportunities` | src/applications/data_collection/analytics.py:253-329 | counts and appends exactly the reported opportunities and then cleans up; a failed scan or fewer than two exchanges changes nothing |
| `Arbitrage.RealTimeAnalytics.CleanupOldOpportunities` | src/applications/data_collection/analytics.py:447-455 | at most once a minute, drops opportunities that are a minute old |
| `TimeRange.TimeRangeIterator` | src/common/iterators.py:40-67 | the loop yields the chunks the laws below describe; an empty range yields nothing even with a bad limit, otherwise a bad limit or interval is an error |
| `Deduplication.CollectByKey` | src/db/operations.py:159-173 | one record per key, every key of the batch; it is the first one, replaced by each later one that is newer than what stood there; the identity on distinct keys |
| `Deduplication.BookTickerCache.CleanupTimestampCache` | src/db/operations.py:29-60 | at most once in five minutes, evicts exactly the timestamps at or before ten minutes ago |
| `Deduplication.BookTickerCache.IsDuplicateTimestamp` | src/db/operations.py:63-78 | reports whether the key was cached and caches it |
| `Deduplication.BookTickerCache.DeduplicateBatch` | src/db/operations.py:137-176 | kept records, cache and hit count after a batch: kept + hits = length |
| `Deduplication.TradeCache.CleanupTradeTimestampCache` | src/db/operations.py:651-682 | on every batch, evicts exactly the entries at or before ten minutes ago |
| `Deduplication.TradeCache.IsDuplicateTradeTimestamp` | src/db/operations.py:633-649 | as above with the trade id; an empty id falls back to the timestamp alone |
| `Deduplication.TradeCache.DeduplicateBatch` | src/db/operations.py:817-851 | as above for trades; the second pass, keyed by the raw trade id, changes nothing |

## Left out

- Exchange names of an AMIA position: constants in every simulated row.
- UpdatePrices: the weight and deviation fields of each asset are not carried; no decision reads them, and `GetDeviations` computes the same relative deviation.
- RunBacktest: total and annualised return, Sharpe ratio, trade count, average rebalance size, best and worst performer and the trend counters of the result are not carried: library statistics or one-line quotients of figures that are.
- CopyDepth: the conversion it belongs to raises before any copy is delivered (`ToOrderbook`), so nothing is said about later updates; the round trip is stated over the entries that are delivered (`SendDepth`).
- ApplyParsedUpdate: the sequence numbers of the books are not carried in the manager's state, and books are values in it; `RunObjects` proves that book objects updated in place by the same operations follow them over every run.
- Floating-point rounding, NaN and infinities: arithmetic is exact.
- Time zones and conversion of datetimes to numbers; wall-clock readings are parameters, one per call where the code reads the clock several times in a row.
- Zero or negative prices in the rebalancer: the code raises ZeroDivisionError on some paths.
- The weight deviation metric and volatility: display figures that no decision reads.
- `TrendFilteredRebalancer` inherits from the rebalancer; here it holds one and passes its own trigger on.
- `OrderbookManager`: the class itself holds values; the dictionary of objects is a separate run beside it (`RunObjects`), with the statistics read off the state.
- Manager getters, health summary, handler removal and the handlers' own code; the background loop is one cleanup call per period.
- The protobuf branch of the MEXC processor and conversion of strings to numbers: messages arrive decoded.
- Signal generation: `ask_deviation` is clipped at 0 and must be below a negative bound, so the shipped configuration emits no signal; the simulation and the timing filter take arbitrary signals.
- Position performance summaries, outlier removal and merging of market data: library statistics.
- Upper-casing of exchange names in reported opportunities; logging and printing everywhere.
- Writing the deduplicated batches: SQL, connection pools and its conflict rules. The caches are updated before the write, so a failed write is not retried through them.
- Other analytics (spread, volume, trades, momentum), symbol discovery, ring buffer, exchange adapters, live trader, schedulers, configuration loading and reports: no harder property needs them.
