# Verified model of the backtesting core

This project models, in Dafny, the parts of the trading repository that carry state or that promise to agree with one
another, and proves what they keep. `dafny verify dfyconfig.toml` checks all of it. Money, prices and volumes are `real`,
a value that may be missing (NaN) is an `Option`, and every comparison with a missing value is false.

## What is modelled

**The event-loop backtester** (`Costs`, `Market`, `Backtest`). `Backtest.Session` holds the loop's variables and
parallel lists and changes them in place; `Backtest.Step` and `Backtest.Simulate` say on values what one bar and a whole
run do, and `Backtest.Run` is proved to report exactly what `Simulate` reaches. The strategy and the risk manager are
arbitrary functions of what the loop passes them. The re-entry gate is modelled as written. The loop divides by the
entry price, from the bar that opens a position on; `Completes` says when none is 0, and otherwise a run ends in an error.

- `RiskStops`: when a run enters, stops and exits, in terms of the risk manager's own answers.
- `RunFigures`: what the figures of a trade, of the per-bar series and of the report mean.
- `BacktestRuns`: equity is the compounded trade log between any two bars; the reported drawdown against the true one,
  with the exact condition for equality; no re-entry on a stopped side until the signal has left it.
- `CostComparison`, `CostBounds`: two runs that differ only in their costs, realised and marked to market, and how far
  prices may rise before the dearer run can come out ahead.
- `LongOnly`: the event loop against the vectorised view of a long-only strategy's returns, per bar and per day.
- `FastPath`: the one-pass signal path against the path that calls the strategy on growing history.

**Latched strategies and causal indicators** (`Latch`, `Indicators`, `VolumeWeighted`, `Strategies`, `EmaVwap`,
`Crossover`, `Efficiency`). The runtime's per-bar form and the one-pass form of each strategy are compared bar for bar.
`Channels` and `TrendRules` say what each rule asks of the bars themselves, and when its signal is up or down.
Behind that stand the causality of every indicator used, four equivalent forms of the latch, and, for the VWAP and the
efficiency ratio, the agreement of the running-sum forms with their direct definitions.

**Walk-forward evaluation** (`WalkForward`, `Ranks`, `CumulativeReturn`, `AmGm`). What a fold's return is made of, what
the summary says of the folds, and how the reported cumulative return relates to what they and their trades compound to.

**The order simulator** (`OrderBook`, `BookWalk`, `Simulator`, `SignalOrders`, `SimulatorRuns`). The walk over the book
level by level, pending and immediate orders, the account; over all runs, which trades answer which signals, a position
bound, a ledger, price bounds and the cost of trading.

**The H13 study** (`NoTradeBand`, `TradeRuns`) and **two caches** (`FxCache`; `ArchiveCache`, `ArchiveRuns`).

## Where the code and its documentation part, and what else may surprise

- `src/backtest/strategies.py:538` says that every indicator is causal, so a strategy's two forms agree. The session exit
  of the EMA/VWAP rule takes a median over all bars (line 492). `EmaVwap.EmaVwapFormsAgree` gives the bar times on which
  the forms agree, `EmaVwap.SessionExitLooksAhead` seven bars on which they do not.
- The crossover's forms agree on all markets if and only if the short window is no longer than the long one: the per-bar
  form divides the sum of the closes it has, at most `long_window` of them, by `short_window` (lines 34-35).
- The regime gate calls a single bar "ranging" whatever the threshold, the vectorised gate compares an efficiency of 0
  with it. They part on the first bar when the threshold is not positive and the first signal is not 0.
  `Efficiency.GateFormsDiffer` is such a case.
- The reported maximum drawdown is measured from the final peak, so it can exceed the true one:
  `BacktestRuns.DrawdownOverstated` reports 3/4 for a run whose true drawdown is 1/2.
- The reported cumulative return compounds the mean return. It is never below what the folds compound to when no fold
  loses more than everything. With three or more folds that proviso is needed: `CumulativeReturn.RuinUnderstates` gives,
  for any looser one, an evaluation that reports too little.
- The marked equity is the series from which drawdown and Sharpe should be computed (`src/backtest/simple_backtest.py:51-53`).
  Higher costs can raise it, as they can realised equity: shorts can lose more than everything. Without a risk manager
  they never do on bars where buying back never costs more than a given multiple of an earlier sale, if and only if that
  multiple is at most 2 (`CostBounds.EquityBoundIsExact`, `CostBounds.MarksBoundIsExact`). `CostComparison.SpikeFlipsMarks`
  is a concrete run, and without shorts no proviso is needed (`CostBounds.LongRunTrails`).
- The H13 study charges no cost for its first decision: the difference of the first row is missing and counts as 0.
- The recorded cost of a trade is measured from the exit bar's close on both sides, so it includes the price move since
  the entry even without fees (`RunFigures.CostCoversMove`).
- A simulator signal against a full position only closes it: the entry is for the configured size, which brings the
  position to 0 and not to the other side (`SignalOrders.PositionFollowsSignal`).
- Lines 307-362 of `src/backtest/simple_backtest.py` repeat the two branches above them and are never reached.

## Model

| member | source | states |
|---|---|---|
| `Backtest.Session.Decide` | src/backtest/simple_backtest.py:121-306 | One bar of the loop: gate, forced exit, forced close on the last bar, entry by admission or exit by signal, and the trade it closes; exactly one step of the position machine, for any risk manager and any prices |
| `Backtest.Session.ClosePosition` | src/backtest/simple_backtest.py:191-224 | Every way of closing books the costed exit price, the side's return, the compounded equity and the two-sided cost, and leaves the position flat; the same for lines 139-190 and 251-306 |
| `Backtest.Session.Record` | src/backtest/simple_backtest.py:143-163 | The trade count, the win count and the five parallel lists stay in step with the list of trade records |
| `Backtest.Session.MarkToMarket` | src/backtest/simple_backtest.py:364-374 | The four per-bar series each grow by one entry: equity, equity with the open position valued at the close, signed exposure, time; it fails exactly when it would divide by an entry price of 0 |
| `Backtest.Session.Advance` | src/backtest/simple_backtest.py:117-374 | One iteration of the loop extends the abstract run by exactly one bar, or fails exactly when that bar leaves a position entered at a price of 0 |
| `Backtest.SignalAt` | src/backtest/simple_backtest.py:111-120 | The signal used on a bar is the precomputed one when there is a one-pass form, else the strategy's answer on the history up to that bar |
| `Backtest.RunBars` | src/backtest/simple_backtest.py:87-374 | The loop reaches the state, the series and the trades of the abstract run over all bars, unless and only unless some bar opened a position at a booked price of 0 |
| `Backtest.MaxDrawdown` | src/backtest/simple_backtest.py:376-378 | The reported drawdown is the deepest fall of the equity series below the final peak |
| `Backtest.Run` | src/backtest/simple_backtest.py:82-407 | Fewer than two bars are an error, and so is a division by an entry price of 0; otherwise every field of the result comes from the abstract run |
| `RiskStops.HeldSinceEntry` | src/backtest/simple_backtest.py:125-246 | A held position is the one its entry bar opened, at that bar's costed close, and has been held for exactly the bars since, with no side blocked |
| `RiskStops.ExitsExactlyWhen` | src/backtest/simple_backtest.py:125-224 | A held position is closed on a bar if and only if the bar is the last, the risk manager's own exit answer on the bars so far, side, entry price and bars since entry forces it, or the signal leaves its side; at that bar's costed close, with the manager's reason and a block on the side exactly when it was forced before the last bar |
| `RiskStops.StoppedExactlyWhen` | src/backtest/simple_backtest.py:125-139 | A side counts as stopped on exactly the bars before the last on which the risk manager forces its exit |
| `RiskStops.EntersExactlyWhen` | src/backtest/simple_backtest.py:225-250 | A flat book opens a position if and only if the signal is on an unblocked side and the risk manager, asked about that side with the bars so far, the equity and its peak, admits it; at the size it answers (1 without a manager) and that bar's costed close |
| `RunFigures.TradeFigures` | src/backtest/simple_backtest.py:139-306 | Every trade of a run carries the time of a bar; its return leads from entry to exit price on its side, and its cost is the distance of both prices from that bar's close |
| `RunFigures.CostCoversMove` | src/backtest/simple_backtest.py:151-161 | That cost is at least the move from entry to exit, with or without fees, and exactly that when the close lies between |
| `RunFigures.SeriesMean` | src/backtest/simple_backtest.py:364-374 | Exposure is the signed size held; equity and mark agree when flat, and else differ by what the exposed share of equity has gained since the entry |
| `RunFigures.ReportMeans` | src/backtest/simple_backtest.py:376-407 | Total return and final equity are the compounded trades, the win rate is the share of trades that gained, and the lists hold the records and bars field by field |
| `RunFigures.DrawdownReportMeans` | src/backtest/simple_backtest.py:376-393 | The reported drawdown leads from the highest equity of the run to the lowest |
| `Market.WordsMean` | src/backtest/simple_backtest.py:467-475 | Each of the five words for a side asks for it, in any case and with any blanks around it |
| `Market.OtherSignalsMean` | src/backtest/simple_backtest.py:467-477 | Any other word and a missing signal ask for nothing, a number stands for itself |
| `BacktestRuns.RunsExtend` | src/backtest/simple_backtest.py:117-374 | Later bars only append: the series and trades of a shorter run are prefixes of those of a longer one |
| `BacktestRuns.SeriesAt` | src/backtest/simple_backtest.py:364-373 | Entry `i` of each series is the equity, mark and exposure of the run that stops after bar `i` |
| `BacktestRuns.BarFollows` | src/backtest/simple_backtest.py:139-306 | A bar either closes nothing and leaves equity alone, or closes one trade stamped with that bar that multiplies equity by 1 + size * return |
| `BacktestRuns.EquityCompoundsTrades` | src/backtest/simple_backtest.py:139-306 | Between any two bars equity grows by exactly the trades closed in between, whatever strategy, costs and risk manager |
| `BacktestRuns.LaterTradeStamps` | src/backtest/simple_backtest.py:123-220 | A trade recorded after the first `k` bars carries the time of one of the later bars |
| `BacktestRuns.PeakIsMaximum` | src/backtest/simple_backtest.py:364-365 | The carried peak is the maximum of the equity series |
| `BacktestRuns.DeepestIsAttained` | src/backtest/simple_backtest.py:376-378 | The deepest fall is the fall of some entry and no entry falls deeper |
| `BacktestRuns.DrawdownMonotone` | src/backtest/simple_backtest.py:378 | A higher peak and a lower value make a drawdown no smaller, and an equal one only for a value of 0 or the same peak and value |
| `BacktestRuns.ReportedDrawdown` | src/backtest/simple_backtest.py:364-378 | For non-negative equity the reported drawdown is at least the true running-peak one, and equal if and only if equity hits 0 or the highest value comes no later than some lowest one |
| `BacktestRuns.EveryDrawdownReported` | src/backtest/simple_backtest.py:364-378 | Every run whose equity stays non-negative has a true drawdown and a lowest equity for which that holds |
| `BacktestRuns.DrawdownOverstated` | src/backtest/simple_backtest.py:364-378 | A concrete five-bar run reports a drawdown of 3/4 where the true one is 1/2 |
| `BacktestRuns.BlockedBar` | src/risk/controls.py:541-556 | A forced exit leaves the loop flat with that side blocked, and a signal still on a blocked side keeps the block and opens nothing |
| `BacktestRuns.NoReentryAfterStop` | src/backtest/simple_backtest.py:121-193 | After a stop (the bars of `RiskStops.StoppedExactlyWhen`) the side stays flat and blocked as long as every later signal is still on it |
| `BacktestRuns.UnblockedBar` | src/risk/controls.py:548-555 | A signal off the blocked side lifts the block, and opens the other side if and only if it is on it and is admitted |
| `BacktestRuns.ReentryAfterSignalLeaves` | src/backtest/simple_backtest.py:121-246 | After a stop the first signal off that side lifts the block, and the other side is entered exactly when signalled and admitted |
| `Costs.CostedIsProportional` | src/backtest/costs.py:20-40 | The booked price is the close times a factor that depends only on the model and the side |
| `Costs.FactorPositive` | src/backtest/costs.py:20-40 | With fee and spread in their sensible ranges the factor is positive |
| `Costs.DearerFactors` | src/backtest/costs.py:20-40 | A dearer model buys no lower and sells no higher |
| `CostComparison.CostedOrder` | src/backtest/simple_backtest.py:426-430 | At a positive close both models book positive prices, the dearer one the worse |
| `CostComparison.TradeReturnOrder` | src/backtest/simple_backtest.py:195-198 | A worse entry and a worse exit give no better return, for longs and shorts |
| `CostComparison.ClosingOrder` | src/backtest/simple_backtest.py:139-306 | Closing keeps the dearer run's equity between 0 and the cheaper run's |
| `CostComparison.TrailingBar` | src/backtest/simple_backtest.py:139-306 | One bar keeps the two runs on the same side with the dearer one behind, and either both close a trade or neither |
| `CostComparison.DearerRunTrails` | src/backtest/simple_backtest.py:225-306 | Without a risk manager a higher fee or spread leaves the exposure at every bar and the bar and side of every trade unchanged, and realised equity no higher at any bar, as long as the dearer run buys no short back above twice its entry |
| `CostComparison.MarkOrder` | src/backtest/simple_backtest.py:366-369 | A dearer book that trails is marked no higher, unless it holds a short that has more than doubled |
| `CostComparison.DearerMarksTrail` | src/backtest/simple_backtest.py:364-374 | At every bar of the two runs at which the dearer one holds no short that has more than doubled, its mark-to-market equity is no higher; the exact condition on the bars is `CostBounds.MarksBoundIsExact` |
| `CostComparison.SpikeFlipsMarks` | src/backtest/simple_backtest.py:364-374 | A concrete six-bar run on which a short has more than doubled and the dearer run is marked higher |
| `CostBounds.ShortsAreQuoted` | src/backtest/simple_backtest.py:139-306 | Every short of a run, open or closed, was sold at the costed close of an earlier bar and, if closed, bought back at that of a later one |
| `CostBounds.GentleRunTrails` | src/backtest/simple_backtest.py:225-374 | On bars where buying back at the dearer costs is at most twice any earlier sale, the dearer run holds the same exposures and makes its trades on the same bars, with no higher realised or mark-to-market equity at any bar |
| `CostBounds.SqueezeOvertakes` | src/backtest/simple_backtest.py:225-374 | For any multiple between 2 and 3 a concrete market on which the dearer run ends ahead, by its mark while the short is open and by its realised equity once it is closed |
| `CostBounds.EquityBoundIsExact` | src/backtest/simple_backtest.py:225-306 | Over all signals, cost models and bars on which buying back costs at most a given multiple of any earlier sale, higher costs never raise realised equity at any bar if and only if the multiple is at most 2 |
| `CostBounds.MarksBoundIsExact` | src/backtest/simple_backtest.py:364-374 | The same, if and only if, for mark-to-market equity |
| `CostBounds.LongRunTrails` | src/backtest/simple_backtest.py:225-374 | With signals never below 0, higher costs never raise realised or mark-to-market equity on any positive prices |
| `LongOnly.LongMarkGrows` | src/backtest/simple_backtest.py:366-370 | The mark of a full long position moves by the bar's return |
| `LongOnly.LongBar` | src/backtest/simple_backtest.py:139-278 | One bar multiplies the mark by the return on what was held, over entries, exits, the forced close and re-entries |
| `LongOnly.EventLoopIsVectorised` | src/backtest/simple_backtest.py:364-374 | Without costs, on signals never below 0, every mark of the run is initial equity times the product of 1 + previous exposure * bar return, and the exposure is 1 exactly while the signal is positive, save on bar 0 and on a last bar reached with an open position |
| `LongOnly.SignalViewAgrees` | scripts/research/strategy_clusters.py:37-40 | The positions of the research view, compounded bar by bar (the source itself sums them, see `LongOnly.ResearchDaysAgree`), end at the loop's final equity if and only if the first signal is 0 or the price did not move on the second bar |
| `LongOnly.BarReturnsAgree` | scripts/research/strategy_clusters.py:37-42 | On every bar but the second the loop's marked equity changes by exactly the research view's return, the signal of the bar before times the bar's return; on the second it does not change |
| `LongOnly.ResearchDaysAgree` | scripts/research/strategy_clusters.py:35-42 | For 0/1 signals the research view's figure of every day, a sum of bar returns, is the sum of the day's changes in the loop's marked equity if and only if the first signal is 0 or the price did not move on the second bar |
| `LongOnly.FirstBarApart` | scripts/research/strategy_clusters.py:37-40 | Two holdings that agree after bar 0, one of them flat there, differ by one bar's growth |
| `FastPath.FastPathIsSlowPath` | src/backtest/simple_backtest.py:111-121 | When a strategy's two forms give the same signals, the whole outcome of the fast path, result or error, is that of the slow path |
| `FastPath.LatchedBacktest` | src/backtest/strategies.py:531-553 | For every latched strategy over causal rules the two paths report the same trades, series and figures, whatever costs and risk manager |
| `FastPath.DonchianBacktest` | src/backtest/strategies.py:249-273 | The same for the Donchian breakout on every market |
| `FastPath.KeltnerBacktest` | src/backtest/strategies.py:276-297 | The same for the Keltner breakout on every market |
| `FastPath.EmaVwapBacktest` | src/backtest/strategies.py:452-498 | The same for the EMA/VWAP rule wherever its forms agree |
| `Latch.LastTrueIndex` | src/backtest/strategies.py:644-646 | The index of the last true entry, -1 when there is none |
| `Latch.LastTrueSeriesAt` | src/backtest/strategies.py:601-602 | Element `t` of the running maximum is the last true index among the first `t + 1` |
| `Latch.SeriesIsPosition` | src/backtest/strategies.py:592-612 | Element `t` of the vectorised latch is the latch of the first `t + 1` bars |
| `Latch.PositionReads` | src/backtest/strategies.py:615-641 | The last-index latch is long exactly when some long entry has no effective exit at or after it, else short likewise |
| `Latch.MachineReads` | src/backtest/strategies.py:615-641 | So is the one-state machine in which an exit beats an entry on its bar; never are both sides held |
| `Latch.FourForms` | src/backtest/strategies.py:592-646 | The four forms of the latch agree on every bar |
| `Indicators.Series` | src/backtest/indicators.py:23-40 | The filled array holds the field of each bar, a missing price field as the close and a missing volume as 0 |
| `Indicators.Shift` | src/backtest/indicators.py:43-48 | The array is the input `periods` later, missing before that |
| `Indicators.Rolling` | src/backtest/indicators.py:51-57 | A window that is not positive is an error; otherwise each entry is the reducer over the last `window` values, missing before there are enough |
| `Indicators.Ema` | src/backtest/indicators.py:147-159 | A span below 1 is an error; otherwise the loop gives the exponential average seeded with the first value |
| `Indicators.ExtremesOf` | src/backtest/indicators.py:70-77 | The maximum and minimum reducers bound every entry of the window and are entries of it |
| `Indicators.SeriesCausal` | src/backtest/indicators.py:23-40 | Field extraction over the first `n` bars gives its first `n` values |
| `Indicators.ShiftedCausal` | src/backtest/indicators.py:43-48 | So does the shift |
| `Indicators.RolledCausal` | src/backtest/indicators.py:51-57 | So does every rolling reduction, whatever the reducer |
| `Indicators.TrueRangeCausal` | src/backtest/indicators.py:85-89 | So does the true range |
| `Indicators.AtrCausal` | src/backtest/indicators.py:92-94 | So does the average true range |
| `Indicators.EmaCausal` | src/backtest/indicators.py:147-159 | So does the exponential average |
| `VolumeWeighted.FirstOfGroup` | src/backtest/indicators.py:181-187 | Indexing the session starts by a bar's group finds the first bar of that bar's own session |
| `VolumeWeighted.SessionSum` | src/backtest/indicators.py:184-188 | A running sum less its session's offset is the sum over the session so far |
| `VolumeWeighted.ConvolvedSum` | src/backtest/indicators.py:174-177 | The truncated convolution with ones is the sum over the last `window` entries, fewer at the start |
| `VolumeWeighted.RollingIsAverage` | src/backtest/indicators.py:174-190 | The rolling VWAP is the volume-weighted average over the last `window` bars, the typical price when none traded |
| `VolumeWeighted.SessionIsAverage` | src/backtest/indicators.py:178-190 | The session VWAP is the volume-weighted average since that bar's session began |
| `VolumeWeighted.VwapFails` | src/backtest/indicators.py:174-180 | Only a session VWAP without bar times is an error; a negative window is a session too |
| `VolumeWeighted.AverageBetween` | src/backtest/indicators.py:162-190 | With non-negative volumes that average lies between any bounds of the typical prices it covers |
| `VolumeWeighted.VwapCausal` | src/backtest/indicators.py:162-190 | Both forms over the first `n` bars give their first `n` values |
| `Strategies.LatchedFormsAgree` | src/backtest/strategies.py:531-553 | Over rules that are causal from the warm-up on, the per-bar form and the one-pass form, warm-up cut-offs included, give the same signal on every bar |
| `Strategies.DonchianIsCausal` | src/backtest/strategies.py:260-271 | The Donchian rules over the first `n` bars are the first `n` of the rules |
| `Strategies.DonchianFormsAgree` | src/backtest/strategies.py:249-273 | The Donchian breakout's two forms agree on every market |
| `Channels.DonchianMeans` | src/backtest/strategies.py:260-271 | On every bar: a long entry is a close above the highs (closes where missing) of all of the last `entryWindow` bars, an exit one below all lows of the last `exitWindow`, the short side mirrored and present exactly when allowed; false before there are that many bars |
| `Channels.DonchianSignals` | src/backtest/strategies.py:249-273 | The signal is 1 exactly when some such entry has not been followed by an exit or an opposite entry, -1 in the mirror case, and 0 otherwise and while the wider channel is unfilled |
| `Strategies.KeltnerIsCausal` | src/backtest/strategies.py:286-295 | The Keltner rules over the first `n` bars are the first `n` of the rules |
| `Strategies.KeltnerFormsAgree` | src/backtest/strategies.py:276-297 | The Keltner breakout's two forms agree on every market |
| `Channels.TrueRangeMeans` | src/backtest/indicators.py:85-89 | The true range is the largest of the bar's own range and its reach from the close before; on the first bar its own range |
| `Channels.PriorBarsExist` | src/backtest/strategies.py:288-289 | After `window` bars there always are the closes and true ranges that the rules below speak of |
| `Channels.KeltnerMeans` | src/backtest/strategies.py:286-295 | Enter when the close exceeds the mean of the last `window` closes by the multiplier times their mean true range, short when as far below, leave across the mean; with the sums over those bars, without division |
| `Channels.KeltnerWaits` | src/backtest/strategies.py:286-295 | Before there are `window` earlier bars no mask is set |
| `Channels.KeltnerSignals` | src/backtest/strategies.py:276-297 | The signal is what those masks latch, from the second bar with a full window before it on |
| `Strategies.LongOnlyKeepsForms` | src/backtest/strategies.py:649-665 | The long-only wrapper keeps two agreeing forms in agreement, never signals below 0 and leaves every other signal as it was |
| `EmaVwap.CrossedCausal` | src/backtest/strategies.py:476-490 | Entries and exits before the session exit never look ahead |
| `TrendRules.LevelMeans` | src/backtest/indicators.py:162-190 | Over the bars of the UTC day so far, or the last `window`, the VWAP times three times the volume is the traded sum of high, low and close; without volume it is the bar's own typical price |
| `TrendRules.EmaMeans` | src/backtest/indicators.py:147-159 | The exponential average is the weighted sum of all values so far, the newest weighing 2 / (span + 1) and every bar shrinking the older weights by the rest |
| `TrendRules.CrossingsMean` | src/backtest/strategies.py:476-490 | Enter long when a close breaks above the VWAP from at or below it and lies above the EMA, with the trend filter itself above the VWAP; leave on a close below the EMA; the short side mirrored |
| `TrendRules.LastOfDayMeans` | src/backtest/strategies.py:492-493 | A bar is marked exactly when its time plus the spacing is a UTC midnight, to a millionth of a second |
| `TrendRules.FlatAtMark` | src/backtest/strategies.py:494-497 | Nothing is held after a marked bar |
| `TrendRules.SessionRulesMean` | src/backtest/strategies.py:491-496 | On a marked bar entries are dropped and exits added, elsewhere the rules stay; the short side is present exactly when allowed |
| `TrendRules.EmaVwapSignals` | src/backtest/strategies.py:498 | The signal is what those masks latch, once there are three EMA spans of bars, one more than the VWAP window and two in all |
| `EmaVwap.PositionAfterMark` | src/backtest/strategies.py:491-497 | With the session exit the position is the one of the entries after the last marked bar: the marks matter only through the last of them |
| `EmaVwap.SettledFormsAgree` | src/backtest/strategies.py:491-498 | Where no later bar moves the last day end, the two forms agree |
| `EmaVwap.UnsettledFormsDiffer` | src/backtest/strategies.py:491-498 | Where one does, some market with those bar times has the two forms disagree |
| `EmaVwap.EmaVwapFormsAgree` | src/backtest/strategies.py:452-498 | The two forms agree on every market with given bar times if and only if there is no session exit, or the EMA spans one bar, or no later bar ever moves the last day end |
| `EmaVwap.EquallySpacedIsSettled` | src/backtest/strategies.py:491-493 | On equally spaced bars no later bar moves a day end |
| `EmaVwap.SessionExitLooksAhead` | src/backtest/strategies.py:491-498 | On seven concrete bars the two forms disagree |
| `Crossover.CrossoverAt` | src/backtest/strategies.py:27-51 | With the short window no longer than the long one the two forms give the same signal on a bar |
| `Crossover.FlatSignal` | src/backtest/strategies.py:32-41 | With a longer short window the per-bar form goes short on a flat market |
| `Crossover.FlatSeries` | src/backtest/strategies.py:43-48 | There the one-pass form stays flat |
| `Crossover.CrossoverFormsAgree` | src/backtest/strategies.py:27-51 | The two forms agree on all markets if and only if the short window is no longer than the long one |
| `TrendRules.CrossoverMeans` | src/backtest/strategies.py:27-51 | For a short window no longer than the long one the signal compares the mean of the last `short` closes with that of the last `long`, cross-multiplied, and is 0 before |
| `Crossover.MomentumFormsAgree` | src/backtest/strategies.py:54-101 | The threshold-momentum signal agrees with its one-pass form (lines 703-711) on every market, baselines of 0 or less included |
| `TrendRules.MomentumMeans` | src/backtest/strategies.py:54-101 | The signal is up when the close has risen over the lookback by more than the threshold's share of a positive baseline, else down when it has fallen by more, else 0 |
| `Efficiency.SeriesIsDirectRatio` | src/backtest/strategies.py:714-724 | The efficiency from one running sum is, at every bar, the ratio that `src/signals/regime.py` computes from the last `window` closes |
| `Efficiency.TriangleInequality` | src/signals/regime.py:24-28 | No path is shorter than its net move |
| `Efficiency.EfficiencyBetween` | src/backtest/strategies.py:714-724 | The efficiency lies in [0, 1] at every bar |
| `Efficiency.RegimeGateFormsAgree` | src/backtest/strategies.py:668-700 | Around a strategy whose forms agree, the gate's forms agree on all bars if and only if the threshold is positive or the first signal is 0 |
| `Efficiency.GateFormsDiffer` | src/backtest/strategies.py:684-697 | With a threshold of 0, on one bar and a strategy that is always long, the gate's two forms differ |
| `TrendRules.RegimeMeans` | src/signals/regime.py:31-46 | From the second bar on the market is trending exactly when the net move over the last `window` closes is at least the threshold's share of the way gone |
| `TrendRules.GateMeans` | src/backtest/strategies.py:684-697 | From the second bar on the gate passes a signal exactly in the regime it requires |
| `WalkForward.EvaluateWalkForward` | src/backtest/walk_forward.py:34-101 | The four argument errors and that of a backtest that divides by 0; otherwise all folds that fit, `step` bars apart, and their summary |
| `WalkForward.RunFolds` | src/backtest/walk_forward.py:55-88 | The loop over start indices produces exactly the folds that fit, in order, or ends with the first backtest that fails |
| `WalkForward.RunFold` | src/backtest/walk_forward.py:57-88 | One fold: its backtest, equity at the end of the training part and of the fold, the counted trades and their win rate; or the backtest's error |
| `WalkForward.FoldMeans` | src/backtest/walk_forward.py:57-88 | A fold starts from its backtest's equity after the training part, ends with the final equity, its return leads from one to the other (0 from equity not above 0), and its win rate is the share of gains among the trades closed in the test part |
| `WalkForward.EvaluationMeans` | src/backtest/walk_forward.py:55-100 | The summary is of all folds that fit, each `step` bars after the last: the average return, the median by rank, and the number of folds that gained |
| `Ranks.SortedSorts` | src/backtest/walk_forward.py:97 | Sorting puts the values in ascending order and keeps exactly them |
| `Ranks.MedianRanks` | src/backtest/walk_forward.py:97 | The median is the middle value or the mean of the two middle ones: at least half of the values are no larger and at least half no smaller |
| `WalkForward.CountedTradesCloseInTest` | src/backtest/walk_forward.py:68-73 | With increasing times the counted trades are exactly those closed in the test part, entered there or before |
| `WalkForward.FoldReturnCompoundsTrades` | src/backtest/walk_forward.py:56-88 | With positive start equity 1 + the fold's return is the product of 1 + size * return over exactly the counted trades |
| `CumulativeReturn.CumulativeAboveCompounded` | src/backtest/walk_forward.py:93-100 | With no return below -1 the reported cumulative return is at least the compounded one, and equal if and only if all returns are equal |
| `CumulativeReturn.CumulativeBoundIsExact` | src/backtest/walk_forward.py:55-100 | Over all evaluations of `n` folds on positive prices and increasing times in which every fold returns at least a given figure, the report never understates if and only if `n` is at most 2 or the figure is at least -1 |
| `CumulativeReturn.ShortFoldAt` | src/backtest/walk_forward.py:57-88 | A fold that shorts at 1 and buys back at 2 - factor multiplies equity by that factor |
| `CumulativeReturn.RuinUnderstates` | src/backtest/walk_forward.py:55-100 | For three or more folds and any least return below -1, a concrete market and an always-short strategy, under a risk manager that admits every entry, on which the evaluator reports less than its folds compound to |
| `CumulativeReturn.FoldsCompoundTrades` | src/backtest/walk_forward.py:56-93 | The fold returns together compound to the counted trades, fold after fold |
| `CumulativeReturn.ReportAboveCountedTrades` | src/backtest/walk_forward.py:56-100 | From bars to report: the reported figure is at least what all counted trades compound to |
| `CumulativeReturn.PrudentRun` | src/backtest/simple_backtest.py:139-306 | On positive prices and sane costs a run that is never short and never stakes more than all of equity neither divides by 0 nor loses everything |
| `CumulativeReturn.LongOnlyReport` | src/backtest/walk_forward.py:34-101 | From the bars alone: such an evaluation on increasing times ends without an error and reports at least what all its counted trades compound to |
| `AmGm.ArithmeticGeometricMean` | src/backtest/walk_forward.py:99 | The inequality behind the cumulative figure: a product of non-negative numbers is at most the power of their mean, with equality exactly when all are equal |
| `OrderBook.FillQuantity` | src/backtest/simulator.py:230-271 | The loop over the levels, with its running totals, fills and averages what the recursive walk does, which `BookWalk.FillIsWalk` states in listed prices and volumes |
| `OrderBook.FillIsPrefix` | src/backtest/simulator.py:248-271 | A fill takes levels in order, fills the smaller of the order and the depth passed, and stops only at a done order, the end of the book or a level whose penalised price is out of bounds (the prices are those of `BookWalk.LevelMeans`) |
| `OrderBook.FillBounded` | src/backtest/simulator.py:238-271 | No fill is negative or larger than its order |
| `OrderBook.PenaltyNonNegative` | src/backtest/simulator.py:284-295 | Non-negative settings give a non-negative penalty |
| `OrderBook.FillPriceBounds` | src/backtest/simulator.py:273-315 | On a sorted positive book a buy's average price lies between the best ask and the slippage limit above it, a sell's between the limit below the best bid and that bid |
| `BookWalk.LevelMeans` | src/backtest/simulator.py:273-299 | The price of a level is its own listed price, moved against the order by a queue charge for the levels before, a liquidity charge for what is wanted over its volume, and an adverse-selection charge only when the mid price moved against the order |
| `BookWalk.FillIsWalk` | src/backtest/simulator.py:230-271 | The fill walks the levels while something is wanted and that price is within the slippage allowance of the best; average times quantity is the sum of the parts taken at those prices |
| `BookWalk.WalkIsUnique` | src/backtest/simulator.py:248-271 | There is only one place for such a walk to stop |
| `BookWalk.OnlyLastIsPartial` | src/backtest/simulator.py:264-267 | Of every level before the last one taken the whole volume is taken |
| `BookWalk.FreeFill` | src/backtest/simulator.py:230-315 | Without penalties the parts are paid at their listed prices, and the fill stops only at a done order, the end of the book or a listed price out of bounds |
| `BookWalk.BestLevelFills` | src/backtest/simulator.py:230-315 | Without penalties a best level with enough volume fills the whole order at its listed price |
| `Simulator.EventDrivenSimulator.constructor` | src/backtest/simulator.py:51-70 | The settings as given, with the mock exchange's cost model when there is none |
| `Simulator.EventDrivenSimulator.Start` | src/backtest/simulator.py:79-85 | A run starts from the initial state whatever ran before |
| `Simulator.EventDrivenSimulator.Process` | src/backtest/simulator.py:177-228 | Filling and booking one order: the order's remainder, cash, position, average price and the recorded trade |
| `Simulator.EventDrivenSimulator.ProcessPendingOrders` | src/backtest/simulator.py:149-175 | Ready orders are tried in turn and leave the queue when nothing remains of them |
| `Simulator.EventDrivenSimulator.Advance` | src/backtest/simulator.py:87-145 | One snapshot: pending orders, then the signal's order, placed at once or queued, then the equity mark; which orders those are is `SignalOrders.EntryIsAnswered` and its neighbours |
| `Simulator.Run` | src/backtest/simulator.py:72-147 | Unequal lengths are an error, no snapshots give nothing; otherwise the trades and equity curve of the abstract run |
| `SignalOrders.TradeAnswersSignal` | src/backtest/simulator.py:87-145 | Every trade of a run either works against the position held on a snapshot whose signal is 0, or fills an entry on the side a signal asked for with nothing held there, no sooner than the latency allows |
| `SignalOrders.EntryIsAnswered` | src/backtest/simulator.py:116-143 | With nothing queued a signal for a side not held buys or sells at once what the book fills of the configured size, or queues it until the first snapshot on which it is due |
| `SignalOrders.ExitIsAnswered` | src/backtest/simulator.py:108-115 | With nothing queued a signal of 0 against a position trades at once what the book fills of all of it |
| `SignalOrders.OtherSignalsIdle` | src/backtest/simulator.py:106-143 | Any other signal trades and queues nothing |
| `SignalOrders.QueuedEntryIsTried` | src/backtest/simulator.py:160-175 | A queued entry answers an earlier signal, waits whole and with nothing traded until due, and is then tried on every snapshot until nothing remains |
| `SignalOrders.PositionFollowsSignal` | src/backtest/simulator.py:106-141 | Without latency and with the whole size on the book, a signal moves the position by that size unless it is on that side already; it ends on the signal's side if and only if it was not a whole size away on the other |
| `SignalOrders.EquityIsMarked` | src/backtest/simulator.py:145 | Each later point of the curve is cash plus the position at half way between the best prices, 0 when a side is empty |
| `SignalOrders.PreviousMidMeans` | src/backtest/simulator.py:92-94 | The mid price compared with is that of the snapshot before, none on the first |
| `SimulatorRuns.ProcessOrderSafe` | src/backtest/simulator.py:187-215 | One fill keeps the position inside the bound, and keeps it there even if all that remains were to fill |
| `SimulatorRuns.RunsAreSafe` | src/backtest/simulator.py:87-145 | With non-negative volumes, in every run the position never exceeds the configured size, at most one order is pending, a pending order is an entry, and its remainder cannot break the bound |
| `SimulatorRuns.ExitStopsAtFlat` | src/backtest/simulator.py:108-115 | An exit ends between the position it found and flat, never beyond |
| `SimulatorRuns.ExecutionFactors` | src/backtest/simulator.py:317-321 | The execution price is the book price moved by the fee rate times the filled size, and then by the spread |
| `SimulatorRuns.BookBalances` | src/backtest/simulator.py:200-226 | One booking keeps the ledger and the average entry price in order |
| `SimulatorRuns.AverageFollows` | src/backtest/simulator.py:200-213 | A buy averages its price into the entry price by size, the first stands alone, a sell leaves it, and without a long position there is none |
| `SimulatorRuns.RunsBalance` | src/backtest/simulator.py:79-147 | In every run cash is initial equity less buys plus sells at recorded prices, the position is the signed sum of recorded sizes, and an average price exists exactly while the position is positive and lies between the lowest and highest buy since it was last not |
| `SimulatorRuns.EquityCurveMarks` | src/backtest/simulator.py:83-145 | The curve starts at initial equity and each later point is cash plus position at mid after that snapshot |
| `SimulatorRuns.FillMovesCash` | src/backtest/simulator.py:196-226 | On an orderly book a fill is recorded at the costed price of a book price within the slippage limit, and moves cash by its value at that book price, made worse by exactly the recorded cost |
| `SimulatorRuns.RunsAccountForCosts` | src/backtest/simulator.py:79-147 | Over every run on orderly books each recorded trade was filled on one of the snapshots at a book price within its slippage limit, and cash is initial equity plus the signed value at those book prices less the total recorded cost |
| `NoTradeBand.DecidedPositions` | scripts/research/h13_study.py:99-108 | Row by row and column by column the loop holds what the one-market rule holds |
| `NoTradeBand.TurnoverPlusGap` | scripts/research/h13_study.py:103-107 | Turnover plus the gap still open never exceeds how far the target travelled |
| `NoTradeBand.HeldNearTarget` | scripts/research/h13_study.py:105-106 | After each row the position is within the band of its target |
| `NoTradeBand.TradesExceedBand` | scripts/research/h13_study.py:105-106 | Every trade is larger than the band, so the number of trades times the band is below the target's variation |
| `NoTradeBand.PositionsCapped` | scripts/research/h13_study.py:101-107 | No position exceeds the cap, whatever forecast and volatility, missing or zero volatility included |
| `NoTradeBand.TargetMeans` | scripts/research/h13_study.py:101 | The target has the forecast's sign, is a third of its share of the target volatility inside the cap, and meets the cap exactly when that would exceed it |
| `NoTradeBand.TargetWithoutVolatility` | scripts/research/h13_study.py:101 | An unknown volatility gives no target, none at all the cap on the forecast's side |
| `NoTradeBand.TargetsMean` | scripts/research/h13_study.py:101 | A market's targets are those of its own forecasts and volatilities, row by row |
| `NoTradeBand.HeldIsOldOrTarget` | scripts/research/h13_study.py:105-106 | A position stays or moves all the way to its target |
| `NoTradeBand.NetIgnoresLaterDecisions` | scripts/research/h13_study.py:111-119 | A day's result depends on no decision of that day or later |
| `NoTradeBand.NetIsAccount` | scripts/research/h13_study.py:111-119 | The daily results add up to those of an account that trades at each close to the position decided the close before, save for the cost of its first trade, which they leave out |
| `NoTradeBand.TradingCharged` | scripts/research/h13_study.py:111-119 | The trading charged is the turnover up to the day before, less the first row's own move |
| `TradeRuns.Trades` | scripts/research/h13_study.py:122-134 | The loop returns one slice for each of a list of maximal runs that covers every day with a position |
| `TradeRuns.RunsAreExactlyMaximal` | scripts/research/h13_study.py:122-134 | Such a list holds exactly the maximal runs of one non-zero sign, each once |
| `TradeRuns.TradesCarryAllResults` | scripts/research/h13_study.py:122-134 | The slices' results add up to the results of exactly the days with a position |
| `FxCache.FXRateCollector.GetRate` | src/data/fx.py:48-147 | The loop over eight days, cache before request, with the unsupported pair, the fallback and the error; it stores at most the one rate it fetched, under its own pair and day |
| `FxCache.SearchAgainOffline` | src/data/fx.py:60-74 | What one look-back found, the same look-back over the cache it left finds again without any request, and stores nothing |
| `FxCache.ReachableCallIsUncached` | src/data/fx.py:48-78 | From a sound cache, with the bank reachable, a call gives the latest rate published in the window, else the fallback or the error |
| `FxCache.SearchKeepsSound` | src/data/fx.py:60-74 | A call keeps the cache sound and every cached rate as it was, and answers what the cache afterwards holds latest in the window |
| `FxCache.HistoryStaysSound` | src/data/fx.py:48-78 | Over every history of calls and failed requests the cache holds only published rates, each under its own date |
| `FxCache.CacheIsTransparent` | src/data/fx.py:48-78 | After any history a call whose requests succeed answers as it would without a cache |
| `FxCache.FallbackIsForEuros` | src/data/fx.py:76-78 | EUR/NOK never fails and answers the fallback without a rate; USD/NOK answers nothing but a rate found |
| `FxCache.UpperMeans` | src/data/fx.py:55 | Pairs are read without regard to case |
| `FxCache.ReachableCallMeans` | src/data/fx.py:48-78 | After any history, with the bank reachable: the rate of the latest of the eight days that has one published, else the fallback for EUR/NOK and an error for USD/NOK |
| `FxCache.FoundRatesSurviveOutage` | src/data/fx.py:60-74 | A call that found a rate answers the same afterwards with the bank unreachable |
| `ArchiveCache.KlinesCache.Update` | src/data/binance_archive.py:146-203 | The batches come to one symbol-by-symbol run over the listed symbols, with the number of downloads it starts; a batch size of 0 is an error and a negative one does nothing |
| `ArchiveCache.KlinesCache.UpdateBatch` | src/data/binance_archive.py:172-201 | Planning, downloading and saving a batch in three passes comes to updating its symbols one after the other |
| `ArchiveCache.OthersUntouched` | src/data/binance_archive.py:180-199 | Updating some symbols leaves the rows of any other alone |
| `ArchiveCache.BatchSizeIsIrrelevant` | src/data/binance_archive.py:172-174 | With no symbol listed twice, a run does the same whatever the batch size |
| `ArchiveCache.BatchesCoverSymbols` | src/data/binance_archive.py:172-180 | In any case a run works through exactly the symbols it is given |
| `ArchiveRuns.SortSorts` | src/data/binance_archive.py:196 | Sorting rows of distinct dates orders them by date and keeps exactly them |
| `ArchiveRuns.TasksMean` | src/data/binance_archive.py:180-185 | The planned downloads are exactly the listed files of a month that is not cached, each once |
| `ArchiveRuns.KeepLastMeans` | src/data/binance_archive.py:196 | De-duplication keeps of each date the row that comes last and no other |
| `ArchiveRuns.SavedRows` | src/data/binance_archive.py:194-199 | Whatever the files hold, a saved symbol is in order of date and holds of each date the row that came last, cached rows before downloaded ones |
| `ArchiveRuns.MergedIsSound` | src/data/binance_archive.py:186-199 | An update keeps the cached rows in order and equal to all the rows of whichever months they touch, even when some files fail |
| `ArchiveRuns.MergedIsComplete` | src/data/binance_archive.py:186-199 | With every file arriving the cached rows become the rows of all listed monthly files |
| `ArchiveRuns.RunKeepsSound` | src/data/binance_archive.py:171-201 | A whole run, failures included, keeps every symbol's cache sound |
| `ArchiveRuns.HistoryIsSound` | src/data/binance_archive.py:146-203 | So does every history of interrupted and failing runs |
| `ArchiveRuns.FlawlessRunCompletes` | src/data/binance_archive.py:171-201 | A run without failures completes each of its symbols, whatever it found |
| `ArchiveRuns.ResumedRunEqualsFresh` | src/data/binance_archive.py:146-203 | After any history, a run without failures leaves each symbol with exactly the rows of all its monthly files, as a first such run would, whatever the batch sizes |
| `ArchiveRuns.CompletedRunIsIdle` | src/data/binance_archive.py:160-203 | A further run starts no download and changes nothing |

## Left out

- Rounding: floating-point error and the final `round` calls (`src/backtest/simple_backtest.py:380-395`, `src/backtest/walk_forward.py:96-99`).
- A one-pass form that returns more or fewer signals than there are bars: `Accepts` asks for one a bar.
- Risk managers with state of their own: here one is a function of the arguments it is given. The limits inside `src/risk/controls.py` other than `gate_reentry` are not modelled.
- Clocks and defaults: `datetime.now()` for snapshots without a time, the default arguments, the default strategy (`src/backtest/simple_backtest.py:409-424`; the threshold momentum of lookback 1 has the same rule).
- `build_performance_metrics` and everything with square roots, quantiles or bootstraps: Sharpe ratios, `rolling_std`, `rolling_quantile`, `linreg_tstat`, and the strategies built on them.
- The RSI, volume-confirmed and forecast strategies: their rules would be further instances of the rolling forms.
- Bars given as dictionaries: the walk-forward evaluator finds no time on them and counts no trades.
- Warm-up windows that are not positive, which the strategies pass on to the indicators as errors.
- Order sides other than buy and sell, and a simulator without any cost model, which its constructor rules out.
- Orders are compared by value when they leave the queue (`src/backtest/simulator.py:173`); with at most one order queued that is the order itself.
- `pnl` in `scripts/research/h13_study.py`: one market at a time, with the rates as parameters.
- Market data, forecasts and volatilities of the H13 study: arbitrary inputs. Its `trades` is modelled on days without missing values.
- SQLite, HTTP and JSON parsing of the FX collector: the cache is a map, a request brings a rate or nothing, the published series does not change during a history.
- Parquet, zip files, S3 listings, logging and the thread pool of the archive cache: rows per symbol and sequential downloads. A listing that grows between runs is not modelled.
- The theorems in `ArchiveRuns` ask that a symbol has one file a month and a file holds at least one row, only its own month's, one per date. `KlinesCache.Update` asks for none of this.
- The funding dataset of the archive cache: a settlement at midnight on the first of a month is dated to the month before (`src/data/binance_archive.py:126-139`), so its files do not keep to their months.
- An interrupted archive run is one over fewer symbols: a symbol's file is taken to be written whole or not at all.
- `main.py`, the live and paper engines, adapters, the tax ledger, the dashboard, reports and the other studies.
