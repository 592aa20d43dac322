# Formal model of the Sagittarius Elite Warrior trading core

This project models the parts of the trading application whose correctness spans several functions or a
whole run, and proves what they are for:

- **Provisional and committed evaluation** (`Series`, `Indicators`, `IndicatorRanges`, `IndicatorMeanings`,
  `IndicatorObjects`, `Strategies`, `StrategyProofs`, `StrategyObjects`, `Engine`, `StrategyEngine`, `EngineReadings`,
  `ClosedRuns`, `TrendConfirmation`, `MultiEmaSignals`, `RunSignals`, `HistorySignals`, `FirstBar`): tentative
  ticks never disturb committed results, the last tentative tick predicts the close, and the counters and signals
  mean what their history says.
- **Range coverage and gaps** (`OpenTimes`, `RangeCoverage`, `CoverageProofs`, `CoverageMeanings`, `DataGaps`): the
  verdict built from six SQL aggregates refines the direct one, both are told from the stored candles and the request
  alone, gaps conserve candles, and repairing them closes the range.
- **Resumable download** (`KlineDownload`): each kline once, in order, under every failure schedule.
- **Session protocols** (`UserDataStream`, `StreamSubscriptions`, `TradingSession`, `PositionRefresh`): atomic
  steps in every interleaving.
- **Backtest ledger and metrics** (`BrokerPolicies`, `PaperExchange`, `PaperLedger`, `RiskSizing`,
  `EntrySizing`, `BacktestMetrics`).
- **Static backtest** (`BacktestRun`, `BacktestBars`, `BacktestHandler`): engine and exchange coupled bar by bar, without
  look-ahead.

Code that updates objects in place is a class or a loop proved equal to a function of the old state; the
theorems over runs are about those functions. Prices, quantities and money are reals; times are whole seconds
(milliseconds for klines). A raised exception is a `Failure`. `dafny verify dfyconfig.toml` checks everything.

Where the code and its documentation part ways, the model follows the code and says by how much:

- Risk-percent sizing is documented to lose exactly its percentage at the stop
  (`src/domain/value_objects/position_sizing.py:18`). It does exactly when what commission adds to the loss equals
  what holding the entry to the cash takes off it; it loses more, or less, as one or the other is larger
  (`RiskPromise`, on the exchange `StopLossKeepsThePromise`; inputs that miss it are `ChargedEntryLosesMore` and
  `ClampedEntryLosesLessOrMore`).
- The two coverage verdicts differ on data with a surplus candle off the interval grid; they agree exactly when
  no fully covered range holds one (`FastVerdictRefinesDirect`, `OffGridCandleSplitsTheVerdicts`).
- A tentative reading is missing on the one bar that completes an EMA seed (`PeekPredictsUpdate`), so the forming
  path starts one bar after the committing one (`FormingIsReadyOneBarLater`). On that one bar the pullback strategy's
  forming tick misses its close exactly when the bar already acts (`PullbackIsPredicted`); a backtest holds nothing
  yet, so that is when it enters (`FirstBarIsMissedWhenItEnters`), as one with declared inputs does
  (`FirstBarMisses`). The other two strategies' forming ticks never miss (`CrossesArePredictedAlways`).
- Equity charges a spot long's entry fee at once, and any other position's only when it closes (`EquityAddsUp`).

## Model

| member | source | states |
|---|---|---|
| `BarSeries.SeriesStaysValid` | src/domain/scripting/series.py:54-72 | push and poke keep the history within its maximum length, and a poke never takes a slot |
| `BarSeries.PokeAgreesWithPush` | src/domain/scripting/series.py:54-83 | after poking a value every index below the history length reads what pushing it would read, and `committed` reads what it read before |
| `BarSeries.CommittedIsHistory` | src/domain/scripting/series.py:54-62 | after any column of pushes, `[i]` and `committed(i)` are the column read backwards, and None past its end or past the history length |
| `BarSeries.ConstantSeriesIsFlat` | src/domain/scripting/series.py:167-177 | a constant series reads its value at every index of its history |
| `BarSeries.Series.Make` | src/domain/scripting/series.py:43-52 | a history below two bars raises; otherwise a new empty series |
| `BarSeries.Series.Push` | src/domain/scripting/series.py:54-62 | commits one value, clears the tentative one, returns the value |
| `BarSeries.Series.PokeProvisional` | src/domain/scripting/series.py:64-72 | sets the tentative value and nothing else |
| `BarSeries.Series.GetItem` | src/domain/scripting/series.py:74-83 | raises exactly on a negative offset; otherwise the tentative value first, then the committed ones, then None |
| `BarSeries.Series.CommittedAt` | src/domain/scripting/series.py:85-101 | raises exactly on a negative offset; otherwise ignores any tentative value |
| `BarSeries.ConstantSeries` | src/domain/scripting/series.py:167-177 | the loop of pushes builds the full constant history |
| `Indicators.NewIndicatorsAreUnfed` | src/domain/indicators/ema.py:15-28 | which periods and alphas each constructor accepts, and what it starts from: unfed, an EMA taking in 2 / (period + 1) of a move or alpha, MACD's three such EMAs over its own periods, RSI smoothing by 1 / period |
| `Indicators.OneUpdate` | src/domain/indicators/rsi.py:24-40 | for all five indicators: one more value is counted, and a reading appears exactly from the warm-up count on and never goes away |
| `Indicators.WarmUpIsExact` | src/domain/indicators/macd.py:43-54 | EMA, WMA and support/resistance first read at update p, RSI at p+1, MACD at slow+signal-1, for every input sequence |
| `Indicators.EmaPeekPredicts` | src/domain/indicators/ema.py:30-49 | a peek reads exactly when the EMA is ready, one bar later than an update would, and then equals the next update |
| `Indicators.MacdPeekPredicts` | src/domain/indicators/macd.py:43-70 | the same for MACD over its three EMAs |
| `Indicators.RsiPeekPredicts` | src/domain/indicators/rsi.py:24-63 | the same for RSI over its two smoothers |
| `Indicators.PeekPredictsUpdate` | src/domain/indicators/wma.py:28-51 | a tentative reading that is not None is the next committed reading; they differ exactly on the seed-completing bar of EMA, MACD and RSI, never for WMA or support/resistance |
| `IndicatorRanges.WeightNonNegative` | src/domain/indicators/ema.py:30-40 | the weights of an EMA are not negative |
| `IndicatorRanges.WeightClosedForm` | src/domain/indicators/ema.py:30-40 | the recursively blended weight has the closed geometric form |
| `IndicatorRanges.EmaIsWeightedSum` | src/domain/indicators/ema.py:30-40 | a ready EMA is the weighted sum of every value ever fed |
| `IndicatorRanges.WeightsSumToOne` | src/domain/indicators/ema.py:30-40 | the weights add up to one |
| `IndicatorRanges.EmaBetweenMinAndMax` | src/domain/indicators/ema.py:30-40 | a ready EMA lies between any bounds of the values fed |
| `IndicatorRanges.RsiReadingInRange` | src/domain/indicators/rsi.py:24-63 | every RSI reading, of any input, lies in [0, 100] |
| `IndicatorRanges.RsiSmoothsMoves` | src/domain/indicators/rsi.py:24-40 | RSI's two smoothers are EMAs of the up-moves and of the down-moves between consecutive closes |
| `IndicatorRanges.MaxBounds` | src/domain/indicators/support_resistance.py:44-45 | the window's extremes are attained bounds |
| `IndicatorMeanings.RsiIsGainShare` | src/domain/indicators/rsi.py:59-63 | RSI is the share of smoothed gains in all smoothed moves, in percent, and 50 when nothing moved |
| `IndicatorMeanings.MacdIsItsEmas` | src/domain/indicators/macd.py:43-54 | after any history MACD is two EMAs of every close and one of their difference once both read |
| `IndicatorMeanings.MacdReadingMeans` | src/domain/indicators/macd.py:43-54 | each reading is fast less slow, the EMA of that line, and their difference |
| `IndicatorMeanings.WindowHoldsLatest` | src/domain/indicators/wma.py:28-34 | a rolling window holds exactly the latest `period` closes, oldest first |
| `IndicatorMeanings.WeightedIsSuffixSums` | src/domain/indicators/wma.py:33-34 | weighting by 1, 2, … from the oldest is adding up the sums of all endings of the window |
| `IndicatorMeanings.WeightTotalIsTriangular` | src/domain/indicators/wma.py:25-26 | the weights add up to p(p+1)/2 |
| `IndicatorMeanings.WmaReadingBetween` | src/domain/indicators/wma.py:28-34 | a WMA reading lies between any bounds of the latest closes |
| `IndicatorMeanings.LevelsAreExtremes` | src/domain/indicators/support_resistance.py:39-51 | resistance and support are attained extremes of the latest closes, the midline half way between |
| `IndicatorMeanings.EmaTakesItsShare` | src/domain/indicators/ema.py:30-40 | over any history an unfed EMA reads nothing before its period, then the mean of its first values, and from there takes in exactly its share of every move |
| `IndicatorMeanings.EmaOfPeriod` | src/domain/indicators/ema.py:15-40 | from the period alone, (next - previous) (period + 1) = 2 (value - previous); from an alpha, next - previous = alpha (value - previous) |
| `IndicatorMeanings.RsiReadingMeans` | src/domain/indicators/rsi.py:16-63 | from the period alone, over any history: an RSI reading is the share of Wilder-smoothed up-moves in all smoothed moves, in percent, and 50 without any |
| `IndicatorMeanings.WmaReadingMeans` | src/domain/indicators/wma.py:19-34 | over any history: a WMA reading times p(p+1)/2 is the latest p closes weighed by 1, 2, … from the oldest |
| `IndicatorObjects.EMA.Make` | src/domain/indicators/ema.py:15-28 | raises exactly for the periods and alphas the constructor refuses; else unfed, with multiplier times (period + 1) equal to 2, or the alpha |
| `IndicatorObjects.EMA.Update` | src/domain/indicators/ema.py:30-40 | seeds with the mean of the first period values, then moves by its multiplier of the distance to the value, and returns the reading |
| `IndicatorObjects.EMA.PeekProvisional` | src/domain/indicators/ema.py:42-49 | the tentative reading, with the object unchanged |
| `IndicatorObjects.MACD.Make` | src/domain/indicators/macd.py:29-41 | raises exactly when fast is not below slow or a period is refused |
| `IndicatorObjects.MACD.Update` | src/domain/indicators/macd.py:43-54 | advances the three owned EMAs as the value-level MACD does, the signal only once the slow one reads |
| `IndicatorObjects.MACD.PeekProvisional` | src/domain/indicators/macd.py:56-70 | the tentative reading, with no owned EMA changed |
| `IndicatorObjects.RSI.Make` | src/domain/indicators/rsi.py:16-22 | raises exactly for a refused period; its two smoothers are new and distinct |
| `IndicatorObjects.RSI.Update` | src/domain/indicators/rsi.py:24-40 | advances the previous close and both smoothers as the value-level RSI does |
| `IndicatorObjects.RSI.PeekProvisional` | src/domain/indicators/rsi.py:42-57 | the tentative reading, with nothing changed |
| `IndicatorObjects.RollingWindow.Make` | src/domain/indicators/wma.py:19-26 | raises exactly for a refused period |
| `IndicatorObjects.RollingWindow.Push` | src/domain/indicators/wma.py:28-34 | appends and drops the oldest value beyond the period |
| `IndicatorObjects.IndicatorRef.Update` | src/domain/indicators/support_resistance.py:39-51 | whichever kind it holds, the object moves as the value-level indicator does |
| `IndicatorObjects.IndicatorRef.PeekProvisional` | src/domain/indicators/support_resistance.py:53-70 | whichever kind it holds, the tentative reading |
| `Strategies.TrackedReads` | src/domain/strategies/base_strategy.py:246-260 | what the strategies read of a just tracked series does not depend on whether it was committed or poked |
| `StrategyProofs.FormingKeepsCommitted` | src/domain/strategies/base_strategy.py:246-260 | tracking on a forming bar leaves every series' committed history as it was |
| `StrategyProofs.ClosedStaysInStep` | src/domain/strategies/base_strategy.py:246-260 | series that agree on committed history still do after the same closed bar, whatever was poked before |
| `StrategyProofs.DecisionReadsCommittedHistory` | src/domain/strategies/ema_trend_pullback_strategy.py:186-335 | for all three strategies: the decision depends on committed history and the context only, not on tentative values nor on whether the bar is closed |
| `StrategyProofs.SeriesShowTheBar` | src/domain/strategies/base_strategy.py:246-260 | after a bar, closed or forming, each series a strategy keeps shows that bar's value in front of its closed history |
| `StrategyProofs.SeriesKeepsSixteen` | src/domain/scripting/series.py:10-62 | a strategy's series gives back its last sixteen closed values and nothing older |
| `StrategyProofs.ReasonsSayWhy` | src/domain/strategies/ema_trend_pullback_strategy.py:224-239 | the reason that goes with each action of each strategy; an exit from a short carries the long one's text |
| `StrategyObjects.Strategy.DecideCrossover` | src/domain/strategies/ema_crossover_strategy.py:54-66 | records both series in place and decides as the value-level crossover |
| `StrategyObjects.Strategy.DecideMultiEma` | src/domain/strategies/multi_ema_trend_follower_strategy.py:91-115 | records five series in place and decides as the value-level stack strategy |
| `StrategyObjects.Strategy.UpdateTrendConfirmation` | src/domain/strategies/ema_trend_pullback_strategy.py:241-300 | reads the committed counters, then records the next ones in place |
| `StrategyObjects.Strategy.EntryConfirmation` | src/domain/strategies/ema_trend_pullback_strategy.py:302-335 | reads the previous low and high before recording this bar's |
| `StrategyObjects.Strategy.DecidePullback` | src/domain/strategies/ema_trend_pullback_strategy.py:186-239 | records five series in place and decides as the value-level pullback strategy |
| `StrategyObjects.Strategy.Evaluate` | src/domain/strategies/base_strategy.py:186-197 | the signal of the strategy's decision, with the series it leaves behind |
| `Engine.FormingTicksAreTransparent` | src/application/services/strategy_engine.py:57-132 | for any interleaving, deleting every forming tick changes no closed-bar signal, no indicator state and no committed series |
| `Engine.EngineWarmUpIsTheMaximum` | src/application/services/strategy_engine.py:134-145 | the strategy is evaluated at a closed bar exactly from the slowest indicator's warm-up count on: none is held back while another warms up |
| `Engine.LastFormingTickPredictsClose` | src/application/services/strategy_engine.py:76-111 | after any run, a forming candle with the final prices and the same side gives the signal `on_tick` gives once it closes, whenever every peek is ready |
| `Engine.FormingIsReadyOneBarLater` | src/application/services/strategy_engine.py:147-156 | over EMAs, a forming tick is evaluated exactly one closed bar after a closed one would be |
| `Engine.FormingShowsItsPeeks` | src/application/services/strategy_engine.py:76-111 | a forming tick leaves every indicator as it was and puts the tentative readings in front of the closed ones |
| `Engine.SignalsAreOfTheirCandle` | src/domain/strategies/base_strategy.py:186-197 | a signal returned for a closed bar or a forming one carries that candle's symbol, close and close time, and never HOLD |
| `StrategyEngines.StrategyEngine.UpdateIndicators` | src/application/services/strategy_engine.py:134-145 | every owned indicator object takes the close, and the readings are all of them or None |
| `StrategyEngines.StrategyEngine.PeekIndicators` | src/application/services/strategy_engine.py:147-156 | the tentative readings, with no indicator object in the frame |
| `StrategyEngines.StrategyEngine.ProcessOne` | src/application/services/strategy_engine.py:113-132 | one closed bar moves the object as the value-level engine, and publishes exactly the signal it returns |
| `StrategyEngines.StrategyEngine.OnTick` | src/application/services/strategy_engine.py:57-62 | the committing path is `ProcessOne`'s |
| `StrategyEngines.StrategyEngine.RunBatch` | src/application/services/strategy_engine.py:64-74 | a batch leaves the engine where bar-by-bar calls do and returns the same signals |
| `StrategyEngines.StrategyEngine.OnFormingBarTick` | src/application/services/strategy_engine.py:76-111 | raises exactly on a closed candle; otherwise tentative, with no indicator object in the frame |
| `StrategyEngines.BuildIndicators` | src/domain/strategies/multi_ema_trend_follower_strategy.py:83-89 | a bad period raises; otherwise new distinct EMAs, one per key |
| `StrategyEngines.NewStatesAreNamed` | src/domain/strategies/multi_ema_trend_follower_strategy.py:83-89 | for each strategy, which period's unfed EMA is under which name |
| `StrategyEngines.BuildEngine` | src/application/services/strategy_factory.py:15-38 | the engine is wired from the strategy's own indicator set, unfed and with empty series |
| `ClosedRuns.EngineRunIsStrategyRun` | src/application/services/strategy_engine.py:113-132 | after a closed-bar run the engine's series are the strategy's after the evaluated bars |
| `ClosedRuns.SignalIsDecision` | src/application/services/strategy_engine.py:113-132 | a closed bar's signal is the strategy's decision on the context that bar became |
| `EngineReadings.RunFeedsTheCloses` | src/application/services/strategy_engine.py:134-145 | after any run each indicator stands where feeding it the closed bars' closes, in order, leaves it |
| `EngineReadings.EvaluatedReadingsAreEmas` | src/application/services/strategy_engine.py:113-132 | a closed bar is evaluated on the EMAs of every closed bar's close, this one included |
| `RunSignals.CrossoverSignals` | src/domain/strategies/ema_crossover_strategy.py:54-66 | over any closed-bar run, BUY exactly when fast was strictly below slow on the evaluated bar before and is strictly above now, SELL the other way |
| `RunSignals.KeptLowAndHigh` | src/domain/strategies/ema_trend_pullback_strategy.py:317-322 | the low and high read before recording are the previous evaluated bar's |
| `RunSignals.PullbackSignals` | src/domain/strategies/ema_trend_pullback_strategy.py:186-239 | over any closed-bar run, all four signals, each if and only if, from the confirmed trend, this bar, the bar before and the side held |
| `TrendConfirmation.TouchMeetsBand` | src/domain/strategies/ema_trend_pullback_strategy.py:193-195 | a bar touches exactly when 100 (low - ema) and 100 (ema - high) are both at most ema times the sensitivity |
| `TrendConfirmation.BandIsPercent` | src/domain/strategies/ema_trend_pullback_strategy.py:202-203 | a price is inside the entry band exactly when it is at most the sensitivity's percent of the average away |
| `TrendConfirmation.CountersFollowBars` | src/domain/strategies/ema_trend_pullback_strategy.py:261-300 | the three series read back after any closed-bar run are the counters run over that run's bars |
| `TrendConfirmation.SideIsLastSide` | src/domain/strategies/ema_trend_pullback_strategy.py:281-292 | the trend side is the side of the last close off the long EMA since the last touch reset |
| `TrendConfirmation.ConsecutiveCountsSameSideCloses` | src/domain/strategies/ema_trend_pullback_strategy.py:281-292 | `consecutive_bars` counts the same-side closes since the last opposite close or touch reset, equal closes ignored |
| `TrendConfirmation.ConfirmedIsLastReached` | src/domain/strategies/ema_trend_pullback_strategy.py:274-295 | `confirmed_trend` is the side of the most recent run since the last reset that reached `tick_confirm`, flat when none did |
| `TrendConfirmation.NoEntryOnTouch` | src/domain/strategies/ema_trend_pullback_strategy.py:193-239 | with touch reset on, a touching bar enters nothing |
| `TrendConfirmation.EntryNeedsConfirmedRun` | src/domain/strategies/ema_trend_pullback_strategy.py:214-230 | over any closed-bar run, an entry is backed by at least `tick_confirm` same-side closes with no opposite close between, since the last reset |
| `MultiEmaSignals.SignalsMarkTransitions` | src/domain/strategies/multi_ema_trend_follower_strategy.py:103-115 | BUY exactly on the bars the stack completes, SELL exactly on the bars it breaks: the 0/1 flag misses no crossing of 0.5 |
| `MultiEmaSignals.SignalsAlternate` | src/domain/strategies/multi_ema_trend_follower_strategy.py:103-115 | between two BUYs lies a SELL and between two SELLs a BUY |
| `MultiEmaSignals.StackedFromBuyToSell` | src/domain/strategies/multi_ema_trend_follower_strategy.py:103-115 | every bar from a BUY up to the next SELL is fully stacked |
| `HistorySignals.ContextsAreTheHistory` | src/application/services/strategy_engine.py:113-145 | an engine as built evaluates every closed bar from the slowest warm-up on, each on the EMAs of all closes so far |
| `HistorySignals.CrossoverEndToEnd` | src/application/services/strategy_engine.py:57-132 | as built and after any interleaving with forming ticks, `on_tick` buys exactly when the fast EMA of all closes crosses from strictly below the slow one to strictly above, and sells on the reverse |
| `HistorySignals.MultiEmaEndToEnd` | src/application/services/strategy_engine.py:57-132 | likewise the stack strategy buys exactly when the EMAs of all closes become fully stacked and sells exactly when they stop being |
| `HistorySignals.CountersEndToEnd` | src/application/services/strategy_engine.py:57-132 | likewise the three trend counters are those of the closed candles and the long EMA of their closes |
| `HistorySignals.PullbackEndToEnd` | src/application/services/strategy_engine.py:57-132 | likewise the pullback strategy's four signals, each if and only if, from the closed candles, the EMAs of their closes and the side held |
| `FirstBar.NoSeriesBeforeEvaluation` | src/application/services/strategy_engine.py:76-111 | until some closed bar is evaluated, no series exists |
| `FirstBar.PredictsExceptFirstBar` | src/application/services/strategy_engine.py:76-111 | a forming tick predicts its close on every bar but the first evaluated one, and there exactly if that close is silent |
| `FirstBar.CrossesArePredictedAlways` | src/application/services/strategy_engine.py:76-111 | for the crossover and the stack strategy every forming tick predicts its close, the first evaluated bar included |
| `FirstBar.PullbackIsPredicted` | src/application/services/strategy_engine.py:76-111 | for the pullback strategy the first evaluated bar is mispredicted exactly when it already acts: a threshold of one close that enters, or a touch that exits the side held |
| `FirstBar.FirstBarIsMissedWhenItEnters` | src/application/services/strategy_engine.py:76-111 | with no position held, as is the case before any bar was evaluated, the first evaluated bar's forming ticks are silent and miss its close exactly when that bar enters |
| `FirstBar.FirstBarMisses` | src/domain/strategies/ema_trend_pullback_strategy.py:86-239 | such a bar, with inputs inside their declared limits: nine flat bars at 100, then a dip to 100 that closes at 110 over EMAs of ten closes; closed it buys, forming it is silent |
| `CoverageProofs.SortIsInOrder` | src/application/services/backtest_range_coverage.py:110-113 | the stable sort orders by open time |
| `CoverageProofs.SortIsPermutation` | src/application/services/backtest_range_coverage.py:110-113 | the stable sort keeps every candle, with multiplicity |
| `CoverageProofs.SameStart` | src/application/services/backtest_range_coverage.py:115-124 | both forms work on the same rows, all inside the range, and start from the same candle or both give up |
| `CoverageProofs.FirstGapAfter` | src/infrastructure/persistence/kline_row_mapper.py:142-148 | the gap aggregate is the open before the first gap, and NULL exactly when no pair is a gap apart |
| `CoverageProofs.AggregatesOf` | src/infrastructure/persistence/kline_row_mapper.py:138-150 | the other five aggregates, read off the ascending rows |
| `CoverageProofs.ReportsAgree` | src/application/services/backtest_range_coverage.py:54-90 | on any data, including no start and no rows, both forms report the same first and last open, counts, duplicates and unclosed flag |
| `CoverageProofs.FullSpanIsTheGrid` | src/application/services/backtest_range_coverage.py:73-80 | pigeonhole: gap-free opens whose count fills the span sit exactly one interval apart |
| `CoverageProofs.FastFullIsDirectFull` | src/application/services/backtest_range_coverage.py:73-80 | so the fast conditions make every expected open present, and every open on the grid, with no alignment assumed |
| `CoverageProofs.DirectFullOnGridIsFastFull` | src/application/services/backtest_range_coverage.py:141-157 | on the grid, no missing and no duplicate open gives back all the fast conditions |
| `CoverageProofs.FastVerdictRefinesDirect` | src/application/services/backtest_range_coverage.py:32-165 | on any data the fast verdict implies the direct one; it equals it together with 'every candle in range opens on the grid' |
| `CoverageProofs.OffGridCandleSplitsTheVerdicts` | src/application/services/backtest_range_coverage.py:73-80 | the aligned hypothesis is needed: one surplus candle off the grid leaves the direct form satisfied and the fast one not |
| `CoverageProofs.HintsAreMissing` | src/application/services/backtest_range_coverage.py:63-71 | on the grid the hints are strictly increasing and each is expected and absent |
| `CoverageProofs.HintsAgreeWithMissing` | src/application/services/backtest_range_coverage.py:63-71 | the hints are empty exactly when nothing is missing, and begin with the first missing open |
| `CoverageProofs.DiagnosticsAgree` | src/application/services/backtest_range_coverage.py:63-89 | on aligned data the reported missing lists are empty together and share their first entry, the fast one is strictly increasing and truly missing, and both expect as many candles |
| `CoverageMeanings.SortIsStable` | src/application/services/backtest_range_coverage.py:110-113 | candles that open alike stay in the order they were given |
| `CoverageMeanings.BoundsAreAligned` | src/application/services/backtest_range_coverage.py:172-181 | flooring the earlier of end and now gives exactly the last grid point neither past the one nor the other |
| `CoverageMeanings.FromIsStart` | src/application/services/backtest_range_coverage.py:46-52 | both forms start at the first grid point at or after the start, or without a start at the earliest stored open |
| `CoverageMeanings.RowsAreInRange` | src/application/services/backtest_range_coverage.py:115-124 | the rows both forms work on are exactly the stored candles of the range, each as often as it is stored |
| `CoverageMeanings.ExpectedFromStart` | src/application/services/backtest_range_coverage.py:138-143 | given a start, a range asks for exactly the grid points at or after it whose interval ends by end and by now |
| `CoverageMeanings.DirectVerdictMeans` | src/application/services/backtest_range_coverage.py:138-165 | from the stored candles and the request: covered exactly when the range is not empty, every expected open is stored, none of the range twice, and every candle of the range has closed by now |
| `CoverageMeanings.FastVerdictMeans` | src/application/services/backtest_range_coverage.py:65-80 | from the stored candles and the request: the same, and every candle of the range opens on the grid |
| `CoverageMeanings.NothingStoredIsNotCovered` | src/application/services/backtest_range_coverage.py:51-62 | without a start, no stored candle is never covered, in either form |
| `CoverageMeanings.DirectDiagnosticsMean` | src/application/services/backtest_range_coverage.py:138-165 | the direct form reports how many intervals begin in the range and the first three expected opens no stored candle has |
| `GapProofs.GapsConserveCandles` | src/infrastructure/persistence/kline_row_mapper.py:153-171 | candles held plus `missing_candles` of all gaps equals (last - first) / interval + 1 |
| `GapProofs.StatusCountsListedGaps` | src/infrastructure/persistence/kline_row_mapper.py:83-122 | the status report counts exactly the listed gaps, over exactly the stored candles |
| `GapProofs.GapsAreListed` | src/infrastructure/persistence/kline_row_mapper.py:153-171 | a gap is listed exactly for each neighbouring pair more than an interval apart |
| `GapProofs.FetchRangeHoldsTheMissing` | src/domain/models/data_gap.py:22-32 | a gap's fetch range holds exactly `missing_candles` grid candles: those strictly between its boundary opens |
| `GapProofs.StoredOrFetched` | src/domain/models/data_gap.py:22-32 | every grid point of the span is stored or fetched by some gap, never both, and nothing else is fetched |
| `GapProofs.RepairLeavesNoGaps` | src/domain/models/data_gap.py:22-32 | storing everything fetched leaves the unbroken grid and no gap to list |
| `GapProofs.RepairIsTheGrid` | src/domain/models/data_gap.py:22-32 | a list is the repaired history if and only if it is the grid from the first stored open to the last: it exists and is determined |
| `GapProofs.RepairedRangeIsCovered` | src/application/services/backtest_range_coverage.py:32-165 | a repaired and closed span is fully covered under both verdicts |
| `DataGaps.GetGaps` | src/infrastructure/persistence/sqlalchemy_repository.py:374-407 | the loop maps every query row, and a symbol without a shard has no gaps |
| `KlineDownload.RequestedKeepsOrder` | src/infrastructure/binance/client.py:113-129 | a requested range is in order and without overlap, so no kline appears twice |
| `KlineDownload.RequestedMembers` | src/infrastructure/binance/client.py:113-129 | a request names exactly the klines between its bounds |
| `KlineDownload.ResumeAsksForTheRest` | src/infrastructure/binance/client.py:127 | asking from one millisecond after the last close leaves exactly the klines not yet delivered |
| `KlineDownload.CancellableSleep` | src/infrastructure/binance/client.py:149-168 | polls once per 50 ms of the delay, and ends with the first poll that says cancelled |
| `KlineDownload.BackoffDoubles` | src/infrastructure/binance/client.py:138-147 | the n-th failure in a row waits 2000 * 2^(n-1) ms, which is 40 * 2^(n-1) polls |
| `KlineDownload.DeliverKlines` | src/infrastructure/binance/client.py:122-128 | one generator call yields the front of what is still missing, as far as the network or the caller lets it, one poll per kline, and moves the start past it |
| `KlineDownload.GenerateRawKlines` | src/infrastructure/binance/client.py:82-147 | under every failure schedule it ends, having yielded an in-order prefix of the range, whole on normal return; each attempt asked for exactly the rest; it re-raises exactly on the first fourth failure with no kline in between; and it stops at the first poll that says cancelled, every poll being one of an attempt or a backoff |
| `KlineDownload.StreamRawKlines` | src/infrastructure/binance/client.py:232-268 | over the same ending: the chunks are what was yielded, in order, short of fewer klines than one chunk and of none on normal return; all full but a last non-empty one; progress reports the klines in the chunks so far |
| `KlineDownload.FetchRawKlines` | src/infrastructure/binance/client.py:171-205 | over the same ending: the whole range on normal return and nothing otherwise; progress once per thousand received, and once at the end of a normal return |
| `UserDataStream.SumInAnyOrder` | src/infrastructure/binance/futures_user_data_stream.py:373 | the sum of the dict is a sum over its symbols, in whatever order they are listed |
| `UserDataStream.RunIsFenced` | src/infrastructure/binance/futures_user_data_stream.py:183-215 | after any interleaving, the running session's coroutine alone carries the current generation and a live token |
| `UserDataStream.OnlyTheLatestSessionHandles` | src/infrastructure/binance/futures_user_data_stream.py:248-262 | a received message is handled exactly when its coroutine belongs to the latest start and no stop came since |
| `UserDataStream.SupersededCoroutinesFinish` | src/infrastructure/binance/futures_user_data_stream.py:248-262 | a superseded coroutine that resumes handles nothing and finishes |
| `UserDataStream.ParsedIsLastEntry` | src/infrastructure/binance/user_data_event_parser.py:116-132 | the parsed dict gives a symbol its last entry's value, zero when that is missing, and nothing when it has no entry |
| `UserDataStream.RunningSessionStaysAlive` | src/infrastructure/binance/futures_user_data_stream.py:240-300 | whatever the connection does, the running session's coroutine finishes only when it is aborted |
| `UserDataStream.ReconnectingResumes` | src/infrastructure/binance/futures_user_data_stream.py:240-300 | after its connection died the running session receives again once it reconnects |
| `UserDataStream.ParsedHoldsLastEntries` | src/infrastructure/binance/user_data_event_parser.py:116-132 | for the greatest index of a symbol the dict holds that entry's unrealized PnL, or zero when it has none; and it holds no other symbol |
| `UserDataStream.PnlIsLastReported` | src/infrastructure/binance/futures_user_data_stream.py:360 | after any run the running dict holds, per symbol, the last value reported since the latest start, and no other symbol |
| `UserDataStream.SamplesSumTheLastReports` | src/infrastructure/binance/futures_user_data_stream.py:360-376 | a sample is recorded exactly when an ACCOUNT_UPDATE with a quote balance is handled, and carries the sum over symbols of those last values |
| `UserDataStream.FuturesUserDataStream.Start` | src/infrastructure/binance/futures_user_data_stream.py:183-198 | starts a new generation with an empty dict, unless one is running |
| `UserDataStream.FuturesUserDataStream.Stop` | src/infrastructure/binance/futures_user_data_stream.py:200-215 | bumps the generation and cancels the token, unless none is running |
| `UserDataStream.FuturesUserDataStream.Receive` | src/infrastructure/binance/futures_user_data_stream.py:248-262 | check, handle and guard as one step |
| `UserDataStream.FuturesUserDataStream.HandleAccountUpdate` | src/infrastructure/binance/futures_user_data_stream.py:360-376 | folds the message into the dict and records a sample of its sum |
| `UserDataStream.ParsePositionPnls` | src/infrastructure/binance/user_data_event_parser.py:116-132 | the comprehension, as a loop: for the greatest index of a symbol, that entry's own value or zero, and no other symbol |
| `UserDataStream.WalletBalanceIsFirstQuote` | src/infrastructure/binance/user_data_event_parser.py:135-141 | the wallet balance is the first quote-asset entry's, and None exactly when there is none |
| `UserDataStream.FindWalletBalance` | src/infrastructure/binance/user_data_event_parser.py:135-141 | the scan returns the balance of the least index in the quote asset, and None exactly when there is none |
| `UserDataStream.Total` | src/infrastructure/binance/futures_user_data_stream.py:373 | the loop over the values gives their sum |
| `StreamSubscriptions.AlwaysConsistent` | src/infrastructure/binance/binance_websocket_service.py:83-163 | after any calls no key is kept without an owner, and at most one task is not cancelled: the handle's, streaming exactly the active set |
| `StreamSubscriptions.OwnersHoldTheirLastSubscribe` | src/infrastructure/binance/binance_websocket_service.py:83-136 | each owner is recorded at exactly the keys of its last subscribe not released since |
| `StreamSubscriptions.ActiveSetIsTheHeldKeys` | src/infrastructure/binance/binance_websocket_service.py:138-163 | the active set is exactly the keys some owner holds |
| `StreamSubscriptions.RespawnsOnlyOnChange` | src/infrastructure/binance/binance_websocket_service.py:138-163 | the stream is cancelled and respawned exactly when the active set changes; otherwise no task is touched |
| `StreamSubscriptions.JoiningActiveKeysIsQuiet` | src/infrastructure/binance/binance_websocket_service.py:83-96 | an owner joining keys already streamed does not disturb the stream |
| `StreamSubscriptions.BinanceWebsocketService.Subscribe` | src/infrastructure/binance/binance_websocket_service.py:83-96 | replaces the owner's keys, in place |
| `StreamSubscriptions.BinanceWebsocketService.ReleaseOwner` | src/infrastructure/binance/binance_websocket_service.py:98-113 | drops the owner's keys and says whether it held any |
| `StreamSubscriptions.BinanceWebsocketService.StopAll` | src/infrastructure/binance/binance_websocket_service.py:115-122 | drops every key and says whether there was one |
| `StreamSubscriptions.BinanceWebsocketService.DropOwner` | src/infrastructure/binance/binance_websocket_service.py:126-136 | the deleting loop removes exactly this owner, and exactly the keys it alone held |
| `StreamSubscriptions.BinanceWebsocketService.ApplyActiveSet` | src/infrastructure/binance/binance_websocket_service.py:138-163 | cancels and respawns the stream only on change |
| `TradingSession.GenerationCountsEffects` | src/application/services/trading_session_state.py:101-168 | the generation never falls, and stands still exactly when no call took effect |
| `TradingSession.StaleEnableNeverWins` | src/application/services/trading_session_state.py:101-128 | an enable whose generation was read earlier is refused, changing nothing, exactly when some call took effect in between; otherwise it finds the state it read |
| `TradingSession.DisableIsNotUndone` | src/application/services/trading_session_state.py:101-133 | a disable during the round-trips leaves trading off after the enable they led to |
| `TradingSession.OrderCountIsExact` | src/application/services/trading_session_state.py:148-153 | the order count is the number of `record_order_sent` calls |
| `TradingSession.MembershipIsLastEvent` | src/application/services/trading_session_state.py:101-168 | a symbol is known open exactly when the last effective call that concerns it says so |
| `TradingSession.EnabledIsLastSwitch` | src/application/services/trading_session_state.py:101-133 | trading is on exactly when the last effective switch was an enable |
| `TradingSession.LastOrderTimeIsLastOrder` | src/application/services/trading_session_state.py:143-153 | a symbol's last-order time is its last order's, whatever happened since |
| `TradingSession.TradingSessionState.Enable` | src/application/services/trading_session_state.py:101-128 | the conditional apply, in place |
| `TradingSession.TradingSessionState.Disable` | src/application/services/trading_session_state.py:130-133 | switches off and bumps the generation |
| `TradingSession.TradingSessionState.RecordOrderSent` | src/application/services/trading_session_state.py:148-153 | counts, dates and assumes open |
| `TradingSession.TradingSessionState.ReconcilePosition` | src/application/services/trading_session_state.py:155-168 | matches the exchange, and returns true exactly when the known symbols changed |
| `TradingSession.TradingSessionState.TimeSinceLastOrder` | src/application/services/trading_session_state.py:143-146 | over the object's whole history of calls: the time since the symbol's last order in it, and None exactly when it has none |
| `PositionRefresh.PollReplacesView` | src/application/services/position_refresh_service.py:94-101 | folding one poll's events, in any order of closings, takes the known positions to exactly the polled ones |
| `PositionRefresh.SubscriberConverges` | src/application/services/position_refresh_service.py:77-101 | for any run with failed fetches and disabled ticks, a subscriber's fold is the last successful poll, later duplicates winning |
| `PositionRefresh.PositionRefreshService.RefreshOnce` | src/application/services/position_refresh_service.py:77-101 | publishes each position, then each known symbol now gone once; nothing when disabled or failed |
| `BrokerPolicies.NotionalIsLeveragedMargin` | src/domain/backtesting/policies/margin_risk_policy.py:32-90 | whatever the sizing and the clamp, notional is margin times leverage and margin is cash there is |
| `BrokerPolicies.NotionalIsSpent` | src/domain/backtesting/policies/fee_calculator_policy.py:14-49 | under every commission model the notional is exactly the contracts at the entry price plus the fee |
| `BrokerPolicies.ReleaseIsMarginPlusPnl` | src/domain/backtesting/policies/margin_risk_policy.py:112-144 | closing returns the margin plus the profit to the cash, spot formula included |
| `BrokerPolicies.PnlIsPriceMoveLessFees` | src/domain/backtesting/policies/margin_risk_policy.py:128-138 | the spot formula and the leveraged one agree: price move times quantity, less both fees |
| `BrokerPolicies.StopIsBeyond` | src/domain/backtesting/policies/order_matching_policy.py:72-87 | a stop sits its fraction of the entry price on the losing side |
| `RiskSizing.DeployedIsNotional` | src/domain/backtesting/policies/margin_risk_policy.py:65-90 | the notional a risk-sized entry gets is the one whose stop distance is worth the risk, or all the cash and leverage allow |
| `RiskSizing.FillsAndFees` | src/domain/backtesting/policies/fee_calculator_policy.py:14-71 | an entry fills exactly when the inputs let it, and its fees at entry and at its stop are those of the inputs |
| `RiskSizing.PnlAtStop` | src/domain/backtesting/policies/margin_risk_policy.py:112-144 | the exact loss of any risk-sized entry at its own stop, from the inputs alone, under every commission, side and leverage |
| `RiskSizing.RiskPromise` | src/domain/value_objects/position_sizing.py:17-22 | for every input: the stop loses exactly the promised share of equity if and only if what commission adds equals what the cash limit takes off, and more if and only if it exceeds it |
| `RiskSizing.RiskPromiseByGuards` | src/domain/value_objects/position_sizing.py:17-22 | a whole entry loses exactly the promised share if and only if no commission is charged, and never less; an uncharged one if and only if the cash carries it whole, and never more |
| `RiskSizing.RiskPromiseWhenClamped` | src/domain/value_objects/position_sizing.py:17-22 | for a clamped entry, the condition over the inputs alone under each commission |
| `RiskSizing.AddedSign` | src/domain/value_objects/position_sizing.py:17-22 | commission never takes off the loss, and adds nothing exactly when none is charged |
| `RiskSizing.TakenOffSign` | src/domain/value_objects/position_sizing.py:17-22 | the cash limit never adds to the loss, and takes nothing off exactly when the cash carries the entry whole |
| `RiskSizing.ChargedEntryLosesMore` | src/domain/value_objects/position_sizing.py:17-22 | a whole entry with a fee that loses more than promised |
| `RiskSizing.ClampedEntryLosesLessOrMore` | src/domain/value_objects/position_sizing.py:17-22 | a clamped entry that loses less, exactly as much or more than promised, by its fee |
| `RiskSizing.RiskSizingNeedsAStop` | src/domain/value_objects/position_sizing.py:17-22 | without a configured stop-loss a risk-sized exchange takes no entry |
| `RiskSizing.RiskSizedEntry` | src/domain/backtesting/paper_exchange.py:266-324 | an entry signal is taken exactly when there is room, a price and a fill, and the position's loss at its stop is the order's |
| `RiskSizing.StopLossKeepsThePromise` | src/domain/backtesting/paper_exchange.py:432-452 | on the exchange, a bar that reaches the stop of such an entry books a trade that loses the promised share of the equity at entry under exactly that condition |
| `EntrySizing.PricesAreSlipped` | src/domain/backtesting/policies/order_matching_policy.py:44-70 | slippage is ticks times tick size, up for a buy and down for a sale on either side, never below zero |
| `EntrySizing.AskedMeans` | src/domain/backtesting/policies/margin_risk_policy.py:49-76 | what each of the four sizings asks for, from equity, price, leverage and stop |
| `EntrySizing.EntryIsSized` | src/domain/backtesting/paper_exchange.py:233-264 | an entry is made exactly when the cash-limited margin, the slipped price and the commission leave something to buy; it deploys that margin and spends all of its notional on contracts and the fee |
| `EntrySizing.EntryOpens` | src/domain/backtesting/paper_exchange.py:266-324 | from the account and the price alone: an entry signal is taken exactly with no opposite position, room and something to buy; the position's price, margin, quantity, fee, leverage, stop and target; a rejected one changes nothing |
| `EntrySizing.ClosingBooks` | src/domain/backtesting/paper_exchange.py:334-393 | closing a position at any price books one trade: its entry, that exit, both fees by the commission model, and its price move less them, also in percent of the margin |
| `PaperLedger.OpeningKeepsLedger` | src/domain/backtesting/paper_exchange.py:266-324 | opening keeps the ledger and never overdraws the cash; a rejected entry changes nothing |
| `PaperLedger.SplitFollowsRule` | src/domain/backtesting/policies/order_matching_policy.py:106-142 | exactly the positions the rule names are settled, at its price and reason; the rest stay |
| `PaperLedger.ClosedTradeIsHonest` | src/domain/backtesting/paper_exchange.py:343-374 | a closed position's trade earns its price move less its fees, its percentage is of the margin, and cash gets margin plus profit |
| `PaperLedger.SettlingPaysOut` | src/domain/backtesting/paper_exchange.py:334-373 | settling returns each margin and profit to the cash and books one trade for each position, in order |
| `PaperLedger.RetiringKeepsLedger` | src/domain/backtesting/paper_exchange.py:395-452 | closing by side or by stop keeps the ledger |
| `PaperLedger.RunKeepsLedger` | src/domain/backtesting/paper_exchange.py:176-209 | in every reachable state positions share one side and number at most `pyramiding`, each paid for in full; every trade is its price move less its fees; cash is initial plus profits less deployed margin |
| `PaperLedger.EveryPositionIsAccountedFor` | src/domain/backtesting/paper_exchange.py:306-374 | every position ever opened is still open or is exactly one trade with its entry data, counted by ticket |
| `PaperLedger.EquityAddsUp` | src/domain/backtesting/paper_exchange.py:159-174 | equity at any price is the initial balance plus all profits plus the open profit |
| `PaperLedger.ForceCloseLeavesCash` | src/domain/backtesting/paper_exchange.py:199-209 | after `force_close` no position is open, equity at any price is the cash, and the cash is the initial balance plus all profits |
| `PaperLedger.StopsCloseWhatTheBarReached` | src/domain/backtesting/policies/order_matching_policy.py:106-142 | one bar closes exactly the positions it reached, each at its own level, the stop winning when both are touched |
| `PaperLedger.StopLossLoses` | src/domain/backtesting/policies/order_matching_policy.py:72-87 | a stop-loss hit loses money under every side, leverage and commission |
| `PaperLedger.TakeProfitEarnsItsShare` | src/domain/backtesting/policies/order_matching_policy.py:89-104 | a take-profit hit earns the target's share of what the contracts cost, less both fees: positive exactly when that share exceeds them |
| `PaperLedger.RoundTripAtOnePriceLoses` | src/domain/backtesting/policies/order_matching_policy.py:44-70 | buying and selling at one price loses the slippage twice and both fees, and breaks even exactly without either |
| `PaperExchange.PaperExchange.constructor` | src/domain/backtesting/paper_exchange.py:75-122 | starts flat with its initial balance as cash |
| `PaperExchange.PaperExchange.Create` | src/domain/backtesting/paper_exchange.py:75-112 | raises exactly on a non-positive balance or a negative fee; otherwise the given config and sizing, or the documented defaults |
| `PaperExchange.PaperExchange.CalculateEquity` | src/domain/backtesting/paper_exchange.py:159-174 | the loop over positions gives the equity |
| `PaperExchange.PaperExchange.Fill` | src/domain/backtesting/paper_exchange.py:176-197 | moves the account as the signal says and returns the last trade it booked, if any |
| `PaperExchange.PaperExchange.ForceClose` | src/domain/backtesting/paper_exchange.py:199-209 | closes longs then shorts, in place |
| `PaperExchange.PaperExchange.Open` | src/domain/backtesting/paper_exchange.py:266-324 | rejections and the new position, in place |
| `PaperExchange.PaperExchange.CloseOnePosition` | src/domain/backtesting/paper_exchange.py:334-373 | releases cash and appends one trade |
| `PaperExchange.PaperExchange.Close` | src/domain/backtesting/paper_exchange.py:395-430 | settles one side's positions in order |
| `PaperExchange.PaperExchange.CheckIntrabarStops` | src/domain/backtesting/paper_exchange.py:432-452 | settles the triggered positions and returns exactly their trades |
| `PaperExchange.SplitByRule` | src/domain/backtesting/policies/order_matching_policy.py:122-142 | the loop splits the positions into the two lists, in order |
| `BacktestMetrics.PeakIsReached` | src/domain/backtesting/backtest_metrics.py:211-216 | the running peak is the maximum so far and some bar reached it |
| `BacktestMetrics.MaxDrawdownPercent` | src/domain/backtesting/backtest_metrics.py:201-220 | on every curve, the single pass returns the largest drop below a positive running peak, zero when there is none |
| `BacktestMetrics.DrawdownIsLargestFall` | src/domain/backtesting/backtest_metrics.py:201-220 | on a curve that is never negative that is the largest percentage fall from any positive bar to any later one, and lies in [0, 100] |
| `BacktestMetrics.DrawdownIsFallFromPeak` | src/domain/backtesting/backtest_metrics.py:201-220 | on every curve, 100 times the fall from a positive running peak is at most the drawdown times that peak, and equal to it somewhere unless the drawdown is zero |
| `BacktestMetrics.LongestIsLongest` | src/domain/backtesting/backtest_metrics.py:324-343 | the running counters give the length of the longest contiguous run of marks |
| `BacktestMetrics.MaxDrawdownDurationBars` | src/domain/backtesting/backtest_metrics.py:305-321 | the longest contiguous stretch strictly below the running peak |
| `BacktestMetrics.DrawdownAndDurationAgree` | src/domain/backtesting/backtest_metrics.py:305-321 | from a positive start the drawdown is zero exactly when the duration is |
| `BacktestMetrics.MaxConsecutiveStreaks` | src/domain/backtesting/backtest_metrics.py:324-343 | the longest contiguous runs of winning and of losing trades, a breakeven trade ending both |
| `BacktestMetrics.ProfitSums` | src/domain/backtesting/backtest_metrics.py:151-158 | gross profit is the sum of the winners and gross loss that of the losers; they add up to the sum of every pnl and are zero exactly without winners or without losers |
| `BacktestMetrics.WinsAreCounted` | src/domain/backtesting/backtest_metrics.py:151-158 | the winners counted are exactly the trades with a positive pnl |
| `BacktestMetrics.Compute` | src/domain/backtesting/backtest_metrics.py:113-198 | net profit in money and in percent, counts and fees of the trades; the profitable share; gross profit and gross loss, the sums of the winners and of the losers; infinite factor exactly with winners and no loser; zero for the share without trades, for the percent profit of a zero balance and for the factor with neither winners nor losers; the drawdown, duration and streak meanings above |
| `BacktestMetrics.NetProfitIsCashEarned` | src/application/use_cases/backtest/run_static_backtest/handler.py:309-317 | after the final `force_close`, reported net profit is final minus initial balance, and equals the price moves' earnings less every fee |
| `BacktestRun.OneEquityPointPerBar` | src/application/use_cases/backtest/run_static_backtest/handler.py:241-286 | over any candles the ledger holds after every bar, and the curve gains exactly one point per bar: that bar's close time and the account then, marked at that close |
| `BacktestRun.LaterBarsOnlyAdd` | src/application/use_cases/backtest/run_static_backtest/handler.py:241-286 | the curve and the booked trades after some bars are the beginning of those after more bars |
| `BacktestRun.NoLookAhead` | src/application/use_cases/backtest/run_static_backtest/handler.py:241-286 | two histories that agree on their first n bars have the same state after them and keep those n equity points and the trades booked by then, whatever either goes on with |
| `BacktestRun.EntriesFollowTheirSignals` | src/application/use_cases/backtest/run_static_backtest/handler.py:256-281 | every position ever entered was entered at the open of the bar after the one whose `on_tick` signalled its side, at that open slipped and with that signal's reason |
| `BacktestRun.ExitsAreExplained` | src/application/use_cases/backtest/run_static_backtest/handler.py:256-268 | every trade booked in the loop closed either at the open after a signal to close its side, slipped, or in a bar that reached its stop or its target |
| `BacktestRun.EngineSeesTheBars` | src/application/use_cases/backtest/run_static_backtest/handler.py:275-281 | the backtest's engine is the engine run over the bars so far, one closed tick each with the side then held, and saw exactly their closes |
| `BacktestRun.SignalOfBar` | src/application/use_cases/backtest/run_static_backtest/handler.py:275-281 | the signal waiting after a bar is what `on_tick` returns after the earlier bars, given the side held once this bar's fill and stops are done |
| `BacktestRun.CrossoverSignalOfBar` | src/application/use_cases/backtest/run_static_backtest/handler.py:275-281 | in a crossover backtest a bar signals BUY and SELL exactly on the strict crosses of the EMAs of all closes up to it |
| `BacktestRun.CrossoverEntriesAreCrosses` | src/application/use_cases/backtest/run_static_backtest/handler.py:241-286 | every position a crossover backtest ever enters is long and follows, at the next open slipped, an upward cross of the EMAs of all closes so far |
| `BacktestRun.FinishedBooks` | src/application/use_cases/backtest/run_static_backtest/handler.py:309-317 | after the final close the account is flat and its cash is the initial balance plus the profit of every trade reported |
| `BacktestBars.BarFillsThenStops` | src/application/use_cases/backtest/run_static_backtest/handler.py:256-271 | every bar of a run, from the accounts before and after it alone: the pending signal is filled at the open, then exactly the positions the range reached are closed, each booked at its own level, the stop winning |
| `BacktestBars.NothingReachedStaysOpen` | src/application/use_cases/backtest/run_static_backtest/handler.py:264-271 | after every bar no open position has a stop or a target that the bar's range reached |
| `BacktestBars.ExitLeavesNothing` | src/application/use_cases/backtest/run_static_backtest/handler.py:256-258 | after the bar a pending SELL or COVER is filled on, nothing is open on its side |
| `BacktestBars.EntryIsOpenOrStopped` | src/application/use_cases/backtest/run_static_backtest/handler.py:256-271 | after the bar a pending BUY or OPEN_SHORT is taken on, its position is open, or booked at the stop or target the same bar reached |
| `BacktestBars.SideIsHeld` | src/domain/backtesting/paper_exchange.py:143-146 | the side told to the strategy is None exactly when flat, and else that of every open position |
| `BacktestBars.FinishBooksTheRest` | src/application/use_cases/backtest/run_static_backtest/handler.py:309 | the final close books everything still open at the last close, slipped, and leaves nothing |
| `BacktestHandler.SimulateBar` | src/application/use_cases/backtest/run_static_backtest/handler.py:256-286 | the loop's body over the two objects moves them, the pending signal and the curve as one bar of the value-level backtest |
| `BacktestHandler.Simulate` | src/application/use_cases/backtest/run_static_backtest/handler.py:222-317 | the loop ends at the first cancellation with that bar's account, fails on a stream without bars, and otherwise reports the final close of the value-level run, its curve and the metrics of exactly those |
| `BacktestHandler.ReportedProfitIsCash` | src/application/use_cases/backtest/run_static_backtest/handler.py:309-317 | a completed backtest reports one equity point per bar, the account after it marked at its close, measures exactly those equities, and its net profit is final less initial balance |

## Left out

- Floating-point rounding and decimal precision: reals throughout, so the zero-volatility tolerances have no counterpart.
- Sharpe, Sortino and Calmar ratios, averages and largest trades: fractional powers and easy quotients.
- Sub-second timestamps, naive datetimes and time zones; `now` is one integer wherever the code passes it.
- Signal metadata, chart colours, trend zones, declared inputs and the registry: no effect on decisions.
- `VolumeSpikeFlowStrategy` and `SupportResistanceStrategy`: they keep plain attributes that forming ticks can change.
- StrategyObjects.Strategy.Evaluate: the three strategy classes are one class over a parameter value, and its dictionary of series holds series values, so aliasing of a `Series` object between calls is not modelled; `Series` itself is a class with in-place methods.
- IndicatorObjects.IndicatorRef.Update: the indicator interface is a tagged union of the five kinds, so indicators written elsewhere are not covered.
- StrategyEngines.BuildEngine: the registry lookup and parameter resolution are replaced by the parameter value and its periods.
- `_compute_rsi_from`'s division raises only when gains and losses cancel, which smoothed moves cannot (`RsiReadingInRange`); the value-level function gives that case a number instead.
- SQLite itself: each query is a function of the rows in open-time order; a shard's rows are given, not stored.
- DataGaps.GetGaps: opens are taken distinct and ascending, as the primary key and the ORDER BY give them; malformed database datetimes are not modelled.
- KlineDownload.GenerateRawKlines: the exchange's klines do not change during a download, its generator's own paging is one call, only request errors are retried (any other exception would pass through), and the yields are collected rather than interleaved with the consumer.
- KlineDownload.StreamRawKlines: mapping a raw kline to a market-data entity is not modelled.
- UserDataStream.FuturesUserDataStream.Receive: `_trading_client` is assigned without a generation check, so only message handling is fenced; order parsing, fill events and the position re-fetch after the equity sample are not modelled.
- UserDataStream.FindWalletBalance: payloads are well-formed; a missing event time or wallet field is not modelled.
- StreamSubscriptions.BinanceWebsocketService.ApplyActiveSet: a stream's own receive loop and reconnects are not modelled, and its keys are a set rather than a sorted list.
- `live_submission_guard` and the order-execution handlers: a lock held by code outside this model.
- PositionRefresh.PositionRefreshService.RefreshOnce: events reach a subscriber in the order published; the bus is not modelled.
- PaperExchange.PaperExchange.Create: invalid `BrokerSimulationConfig` and `PositionSizing` values raise before this call and are excluded by `ValidConfig` and `ValidSizing`; entry metadata and the symbol are not carried.
- BacktestHandler.Simulate: progress callbacks, logging and the split into in-sample and out-of-sample phases are not modelled; the engine and the exchange are passed in, built as `BuildEngine` and `Create` build them.
- The historical tick backtest: its loop feeds the forming path of the same engine.
- Liquidation: the exit reason exists in the source but nothing produces it.
- User interface, commands, wiring, configuration, credentials, logging and the scripts.
