/** The three strategies as functions of their own series and one context. */
module Strategies {
  import opened Prelude
  import opened Market
  import opened BarSeries
  import opened Indicators

  /** The names series and indicators are registered under; `Other` is any name no strategy here reads. */
  datatype Key =
    | EmaFast | EmaMidFast | EmaMidSlow | EmaSlow | Stacked
    | EmaLong | EmaEntry | TrendSide | ConsecutiveBars | ConfirmedTrend | Low | High
    | Other(name: string)

  type SeriesMap = map<Key, SeriesState>

  type Readings = map<Key, IndicatorValue>

  datatype StrategyContext = StrategyContext(candle: Candle, indicators: Readings, side: Option<PositionSide>)

  datatype Decision = Decision(action: SignalAction, reason: string)

  datatype StrategyParams =
    | EmaCrossover(name: string)
    | MultiEma(name: string)
    | TrendPullback(
        tickConfirm: int,
        touchSensitivity: real,
        enableTouchReset: bool,
        enableTouchExit: bool,
        pullbackSensitivity: real,
        candleConfirmEntry: bool)

  const STACKED_LEVEL := 0.5
  const TREND_FLAT := 0
  const TREND_UP := 1
  const TREND_DOWN := -1

  /** The indicators `build_indicators` describes. */
  function Keys(params: StrategyParams): seq<Key> {
    match params
    case EmaCrossover(_) => [EmaFast, EmaSlow]
    case MultiEma(_) => [EmaFast, EmaMidFast, EmaMidSlow, EmaSlow]
    case TrendPullback(_, _, _, _, _, _) => [EmaLong, EmaEntry]
  }

  /** Every indicator the strategy reads has a plain number to give. */
  predicate HasReadings(params: StrategyParams, readings: Readings) {
    forall k :: k in Keys(params) ==> k in readings && readings[k].Scalar?
  }

  /** `self.series(key)`: a series nobody asked for yet is an empty one. */
  function SeriesOf(m: SeriesMap, key: Key): SeriesState {
    if key in m then m[key] else EmptySeries(DEFAULT_HISTORY)
  }

  /** `track`: a closed bar commits, a forming one only pokes. */
  function Tracked(s: SeriesState, value: Option<real>, isClosed: bool): SeriesState {
    if isClosed then s.Push(value) else s.Poke(value)
  }

  function Track(m: SeriesMap, key: Key, value: real, isClosed: bool): SeriesMap {
    m[key := Tracked(SeriesOf(m, key), Some(value), isClosed)]
  }

  /** Successive `track` calls, in order. */
  function TrackAll(m: SeriesMap, entries: seq<(Key, real)>, isClosed: bool): SeriesMap {
    if entries == [] then m
    else
      var (key, value) := entries[|entries| - 1];
      Track(TrackAll(m, entries[..|entries| - 1], isClosed), key, value, isClosed)
  }

  /** `int(x)`: truncation toward zero. */
  function Truncate(x: real): int {
    if x >= 0.0 then x.Floor else -((-x).Floor)
  }

  function CommittedInt(s: SeriesState, fallback: int): int {
    if s.Committed(0).None? then fallback else Truncate(s.Committed(0).value)
  }

  /** The readings `decide` records bar by bar, under their own keys. */
  function EmaEntries(params: StrategyParams, ctx: StrategyContext): seq<(Key, real)>
    requires HasReadings(params, ctx.indicators)
  {
    seq(|Keys(params)|, i requires 0 <= i < |Keys(params)| => (Keys(params)[i], ctx.indicators[Keys(params)[i]].value))
  }

  /** Buy on the bar `a` crosses above `b`, sell on the bar it crosses below. */
  function CrossDecision(a: SeriesState, b: SeriesState, onAbove: string, onBelow: string): Decision {
    if CrossedAbove(a, b) then Decision(Buy, onAbove)
    else if CrossedBelow(a, b) then Decision(Sell, onBelow)
    else Decision(Hold, "no signal")
  }

  // ---------------------------------------------------------------- EmaCrossover

  function DecideCrossover(params: StrategyParams, m: SeriesMap, ctx: StrategyContext): (SeriesMap, Decision)
    requires params.EmaCrossover? && HasReadings(params, ctx.indicators)
  {
    var after := TrackAll(m, EmaEntries(params, ctx), ctx.candle.isClosed);
    (after, CrossDecision(SeriesOf(after, EmaFast), SeriesOf(after, EmaSlow),
                          params.name + " crossed above", params.name + " crossed below"))
  }

  // ---------------------------------------------------------------- MultiEma

  predicate IsStacked(m: SeriesMap) {
    && IsAbove(SeriesOf(m, EmaFast), SeriesOf(m, EmaMidFast))
    && IsAbove(SeriesOf(m, EmaMidFast), SeriesOf(m, EmaMidSlow))
    && IsAbove(SeriesOf(m, EmaMidSlow), SeriesOf(m, EmaSlow))
  }

  function DecideMultiEma(params: StrategyParams, m: SeriesMap, ctx: StrategyContext): (SeriesMap, Decision)
    requires params.MultiEma? && HasReadings(params, ctx.indicators)
  {
    var emas := TrackAll(m, EmaEntries(params, ctx), ctx.candle.isClosed);
    var after := Track(emas, Stacked, if IsStacked(emas) then 1.0 else 0.0, ctx.candle.isClosed);
    (after, CrossDecision(SeriesOf(after, Stacked), ConstantState(STACKED_LEVEL, DEFAULT_HISTORY),
                          params.name + " fully stacked", params.name + " stacking broken"))
  }

  // ---------------------------------------------------------------- TrendPullback

  datatype Trend = Trend(side: int, consecutive: int, confirmed: int)

  /** `base` moved up (or down, for a negative `percent`) by so many percent. */
  function Band(base: real, percent: real): real {
    base * (1.0 + percent / 100.0)
  }

  predicate Touches(params: StrategyParams, low: real, high: real, emaLong: real)
    requires params.TrendPullback?
  {
    low <= Band(emaLong, params.touchSensitivity) && high >= Band(emaLong, -params.touchSensitivity)
  }

  /** The per-bar transition of the trend-confirmation block. */
  function NextTrend(params: StrategyParams, prev: Trend, touches: bool, close: real, emaLong: real): Trend
    requires params.TrendPullback?
  {
    if touches && params.enableTouchReset then Trend(TREND_FLAT, 0, TREND_FLAT)
    else
      var (side, consecutive) :=
        if close > emaLong then (TREND_UP, if prev.side == TREND_UP then prev.consecutive + 1 else 1)
        else if close < emaLong then (TREND_DOWN, if prev.side == TREND_DOWN then prev.consecutive + 1 else 1)
        else (prev.side, prev.consecutive);
      Trend(side, consecutive, if consecutive >= params.tickConfirm then side else prev.confirmed)
  }

  /** The trend as of the last bar that closed. */
  function CommittedTrend(m: SeriesMap): Trend {
    Trend(CommittedInt(SeriesOf(m, TrendSide), TREND_FLAT),
          CommittedInt(SeriesOf(m, ConsecutiveBars), 0),
          CommittedInt(SeriesOf(m, ConfirmedTrend), TREND_FLAT))
  }

  function TrendEntries(trend: Trend, candle: Candle): seq<(Key, real)> {
    [(TrendSide, trend.side as real), (ConsecutiveBars, trend.consecutive as real),
     (ConfirmedTrend, trend.confirmed as real), (Low, candle.low), (High, candle.high)]
  }

  function TrendAfter(params: StrategyParams, m: SeriesMap, ctx: StrategyContext): Trend
    requires params.TrendPullback? && HasReadings(params, ctx.indicators)
  {
    var emaLong := ctx.indicators[EmaLong].value;
    NextTrend(params, CommittedTrend(m), Touches(params, ctx.candle.low, ctx.candle.high, emaLong), ctx.candle.close,
              emaLong)
  }

  /** Whether the previous closed bar's low and high confirm a bounce or a rejection. */
  function EntryConfirmation(params: StrategyParams, prevLow: Option<real>, prevHigh: Option<real>, close: real,
                             emaEntry: real): (bool, bool)
    requires params.TrendPullback?
  {
    if !params.candleConfirmEntry then (true, true)
    else
      (prevLow.Some? && close > emaEntry && prevLow.value <= Band(emaEntry, params.pullbackSensitivity),
       prevHigh.Some? && close < emaEntry && prevHigh.value >= Band(emaEntry, -params.pullbackSensitivity))
  }

  function PullbackDecision(params: StrategyParams, confirmed: int, touches: bool, confirmation: (bool, bool),
                            low: real, high: real, close: real, emaEntry: real, side: Option<PositionSide>): Decision
    requires params.TrendPullback?
  {
    var pullbackLong := low <= Band(emaEntry, params.pullbackSensitivity) && close > emaEntry;
    var pullbackShort := high >= Band(emaEntry, -params.pullbackSensitivity) && close < emaEntry;
    if confirmed == TREND_UP && pullbackLong && confirmation.0 then Decision(Buy, "LONG Pullback EMA")
    else if confirmed == TREND_DOWN && pullbackShort && confirmation.1 then Decision(OpenShort, "SHORT Pullback EMA")
    else if params.enableTouchExit && touches && side == Some(Long) then Decision(Sell, "Exit Touch EMA Long")
    else if params.enableTouchExit && touches && side == Some(Short) then Decision(Cover, "Exit Touch EMA Long")
    else Decision(Hold, "no signal")
  }

  function DecidePullback(params: StrategyParams, m: SeriesMap, ctx: StrategyContext): (SeriesMap, Decision)
    requires params.TrendPullback? && HasReadings(params, ctx.indicators)
  {
    var candle, emaLong, emaEntry := ctx.candle, ctx.indicators[EmaLong].value, ctx.indicators[EmaEntry].value;
    var trend := TrendAfter(params, m, ctx);
    var confirmation := EntryConfirmation(params, SeriesOf(m, Low).Committed(0), SeriesOf(m, High).Committed(0),
                                          candle.close, emaEntry);
    (TrackAll(m, TrendEntries(trend, candle), candle.isClosed),
     PullbackDecision(params, trend.confirmed, Touches(params, candle.low, candle.high, emaLong), confirmation,
                      candle.low, candle.high, candle.close, emaEntry, ctx.side))
  }

  // ---------------------------------------------------------------- dispatch

  function Decide(params: StrategyParams, m: SeriesMap, ctx: StrategyContext): (SeriesMap, Decision)
    requires HasReadings(params, ctx.indicators)
  {
    match params
    case EmaCrossover(_) => DecideCrossover(params, m, ctx)
    case MultiEma(_) => DecideMultiEma(params, m, ctx)
    case TrendPullback(_, _, _, _, _, _) => DecidePullback(params, m, ctx)
  }

  /** `evaluate`: price and time always come from the triggering candle. */
  function SignalFor(ctx: StrategyContext, decision: Decision): Signal {
    Signal(ctx.candle.symbol, decision.action, decision.reason, ctx.candle.close, ctx.candle.closeTime)
  }

  // ---------------------------------------------------------------- what forming bars cannot touch

  /** Both maps agree on everything a closed bar ever committed. */
  ghost predicate SameCommitted(m1: SeriesMap, m2: SeriesMap) {
    forall k :: SeriesOf(m1, k).values == SeriesOf(m2, k).values && SeriesOf(m1, k).history == SeriesOf(m2, k).history
  }

  /** Once tracked, every offset but 0 reads committed history alone, whether the bar closed or not. */
  lemma TrackedReads(s1: SeriesState, s2: SeriesState, value: Option<real>, closed1: bool, closed2: bool)
    requires s1.values == s2.values && s1.history == s2.history >= MINIMUM_HISTORY
    ensures Tracked(s1, value, closed1).At(0) == Tracked(s2, value, closed2).At(0) == value
    ensures Tracked(s1, value, closed1).At(1) == Tracked(s2, value, closed2).At(1) == s1.Committed(0)
  {
  }

  ghost predicate DefaultHistories(m: SeriesMap) {
    forall k :: k in m ==> m[k].history == DEFAULT_HISTORY
  }
}
