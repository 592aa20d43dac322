/** The strategy object: a dictionary of named series, advanced by `track` on every decision. */
module StrategyObjects {
  import opened Prelude
  import opened Market
  import opened BarSeries
  import opened Indicators
  import opened Strategies

  function TrackTrend(m: SeriesMap, trend: Trend, isClosed: bool): SeriesMap {
    Track(Track(Track(m, TrendSide, trend.side as real, isClosed),
                ConsecutiveBars, trend.consecutive as real, isClosed),
          ConfirmedTrend, trend.confirmed as real, isClosed)
  }

  function TrackBounds(m: SeriesMap, candle: Candle): SeriesMap {
    Track(Track(m, Low, candle.low, candle.isClosed), High, candle.high, candle.isClosed)
  }

  lemma TrackTrendKeepsBounds(m: SeriesMap, trend: Trend, isClosed: bool)
    ensures SeriesOf(TrackTrend(m, trend, isClosed), Low) == SeriesOf(m, Low)
    ensures SeriesOf(TrackTrend(m, trend, isClosed), High) == SeriesOf(m, High)
  {
  }

  lemma TrackLast(m: SeriesMap, entries: seq<(Key, real)>, isClosed: bool)
    requires entries != []
    ensures var last := |entries| - 1;
      TrackAll(m, entries, isClosed)
      == Track(TrackAll(m, entries[..last], isClosed), entries[last].0, entries[last].1, isClosed)
  {
  }

  lemma TrackTwo(m: SeriesMap, entries: seq<(Key, real)>, isClosed: bool)
    requires |entries| == 2
    ensures TrackAll(m, entries, isClosed)
         == Track(Track(m, entries[0].0, entries[0].1, isClosed), entries[1].0, entries[1].1, isClosed)
  {
    TrackLast(m, entries, isClosed);
    TrackLast(m, entries[..1], isClosed);
    assert entries[..1][..0] == [];
  }

  lemma TrackFour(m: SeriesMap, entries: seq<(Key, real)>, isClosed: bool)
    requires |entries| == 4
    ensures TrackAll(m, entries, isClosed)
         == Track(Track(Track(Track(m, entries[0].0, entries[0].1, isClosed), entries[1].0, entries[1].1, isClosed),
                        entries[2].0, entries[2].1, isClosed), entries[3].0, entries[3].1, isClosed)
  {
    TrackLast(m, entries, isClosed);
    TrackLast(m, entries[..3], isClosed);
    assert entries[..3][..2] == entries[..2];
    TrackTwo(m, entries[..2], isClosed);
  }

  lemma TrackFive(m: SeriesMap, trend: Trend, candle: Candle)
    ensures TrackAll(m, TrendEntries(trend, candle), candle.isClosed)
         == TrackBounds(TrackTrend(m, trend, candle.isClosed), candle)
  {
    var entries := TrendEntries(trend, candle);
    TrackLast(m, entries, candle.isClosed);
    assert entries[..4][..3] == entries[..3] && entries[..3][..2] == entries[..2];
    TrackLast(m, entries[..4], candle.isClosed);
    TrackLast(m, entries[..3], candle.isClosed);
    TrackTwo(m, entries[..2], candle.isClosed);
  }

  class Strategy {
    const params: StrategyParams
    const stackedLevel: SeriesState
    var series: SeriesMap

    ghost predicate Valid() {
      stackedLevel == ConstantState(STACKED_LEVEL, DEFAULT_HISTORY)
    }

    constructor (params: StrategyParams)
      ensures Valid() && this.params == params && series == map[]
    {
      this.params, series := params, map[];
      stackedLevel := ConstantState(STACKED_LEVEL, DEFAULT_HISTORY);
    }

    /** `self.track(self.series(key), value, context)`; gives back the series as it now reads. */
    method Record(key: Key, value: real, isClosed: bool) returns (s: SeriesState)
      modifies this`series
      ensures series == Track(old(series), key, value, isClosed) && s == SeriesOf(series, key)
    {
      s := Tracked(SeriesOf(series, key), Some(value), isClosed);
      series := series[key := s];
    }

    method DecideCrossover(ctx: StrategyContext) returns (d: Decision)
      requires params.EmaCrossover? && HasReadings(params, ctx.indicators)
      modifies this`series
      ensures (series, d) == Strategies.DecideCrossover(params, old(series), ctx)
    {
      TrackTwo(series, EmaEntries(params, ctx), ctx.candle.isClosed);
      var fast := Record(EmaFast, ctx.indicators[EmaFast].value, ctx.candle.isClosed);
      var slow := Record(EmaSlow, ctx.indicators[EmaSlow].value, ctx.candle.isClosed);
      d := CrossDecision(fast, slow, params.name + " crossed above", params.name + " crossed below");
    }

    method DecideMultiEma(ctx: StrategyContext) returns (d: Decision)
      requires Valid() && params.MultiEma? && HasReadings(params, ctx.indicators)
      modifies this`series
      ensures (series, d) == Strategies.DecideMultiEma(params, old(series), ctx)
    {
      TrackFour(series, EmaEntries(params, ctx), ctx.candle.isClosed);
      var fast := Record(EmaFast, ctx.indicators[EmaFast].value, ctx.candle.isClosed);
      var midFast := Record(EmaMidFast, ctx.indicators[EmaMidFast].value, ctx.candle.isClosed);
      var midSlow := Record(EmaMidSlow, ctx.indicators[EmaMidSlow].value, ctx.candle.isClosed);
      var slow := Record(EmaSlow, ctx.indicators[EmaSlow].value, ctx.candle.isClosed);
      assert series == TrackAll(old(series), EmaEntries(params, ctx), ctx.candle.isClosed);
      var isStacked := IsAbove(fast, midFast) && IsAbove(midFast, midSlow) && IsAbove(midSlow, slow);
      assert isStacked == IsStacked(series);
      var stacked := Record(Stacked, if isStacked then 1.0 else 0.0, ctx.candle.isClosed);
      d := CrossDecision(stacked, stackedLevel, params.name + " fully stacked", params.name + " stacking broken");
    }

    method UpdateTrendConfirmation(touches: bool, close: real, emaLong: real, isClosed: bool) returns (trend: Trend)
      requires params.TrendPullback?
      modifies this`series
      ensures trend == NextTrend(params, CommittedTrend(old(series)), touches, close, emaLong)
      ensures series == TrackTrend(old(series), trend, isClosed)
    {
      trend := NextTrend(params, CommittedTrend(series), touches, close, emaLong);
      var _ := Record(TrendSide, trend.side as real, isClosed);
      var _ := Record(ConsecutiveBars, trend.consecutive as real, isClosed);
      var _ := Record(ConfirmedTrend, trend.confirmed as real, isClosed);
    }

    /** Reads the previous bar's low and high before recording this bar's. */
    method EntryConfirmation(ctx: StrategyContext, emaEntry: real) returns (confirmation: (bool, bool))
      requires params.TrendPullback?
      modifies this`series
      ensures confirmation == Strategies.EntryConfirmation(params, SeriesOf(old(series), Low).Committed(0),
                                SeriesOf(old(series), High).Committed(0), ctx.candle.close, emaEntry)
      ensures series == TrackBounds(old(series), ctx.candle)
    {
      var prevLow, prevHigh := SeriesOf(series, Low).Committed(0), SeriesOf(series, High).Committed(0);
      var _ := Record(Low, ctx.candle.low, ctx.candle.isClosed);
      var _ := Record(High, ctx.candle.high, ctx.candle.isClosed);
      confirmation := Strategies.EntryConfirmation(params, prevLow, prevHigh, ctx.candle.close, emaEntry);
    }

    method DecidePullback(ctx: StrategyContext) returns (d: Decision)
      requires params.TrendPullback? && HasReadings(params, ctx.indicators)
      modifies this`series
      ensures (series, d) == Strategies.DecidePullback(params, old(series), ctx)
    {
      var candle, emaLong, emaEntry := ctx.candle, ctx.indicators[EmaLong].value, ctx.indicators[EmaEntry].value;
      var touches := Touches(params, candle.low, candle.high, emaLong);
      ghost var start := series;
      var trend := UpdateTrendConfirmation(touches, candle.close, emaLong, candle.isClosed);
      TrackTrendKeepsBounds(start, trend, candle.isClosed);
      var confirmation := EntryConfirmation(ctx, emaEntry);
      TrackFive(start, trend, candle);
      d := PullbackDecision(params, trend.confirmed, touches, confirmation, candle.low, candle.high, candle.close,
                            emaEntry, ctx.side);
    }

    /** `evaluate`, dispatching to the concrete strategy's `decide`. */
    method Evaluate(ctx: StrategyContext) returns (signal: Signal)
      requires Valid() && HasReadings(params, ctx.indicators)
      modifies this`series
      ensures series == Decide(params, old(series), ctx).0
      ensures signal == SignalFor(ctx, Decide(params, old(series), ctx).1)
    {
      var decision;
      match params {
        case EmaCrossover(_) => decision := DecideCrossover(ctx);
        case MultiEma(_) => decision := DecideMultiEma(ctx);
        case TrendPullback(_, _, _, _, _, _) => decision := DecidePullback(ctx);
      }
      signal := SignalFor(ctx, decision);
    }
  }
}
