/** How far a forming tick predicts its close, the first evaluated bar included. */
module FirstBar {
  import opened Prelude
  import opened Market
  import opened BarSeries
  import opened Indicators
  import opened IndicatorRanges
  import opened Strategies
  import opened StrategyProofs
  import opened Engine
  import opened EngineReadings
  import opened ClosedRuns
  import opened TrendConfirmation
  import opened MultiEmaSignals
  import opened RunSignals
  import opened HistorySignals

  /** The forming tick's signal is the one its candle gives once closed, with the final prices and the same side. */
  ghost predicate Predicts(e: EngineState, events: seq<Event>, candle: Candle, side: Option<PositionSide>)
    requires Wired(e.params, e.indicators)
  {
    var now := Run(e, events);
    OnFormingBarTick(now, candle, side).Success?
    && OnFormingBarTick(now, candle, side).value.1
       == OnTick(Step(now, Forming(candle, side)), candle.(isClosed := true), side).1
  }

  // ---------------------------------------------------------------- nothing is recorded before the first evaluation

  lemma NotForecast(e: EngineState, candle: Candle, side: Option<PositionSide>)
    requires Wired(e.params, e.indicators) && Collect(Peeks(e.indicators, candle.close)).None?
    ensures Step(e, Forming(candle, side)) == e
    ensures !candle.isClosed ==> OnFormingBarTick(e, candle, side) == Success((e, None))
  {
  }

  /** Until some closed bar is evaluated no strategy ran, so no series exists. */
  lemma {:induction false} NoSeriesBeforeEvaluation(e: EngineState, events: seq<Event>)
    requires AsBuilt(e) && Ticks(events) < MaxWarmUp(e.indicators)
    ensures Run(e, events).series == map[]
  {
    if events != [] {
      var before, last := events[..|events| - 1], events[|events| - 1];
      NoSeriesBeforeEvaluation(e, before);
      if last.Tick? {
        EngineWarmUpIsTheMaximum(e, before, last.candle);
        NotEvaluated(Run(e, before), last.candle, last.side);
      } else {
        FormingIsReadyOneBarLater(e, before, last.candle.close);
        NotForecast(Run(e, before), last.candle, last.side);
      }
      hide Decide, Collect, Updates, Peeks, MaxWarmUp;
    }
  }

  // ---------------------------------------------------------------- the one bar a forming tick cannot see

  /** The bar whose close completes the slowest warm-up: the first one the strategy decides on. */
  ghost predicate IsFirstEvaluated(e: EngineState, events: seq<Event>) {
    Ticks(events) + 1 == MaxWarmUp(e.indicators)
  }

  lemma RunParams(e: EngineState, events: seq<Event>)
    requires AsBuilt(e)
    ensures Wired(Run(e, events).params, Run(e, events).indicators)
  {
  }

  /**
   * On every other bar the forming tick predicts its close; on that one it is silent, so right exactly if the
   * close is.
   */
  lemma PredictsExceptFirstBar(e: EngineState, events: seq<Event>, candle: Candle, side: Option<PositionSide>)
    requires AsBuilt(e) && !candle.isClosed
    ensures var closedBar := candle.(isClosed := true);
      Predicts(e, events, candle, side)
      <==> IsFirstEvaluated(e, events) ==> OnTick(Run(e, events), closedBar, side).1 == None
  {
    var closedBar := candle.(isClosed := true);
    FormingIsReadyOneBarLater(e, events, candle.close);
    EngineWarmUpIsTheMaximum(e, events, closedBar);
    RunParams(e, events);
    hide Run, MaxWarmUp, Collect, Updates, Peeks, OnTick, OnFormingBarTick, Step;
    if Collect(Peeks(Run(e, events).indicators, candle.close)).Some? {
      LastFormingTickPredictsClose(e, events, candle, side);
    } else {
      NotForecast(Run(e, events), candle, side);
      if !IsFirstEvaluated(e, events) {
        NotEvaluated(Run(e, events), closedBar, side);
      }
    }
  }

  /** What the strategy decides on its first bar, with no series behind it. */
  lemma FirstDecision(e: EngineState, events: seq<Event>, candle: Candle, side: Option<PositionSide>)
    returns (ctx: StrategyContext)
    requires AsBuilt(e) && IsFirstEvaluated(e, events)
    ensures HasReadings(e.params, ctx.indicators)
    ensures ContextOf(e, candle, side, Closes(events) + [candle.close], ctx)
    ensures OnTick(Run(e, events), candle, side).1 == Emitted(SignalFor(ctx, Decide(e.params, map[], ctx).1))
  {
    EngineWarmUpIsTheMaximum(e, events, candle);
    NoSeriesBeforeEvaluation(e, events);
    SameParams(e, events);
    ReadingsOfTick(e, events, candle, side);
    TickEvaluates(Run(e, events), candle, side);
    ctx := StrategyContext(candle, Collect(Updates(Run(e, events).indicators, candle.close)).value, side);
    hide Run, Collect, Updates, OnTick, Decide, Emitted, SignalFor, ContextOf;
  }

  /** The crossover and the stack need a bar before, so their first bar holds: every forming tick predicts its close. */
  lemma CrossesArePredictedAlways(e: EngineState, events: seq<Event>, candle: Candle, side: Option<PositionSide>)
    requires AsBuilt(e) && !candle.isClosed && !e.params.TrendPullback?
    ensures Predicts(e, events, candle, side)
  {
    hide Predicts, OnTick, Run, ContextOf, MaxWarmUp;
    var closedBar := candle.(isClosed := true);
    PredictsExceptFirstBar(e, events, candle, side);
    if IsFirstEvaluated(e, events) {
      var ctx := FirstDecision(e, events, closedBar, side);
      assert ctx.candle == closedBar by { ContextIsBar(e, closedBar, side, Closes(events) + [candle.close], ctx); }
      if e.params.EmaCrossover? {
        CrossoverBar(e.params, map[], ctx);
      } else {
        OneBar(e.params, map[], ctx);
      }
      hide Decide;
    }
  }

  // ---------------------------------------------------------------- the pullback's first bar

  /** Its first bar already acts: a threshold of one close lets it enter, or a touch exits the side held. */
  ghost predicate FirstBarActs(params: StrategyParams, candle: Candle, emaLong: real, emaEntry: real,
                               side: Option<PositionSide>)
    requires params.TrendPullback?
  {
    var touches := MeetsBand(candle, emaLong, params.touchSensitivity);
    var confirms := params.tickConfirm <= 1 && !(touches && params.enableTouchReset) && !params.candleConfirmEntry;
    || (confirms && candle.close > emaLong && candle.close > emaEntry
        && AtMostAbove(candle.low, emaEntry, params.pullbackSensitivity))
    || (confirms && candle.close < emaLong && candle.close < emaEntry
        && AtMostBelow(candle.high, emaEntry, params.pullbackSensitivity))
    || (params.enableTouchExit && touches && side.Some?)
  }

  /** The trend one bar confirms on its own. */
  lemma FirstTrend(params: StrategyParams, ctx: StrategyContext)
    requires params.TrendPullback? && HasReadings(params, ctx.indicators)
    ensures var long := Reading(ctx, EmaLong);
      var alone := params.tickConfirm <= 1
                     && !(MeetsBand(ctx.candle, long, params.touchSensitivity) && params.enableTouchReset);
      && (TrendAfter(params, map[], ctx).confirmed == TREND_UP <==> alone && ctx.candle.close > long)
      && (TrendAfter(params, map[], ctx).confirmed == TREND_DOWN <==> alone && ctx.candle.close < long)
  {
    hide Touches, MeetsBand;
    TouchMeetsBand(params, ctx.candle, Reading(ctx, EmaLong));
    assert CommittedTrend(map[]) == Trend(TREND_FLAT, 0, TREND_FLAT);
  }

  lemma FirstPullback(params: StrategyParams, ctx: StrategyContext)
    requires params.TrendPullback? && HasReadings(params, ctx.indicators)
    ensures Decide(params, map[], ctx).1.action != Hold
       <==> FirstBarActs(params, ctx.candle, Reading(ctx, EmaLong), Reading(ctx, EmaEntry), ctx.side)
  {
    assert SeriesOf(map[], Low).Committed(0) == None && SeriesOf(map[], High).Committed(0) == None;
    hide MeetsBand, AtMostAbove, AtMostBelow, Decide, TrendAfter;
    FirstTrend(params, ctx);
    PullbackBar(params, map[], ctx);
    if ctx.side.Some? {
      assert ctx.side.value.Long? || ctx.side.value.Short?;
      assert ctx.side == Some(ctx.side.value);
    }
  }

  lemma SameFirstBar(params: StrategyParams, candle: Candle, emaLong: real, emaEntry: real, side: Option<PositionSide>)
    requires params.TrendPullback?
    ensures FirstBarActs(params, candle.(isClosed := true), emaLong, emaEntry, side)
       <==> FirstBarActs(params, candle, emaLong, emaEntry, side)
  {
  }

  /**
   * The pullback strategy's forming tick predicts its close on every bar but its first evaluated one, and there
   * exactly when that bar would not act.
   */
  lemma PullbackIsPredicted(e: EngineState, events: seq<Event>, candle: Candle, side: Option<PositionSide>)
    requires AsBuilt(e) && !candle.isClosed && e.params.TrendPullback?
    ensures var now := Closes(events) + [candle.close];
      var long, entry := EmaOver(e, EmaLong, now), EmaOver(e, EmaEntry, now);
      Predicts(e, events, candle, side)
      <==> !(IsFirstEvaluated(e, events) && long.Some? && entry.Some?
             && FirstBarActs(e.params, candle, long.value, entry.value, side))
  {
    hide Predicts, OnTick, Run, ContextOf, MaxWarmUp, EmaOver, Closes;
    var closedBar := candle.(isClosed := true);
    PredictsExceptFirstBar(e, events, candle, side);
    if IsFirstEvaluated(e, events) {
      var now := Closes(events) + [candle.close];
      var ctx := FirstDecision(e, events, closedBar, side);
      ContextIsBar(e, closedBar, side, now, ctx);
      ContextReads(e, closedBar, side, now, ctx, EmaLong);
      ContextReads(e, closedBar, side, now, ctx, EmaEntry);
      FirstPullback(e.params, ctx);
      SameFirstBar(e.params, candle, Reading(ctx, EmaLong), Reading(ctx, EmaEntry), side);
      EmittedActs(ctx, Decide(e.params, map[], ctx).1, Buy);
      hide Decide, FirstBarActs;
    }
  }

  /** Its first bar already enters: a threshold of one close, and a dip back across the entry EMA. */
  ghost predicate FirstBarEnters(params: StrategyParams, candle: Candle, emaLong: real, emaEntry: real)
    requires params.TrendPullback?
  {
    FirstBarActs(params, candle, emaLong, emaEntry, None)
  }

  lemma FirstBarReads(e: EngineState, events: seq<Event>, candle: Candle)
    requires AsBuilt(e) && e.params.TrendPullback? && IsFirstEvaluated(e, events)
    ensures EmaOver(e, EmaLong, Closes(events) + [candle.close]).Some?
    ensures EmaOver(e, EmaEntry, Closes(events) + [candle.close]).Some?
  {
    hide OnTick, Run, MaxWarmUp, EmaOver, Closes;
    var ctx := FirstDecision(e, events, candle, None);
    ContextReads(e, candle, None, Closes(events) + [candle.close], ctx, EmaLong);
    ContextReads(e, candle, None, Closes(events) + [candle.close], ctx, EmaEntry);
  }

  /**
   * Before its first evaluated bar an engine signals nothing, closed or forming, so nothing can be held then:
   * the forming ticks of that bar miss its close exactly when it enters.
   */
  lemma FirstBarIsMissedWhenItEnters(e: EngineState, events: seq<Event>, candle: Candle)
    requires AsBuilt(e) && !candle.isClosed && e.params.TrendPullback? && IsFirstEvaluated(e, events)
    ensures var now := Closes(events) + [candle.close];
      var long, entry := EmaOver(e, EmaLong, now), EmaOver(e, EmaEntry, now);
      && long.Some? && entry.Some?
      && (Predicts(e, events, candle, None) <==> !FirstBarEnters(e.params, candle, long.value, entry.value))
    ensures OnFormingBarTick(Run(e, events), candle, None).Success?
    ensures OnFormingBarTick(Run(e, events), candle, None).value.1 == None
  {
    hide Predicts, OnTick, Run, ContextOf, MaxWarmUp, EmaOver, Closes, FirstBarActs;
    PullbackIsPredicted(e, events, candle, None);
    FirstBarReads(e, events, candle);
    FormingIsReadyOneBarLater(e, events, candle.close);
    NotForecast(Run(e, events), candle, None);
  }

  // ---------------------------------------------------------------- a bar that is missed

  /** What the pullback strategy's declared inputs allow. */
  predicate DeclaredInputs(params: StrategyParams, longPeriod: int, entryPeriod: int) {
    && params.TrendPullback? && 1 <= params.tickConfirm <= 20 && 0.0 <= params.touchSensitivity <= 5.0
    && 0.1 <= params.pullbackSensitivity <= 3.0 && 10 <= longPeriod <= 500 && 10 <= entryPeriod <= 500
  }

  function FlatBar(): Candle {
    Candle("BTCUSDT", 0, 100.0, 100.0, 100.0, 100.0, 59, true)
  }

  function FlatBars(n: nat): seq<Event> {
    if n == 0 then [] else FlatBars(n - 1) + [Tick(FlatBar(), None)]
  }

  lemma {:induction false} FlatCloses(n: nat)
    ensures |Closes(FlatBars(n))| == n == Ticks(FlatBars(n)) && Sum(Closes(FlatBars(n))) == 100.0 * n as real
  {
    if n > 0 {
      var before := FlatBars(n - 1);
      FlatCloses(n - 1);
      assert FlatBars(n)[..|FlatBars(n)| - 1] == before;
      assert Closes(FlatBars(n)) == Closes(before) + [100.0];
      assert (Closes(before) + [100.0])[..|Closes(before)|] == Closes(before);
    }
  }

  /** The seed of ten closes, nine of them 100 and the last 110. */
  lemma SeedMean(s: EmaState)
    requires s.period == 10 && s.seed == [] && s.ema.None?
    ensures EmaFeed(s, Closes(FlatBars(9)) + [110.0]).ema == Some(101.0)
  {
    FlatCloses(9);
    var xs := Closes(FlatBars(9));
    assert (xs + [110.0])[..9] == xs;
    hide FlatBars, Closes;
    SeedCompletes(s, xs + [110.0]);
  }

  lemma TenBarEngine(e: EngineState, s: EmaState)
    requires e.params.TrendPullback? && e.series == map[] && NewEma(10, None) == Success(s)
    requires e.indicators == [Named(EmaLong, Ema(s)), Named(EmaEntry, Ema(s))]
    ensures AsBuilt(e) && MaxWarmUp(e.indicators) == 10
    ensures EmaNamed(e, EmaLong) == s && EmaNamed(e, EmaEntry) == s
  {
    var inds := e.indicators;
    assert HasEma(inds, EmaLong) by { assert inds[0].name == EmaLong; }
    assert HasEma(inds, EmaEntry) by { assert inds[1].name == EmaEntry; }
    assert forall i :: 0 <= i < |inds| ==> WarmUp(inds[i].state) == 10;
    MaxWarmUpBounds(inds, 9);
    MaxWarmUpBounds(inds, 10);
    assert WarmUp(inds[0].state) == 10;
  }

  lemma FirstBarMissesHere(params: StrategyParams, s: EmaState, candle: Candle, e: EngineState)
    requires params == TrendPullback(1, 0.0, false, true, 0.2, false) && NewEma(10, None) == Success(s)
    requires candle == Candle("BTCUSDT", 540, 100.0, 110.0, 100.0, 110.0, 599, false)
    requires e == EngineState(params, [Named(EmaLong, Ema(s)), Named(EmaEntry, Ema(s))], map[])
    ensures AsBuilt(e) && !Predicts(e, FlatBars(9), candle, None)
  {
    TenBarEngine(e, s);
    SeedMean(s);
    FlatCloses(9);
    assert FirstBarEnters(params, candle, 101.0, 101.0);
    hide FirstBarEnters, Predicts, FlatBars, Closes, AsBuilt, MaxWarmUp, Run, EmaNamed, EmaFeed;
    FirstBarIsMissedWhenItEnters(e, FlatBars(9), candle);
  }

  /**
   * A bar the pullback strategy's forming ticks miss, with declared inputs and no position: after nine flat bars
   * at 100 the tenth dips to 100 and closes at 110. Closed, it buys; forming with the same prices, it is silent.
   */
  lemma FirstBarMisses()
    ensures var params := TrendPullback(1, 0.0, false, true, 0.2, false);
      var ema := NewEma(10, None);
      var candle := Candle("BTCUSDT", 540, 100.0, 110.0, 100.0, 110.0, 599, false);
      && DeclaredInputs(params, 10, 10) && ema.Success?
      && var e := EngineState(params, [Named(EmaLong, Ema(ema.value)), Named(EmaEntry, Ema(ema.value))], map[]);
         AsBuilt(e) && !Predicts(e, FlatBars(9), candle, None)
  {
    var params := TrendPullback(1, 0.0, false, true, 0.2, false);
    var s := NewEma(10, None).value;
    var candle := Candle("BTCUSDT", 540, 100.0, 110.0, 100.0, 110.0, 599, false);
    var e := EngineState(params, [Named(EmaLong, Ema(s)), Named(EmaEntry, Ema(s))], map[]);
    hide *;
    FirstBarMissesHere(params, s, candle, e);
  }
}
