/** The engine as a state machine: closed bars commit, forming bars only look. */
module Engine {
  import opened Prelude
  import opened Market
  import opened BarSeries
  import opened Indicators
  import opened Strategies
  import opened StrategyProofs

  datatype NamedIndicator = Named(name: Key, state: IndicatorState)

  datatype EngineState = EngineState(params: StrategyParams, indicators: seq<NamedIndicator>, series: SeriesMap)

  /** The readings by name, or None as soon as one indicator has none. */
  function Collect(entries: seq<(Key, Option<IndicatorValue>)>): Option<Readings> {
    if entries == [] then Some(map[])
    else
      var rest, (name, reading) := Collect(entries[..|entries| - 1]), entries[|entries| - 1];
      if rest.None? || reading.None? then None else Some(rest.value[name := reading.value])
  }

  function NextIndicators(inds: seq<NamedIndicator>, close: real): (next: seq<NamedIndicator>)
    ensures |next| == |inds|
  {
    seq(|inds|, i requires 0 <= i < |inds| => Named(inds[i].name, Update(inds[i].state, close).0))
  }

  function Updates(inds: seq<NamedIndicator>, close: real): seq<(Key, Option<IndicatorValue>)> {
    seq(|inds|, i requires 0 <= i < |inds| => (inds[i].name, Update(inds[i].state, close).1))
  }

  function Peeks(inds: seq<NamedIndicator>, close: real): seq<(Key, Option<IndicatorValue>)> {
    seq(|inds|, i requires 0 <= i < |inds| => (inds[i].name, Peek(inds[i].state, close)))
  }

  ghost predicate HasEma(inds: seq<NamedIndicator>, k: Key) {
    exists i :: 0 <= i < |inds| && inds[i].name == k && inds[i].state.Ema?
  }

  /** The engine owns what `build_indicators` describes: one plain EMA per key the strategy reads. */
  ghost predicate Wired(params: StrategyParams, inds: seq<NamedIndicator>) {
    && (forall i, j :: 0 <= i < j < |inds| ==> inds[i].name != inds[j].name)
    && (forall k :: k in Keys(params) ==> HasEma(inds, k))
  }

  lemma {:induction false} CollectHolds(entries: seq<(Key, Option<IndicatorValue>)>, i: nat)
    requires i < |entries| && Collect(entries).Some?
    requires forall a, b :: 0 <= a < b < |entries| ==> entries[a].0 != entries[b].0
    ensures entries[i].1.Some?
    ensures entries[i].0 in Collect(entries).value && Collect(entries).value[entries[i].0] == entries[i].1.value
  {
    if i < |entries| - 1 {
      CollectHolds(entries[..|entries| - 1], i);
    }
  }

  lemma {:induction false} CollectIsAll(entries: seq<(Key, Option<IndicatorValue>)>)
    ensures Collect(entries).Some? <==> forall i :: 0 <= i < |entries| ==> entries[i].1.Some?
  {
    if entries != [] {
      CollectIsAll(entries[..|entries| - 1]);
      assert forall i :: 0 <= i < |entries| - 1 ==> entries[i] == entries[..|entries| - 1][i];
    }
  }

  lemma ReadingsServe(params: StrategyParams, inds: seq<NamedIndicator>, entries: seq<(Key, Option<IndicatorValue>)>)
    requires Wired(params, inds) && |entries| == |inds| && Collect(entries).Some?
    requires forall i :: 0 <= i < |inds| ==> entries[i].0 == inds[i].name
    requires forall i :: 0 <= i < |inds| && inds[i].state.Ema? && entries[i].1.Some? ==> entries[i].1.value.Scalar?
    ensures HasReadings(params, Collect(entries).value)
  {
    forall k | k in Keys(params)
      ensures k in Collect(entries).value && Collect(entries).value[k].Scalar?
    {
      assert HasEma(inds, k);
      var i :| 0 <= i < |inds| && inds[i].name == k && inds[i].state.Ema?;
      CollectHolds(entries, i);
    }
  }

  function Emitted(signal: Signal): Option<Signal> {
    if signal.action == Hold then None else Some(signal)
  }

  function Evaluate(e: EngineState, inds: seq<NamedIndicator>, ctx: StrategyContext): (EngineState, Option<Signal>)
    requires HasReadings(e.params, ctx.indicators)
  {
    var (series, decision) := Decide(e.params, e.series, ctx);
    (EngineState(e.params, inds, series), Emitted(SignalFor(ctx, decision)))
  }

  function OnTick(e: EngineState, candle: Candle, side: Option<PositionSide>): (EngineState, Option<Signal>)
    requires Wired(e.params, e.indicators)
  {
    var readings := Collect(Updates(e.indicators, candle.close));
    var inds := NextIndicators(e.indicators, candle.close);
    if readings.None? then (e.(indicators := inds), None)
    else
      ReadingsServe(e.params, e.indicators, Updates(e.indicators, candle.close));
      Evaluate(e, inds, StrategyContext(candle, readings.value, side))
  }

  function OnFormingBarTick(e: EngineState, candle: Candle, side: Option<PositionSide>)
    : Result<(EngineState, Option<Signal>)>
    requires Wired(e.params, e.indicators)
  {
    if candle.isClosed then Failure("ValueError")
    else
      var readings := Collect(Peeks(e.indicators, candle.close));
      if readings.None? then Success((e, None))
      else
        ReadingsServe(e.params, e.indicators, Peeks(e.indicators, candle.close));
        Success(Evaluate(e, e.indicators, StrategyContext(candle, readings.value, side)))
  }

  // ---------------------------------------------------------------- runs

  /** A signal is about its candle: that symbol, that close, that close time, and something to do. */
  ghost predicate OfCandle(signal: Option<Signal>, candle: Candle) {
    signal.Some? ==>
      && signal.value.symbol == candle.symbol && signal.value.price == candle.close
      && signal.value.time == candle.closeTime && signal.value.action != Hold
  }

  /** Whatever the engine returns, for a closed bar or a forming one, is about the candle it was given. */
  lemma SignalsAreOfTheirCandle(e: EngineState, candle: Candle, side: Option<PositionSide>)
    requires Wired(e.params, e.indicators)
    ensures OfCandle(OnTick(e, candle, side).1, candle)
    ensures OnFormingBarTick(e, candle, side).Success? ==>
              OfCandle(OnFormingBarTick(e, candle, side).value.1, candle)
  {
    hide Decide, Collect, Updates, Peeks, NextIndicators;
  }

  /** A forming tick leaves the indicators alone, and its tentative readings in front of the closed ones. */
  lemma FormingShowsItsPeeks(e: EngineState, candle: Candle, side: Option<PositionSide>)
    requires Wired(e.params, e.indicators) && DefaultHistories(e.series) && !candle.isClosed
    requires Collect(Peeks(e.indicators, candle.close)).Some?
    ensures var after, peeks := OnFormingBarTick(e, candle, side).value.0,
                                Collect(Peeks(e.indicators, candle.close)).value;
      && after.indicators == e.indicators && HasReadings(e.params, peeks)
      && (!e.params.TrendPullback? ==>
            forall k :: k in Keys(e.params) ==> Shows(after.series, e.series, k, peeks[k].value))
      && (e.params.TrendPullback? ==>
            Shows(after.series, e.series, Low, candle.low) && Shows(after.series, e.series, High, candle.high))
  {
    hide Decide, Collect, Shows;
    ReadingsServe(e.params, e.indicators, Peeks(e.indicators, candle.close));
    SeriesShowTheBar(e.params, e.series,
                     StrategyContext(candle, Collect(Peeks(e.indicators, candle.close)).value, side));
  }

  datatype Event =
    | Tick(candle: Candle, side: Option<PositionSide>)
    | Forming(candle: Candle, side: Option<PositionSide>)

  lemma StaysWired(params: StrategyParams, inds: seq<NamedIndicator>, close: real)
    requires Wired(params, inds)
    ensures Wired(params, NextIndicators(inds, close))
  {
    var next := NextIndicators(inds, close);
    forall k | k in Keys(params) ensures HasEma(next, k) {
      assert HasEma(inds, k);
      var i :| 0 <= i < |inds| && inds[i].name == k && inds[i].state.Ema?;
      assert next[i].name == k && next[i].state.Ema?;
    }
  }

  /** A forming tick that raises leaves the engine as it was. */
  function Step(e: EngineState, event: Event): (after: EngineState)
    requires Wired(e.params, e.indicators)
    ensures Wired(after.params, after.indicators)
  {
    match event
    case Tick(candle, side) =>
      StaysWired(e.params, e.indicators, candle.close);
      OnTick(e, candle, side).0
    case Forming(candle, side) =>
      var r := OnFormingBarTick(e, candle, side);
      if r.Failure? then e else r.value.0
  }

  function Run(e: EngineState, events: seq<Event>): (after: EngineState)
    requires Wired(e.params, e.indicators)
    ensures Wired(after.params, after.indicators)
  {
    if events == [] then e else Step(Run(e, events[..|events| - 1]), events[|events| - 1])
  }

  /** What `on_tick` returned, call by call. */
  function ClosedSignals(e: EngineState, events: seq<Event>): seq<Option<Signal>>
    requires Wired(e.params, e.indicators)
  {
    if events == [] then []
    else
      var before, last := events[..|events| - 1], events[|events| - 1];
      if last.Forming? then ClosedSignals(e, before)
      else ClosedSignals(e, before) + [OnTick(Run(e, before), last.candle, last.side).1]
  }

  function ClosedOnly(events: seq<Event>): seq<Event> {
    if events == [] then []
    else
      var before, last := events[..|events| - 1], events[|events| - 1];
      ClosedOnly(before) + if last.Forming? then [] else [last]
  }

  /** Everything a closed bar ever committed is the same on both sides. */
  ghost predicate SameEngine(e1: EngineState, e2: EngineState) {
    && e1.params == e2.params && e1.indicators == e2.indicators && SameCommitted(e1.series, e2.series)
    && DefaultHistories(e1.series) && DefaultHistories(e2.series)
  }

  lemma EvaluateAlike(e1: EngineState, e2: EngineState, inds: seq<NamedIndicator>, ctx: StrategyContext)
    requires SameEngine(e1, e2) && HasReadings(e1.params, ctx.indicators)
    ensures SameEngine(Evaluate(e1, inds, ctx).0, Evaluate(e2, inds, ctx).0)
    ensures Evaluate(e1, inds, ctx).1 == Evaluate(e2, inds, ctx).1
    ensures !ctx.candle.isClosed ==> SameCommitted(e1.series, Evaluate(e1, inds, ctx).0.series)
  {
    DecisionReadsCommittedHistory(e1.params, e1.series, e2.series, ctx, ctx.candle.isClosed);
    assert WithClosed(ctx, ctx.candle.isClosed) == ctx;
  }

  lemma TickAlike(e1: EngineState, e2: EngineState, candle: Candle, side: Option<PositionSide>)
    requires SameEngine(e1, e2) && Wired(e1.params, e1.indicators)
    ensures OnTick(e1, candle, side).1 == OnTick(e2, candle, side).1
    ensures SameEngine(OnTick(e1, candle, side).0, OnTick(e2, candle, side).0)
  {
    var updates := Updates(e1.indicators, candle.close);
    if Collect(updates).Some? {
      ReadingsServe(e1.params, e1.indicators, updates);
      EvaluateAlike(e1, e2, NextIndicators(e1.indicators, candle.close),
                    StrategyContext(candle, Collect(updates).value, side));
    }
  }

  lemma FormingLeavesNoTrace(e: EngineState, candle: Candle, side: Option<PositionSide>)
    requires Wired(e.params, e.indicators) && DefaultHistories(e.series)
    ensures SameEngine(e, Step(e, Forming(candle, side)))
  {
    var peeks := Peeks(e.indicators, candle.close);
    if !candle.isClosed && Collect(peeks).Some? {
      ReadingsServe(e.params, e.indicators, peeks);
      EvaluateAlike(e, e, e.indicators, StrategyContext(candle, Collect(peeks).value, side));
    }
  }

  /**
   * Forming ticks are transparent: deleting every one of them changes no signal `on_tick` ever
   * returned and nothing the indicators or the series committed.
   */
  lemma {:induction false} FormingTicksAreTransparent(e: EngineState, events: seq<Event>)
    requires Wired(e.params, e.indicators) && DefaultHistories(e.series)
    ensures SameEngine(Run(e, events), Run(e, ClosedOnly(events)))
    ensures ClosedSignals(e, events) == ClosedSignals(e, ClosedOnly(events))
  {
    if events != [] {
      var before, last := events[..|events| - 1], events[|events| - 1];
      FormingTicksAreTransparent(e, before);
      var with, without := Run(e, before), Run(e, ClosedOnly(before));
      if last.Forming? {
        assert ClosedOnly(events) == ClosedOnly(before);
        FormingLeavesNoTrace(with, last.candle, last.side);
      } else {
        var closed := ClosedOnly(events);
        assert closed[..|closed| - 1] == ClosedOnly(before) && closed[|closed| - 1] == last;
        TickAlike(with, without, last.candle, last.side);
      }
    }
  }

  // ---------------------------------------------------------------- warm-up

  /** Every indicator has been fed `n` closes. */
  ghost predicate AllFed(inds: seq<NamedIndicator>, n: nat) {
    forall i :: 0 <= i < |inds| ==> Fed(inds[i].state, n)
  }

  /** An engine as `build_engine` leaves it: unfed EMAs, one per key the strategy reads, and no series yet. */
  ghost predicate AsBuilt(e: EngineState) {
    && Wired(e.params, e.indicators) && AllFed(e.indicators, 0) && e.series == map[]
    && forall i :: 0 <= i < |e.indicators| ==> e.indicators[i].state.Ema?
  }

  function MaxWarmUp(inds: seq<NamedIndicator>): nat {
    if inds == [] then 0
    else
      var rest, last := MaxWarmUp(inds[..|inds| - 1]), WarmUp(inds[|inds| - 1].state);
      if last > rest then last else rest
  }

  lemma {:induction false} MaxWarmUpBounds(inds: seq<NamedIndicator>, n: nat)
    ensures n >= MaxWarmUp(inds) <==> forall i :: 0 <= i < |inds| ==> n >= WarmUp(inds[i].state)
  {
    if inds != [] {
      MaxWarmUpBounds(inds[..|inds| - 1], n);
      assert forall i :: 0 <= i < |inds| - 1 ==> inds[i] == inds[..|inds| - 1][i];
    }
  }

  lemma {:induction false} MaxWarmUpOfNext(inds: seq<NamedIndicator>, next: seq<NamedIndicator>)
    requires |next| == |inds| && forall i :: 0 <= i < |inds| ==> WarmUp(next[i].state) == WarmUp(inds[i].state)
    ensures MaxWarmUp(next) == MaxWarmUp(inds)
  {
    if inds != [] {
      MaxWarmUpOfNext(inds[..|inds| - 1], next[..|inds| - 1]);
    }
  }

  lemma TickFeedsAll(inds: seq<NamedIndicator>, n: nat, close: real)
    requires AllFed(inds, n)
    ensures AllFed(NextIndicators(inds, close), n + 1)
    ensures MaxWarmUp(NextIndicators(inds, close)) == MaxWarmUp(inds)
    ensures Collect(Updates(inds, close)).Some? <==> n + 1 >= MaxWarmUp(inds)
  {
    var next := NextIndicators(inds, close);
    forall i | 0 <= i < |inds|
      ensures Fed(next[i].state, n + 1) && WarmUp(next[i].state) == WarmUp(inds[i].state)
      ensures Updates(inds, close)[i].1.Some? <==> n + 1 >= WarmUp(inds[i].state)
    {
      OneUpdate(inds[i].state, n, close);
    }
    MaxWarmUpOfNext(inds, next);
    MaxWarmUpBounds(inds, n + 1);
    CollectIsAll(Updates(inds, close));
  }

  function Ticks(events: seq<Event>): nat {
    |ClosedOnly(events)|
  }

  lemma StepIndicators(e: EngineState, event: Event)
    requires Wired(e.params, e.indicators)
    ensures Step(e, event).indicators
         == if event.Tick? then NextIndicators(e.indicators, event.candle.close) else e.indicators
  {
  }

  lemma {:induction false} RunFeedsAll(e: EngineState, events: seq<Event>)
    requires Wired(e.params, e.indicators) && AllFed(e.indicators, 0)
    ensures AllFed(Run(e, events).indicators, Ticks(events))
    ensures MaxWarmUp(Run(e, events).indicators) == MaxWarmUp(e.indicators)
  {
    hide Decide, NextIndicators, AllFed, MaxWarmUp;
    if events != [] {
      var before, last := events[..|events| - 1], events[|events| - 1];
      RunFeedsAll(e, before);
      StepIndicators(Run(e, before), last);
      TickFeedsAll(Run(e, before).indicators, Ticks(before), last.candle.close);
    }
  }

  /**
   * No indicator is held back while another warms up: the strategy is first evaluated at the
   * slowest indicator's own warm-up count, and at every closed bar from then on.
   */
  lemma EngineWarmUpIsTheMaximum(e: EngineState, events: seq<Event>, candle: Candle)
    requires Wired(e.params, e.indicators) && AllFed(e.indicators, 0)
    ensures Collect(Updates(Run(e, events).indicators, candle.close)).Some?
       <==> Ticks(events) + 1 >= MaxWarmUp(e.indicators)
  {
    RunFeedsAll(e, events);
    TickFeedsAll(Run(e, events).indicators, Ticks(events), candle.close);
  }

  // ---------------------------------------------------------------- prediction

  lemma ReadyPeeksPredict(inds: seq<NamedIndicator>, n: nat, close: real)
    requires AllFed(inds, n) && Collect(Peeks(inds, close)).Some?
    ensures Updates(inds, close) == Peeks(inds, close)
  {
    CollectIsAll(Peeks(inds, close));
    forall i | 0 <= i < |inds| ensures Updates(inds, close)[i] == Peeks(inds, close)[i] {
      assert Peeks(inds, close)[i].1.Some?;
      PeekPredictsUpdate(inds[i].state, n, close);
    }
  }

  /**
   * The last forming tick predicts the close: after any run, a forming candle with the final
   * prices yields exactly the signal `on_tick` yields for that candle once closed, as soon as
   * every indicator can peek.
   */
  lemma LastFormingTickPredictsClose(e: EngineState, events: seq<Event>, candle: Candle, side: Option<PositionSide>)
    requires Wired(e.params, e.indicators) && AllFed(e.indicators, 0) && DefaultHistories(e.series)
    requires !candle.isClosed && Collect(Peeks(Run(e, events).indicators, candle.close)).Some?
    ensures var now := Run(e, events);
      OnFormingBarTick(now, candle, side).Success?
      && OnFormingBarTick(now, candle, side).value.1
         == OnTick(Step(now, Forming(candle, side)), candle.(isClosed := true), side).1
  {
    var now := Run(e, events);
    RunFeedsAll(e, events);
    FormingTicksAreTransparent(e, events);
    var peeks := Peeks(now.indicators, candle.close);
    ReadyPeeksPredict(now.indicators, Ticks(events), candle.close);
    ReadingsServe(now.params, now.indicators, peeks);
    var ctx := StrategyContext(candle, Collect(peeks).value, side);
    FormingLeavesNoTrace(now, candle, side);
    DecisionReadsCommittedHistory(now.params, now.series, Step(now, Forming(candle, side)).series, ctx, true);
  }

  lemma {:induction false} KindsStay(e: EngineState, events: seq<Event>)
    requires Wired(e.params, e.indicators)
    requires forall i :: 0 <= i < |e.indicators| ==> e.indicators[i].state.Ema?
    ensures forall i :: 0 <= i < |Run(e, events).indicators| ==> Run(e, events).indicators[i].state.Ema?
  {
    if events != [] {
      KindsStay(e, events[..|events| - 1]);
    }
  }

  /** A forming tick stays silent on the one bar whose close completes the slowest seed. */
  lemma FormingIsReadyOneBarLater(e: EngineState, events: seq<Event>, close: real)
    requires Wired(e.params, e.indicators) && AllFed(e.indicators, 0)
    requires forall i :: 0 <= i < |e.indicators| ==> e.indicators[i].state.Ema?
    ensures Collect(Peeks(Run(e, events).indicators, close)).Some? <==> Ticks(events) >= MaxWarmUp(e.indicators)
  {
    RunFeedsAll(e, events);
    KindsStay(e, events);
    var inds := Run(e, events).indicators;
    forall i | 0 <= i < |inds|
      ensures Peeks(inds, close)[i].1.Some? <==> Ticks(events) >= WarmUp(inds[i].state)
    {
      EmaPeekPredicts(inds[i].state.ema, Ticks(events), close);
    }
    MaxWarmUpBounds(inds, Ticks(events));
    CollectIsAll(Peeks(inds, close));
  }
}
