/** The engine object: it owns the indicators and one strategy, and publishes what is actionable. */
module StrategyEngines {
  import opened Prelude
  import opened Market
  import opened Indicators
  import opened IndicatorObjects
  import opened Strategies
  import opened StrategyObjects
  import opened Engine

  datatype IndicatorSlot = Slot(name: Key, ref: IndicatorRef)

  function SomeSignals(signals: seq<Option<Signal>>): seq<Signal> {
    if signals == [] then []
    else
      var last := signals[|signals| - 1];
      SomeSignals(signals[..|signals| - 1]) + if last.Some? then [last.value] else []
  }

  function BatchEvents(klines: seq<Candle>): seq<Event> {
    seq(|klines|, i requires 0 <= i < |klines| => Tick(klines[i], None))
  }

  lemma EmptyBatch(start: EngineState)
    requires Wired(start.params, start.indicators)
    ensures Run(start, []) == start && SomeSignals(ClosedSignals(start, [])) == []
  {
  }

  lemma BatchStep(start: EngineState, events: seq<Event>, i: nat)
    requires Wired(start.params, start.indicators) && i < |events| && events[i].Tick?
    ensures var e, tick := Run(start, events[..i]), events[i];
      && (Run(start, events[..i + 1]), OnTick(e, tick.candle, tick.side).1) == Engine.OnTick(e, tick.candle, tick.side)
      && SomeSignals(ClosedSignals(start, events[..i + 1])) == SomeSignals(ClosedSignals(start, events[..i]))
           + if OnTick(e, tick.candle, tick.side).1.Some? then [OnTick(e, tick.candle, tick.side).1.value] else []
  {
    var before, signal := ClosedSignals(start, events[..i]),
                          OnTick(Run(start, events[..i]), events[i].candle, events[i].side).1;
    assert events[..i + 1][..i] == events[..i];
    assert ClosedSignals(start, events[..i + 1]) == before + [signal];
    assert (before + [signal])[..|before|] == before;
    hide OnTick;
  }

  lemma CollectStep(entries: seq<(Key, Option<IndicatorValue>)>, i: nat, name: Key, reading: Option<IndicatorValue>)
    requires i < |entries| && entries[i] == (name, reading)
    ensures var before, after := Collect(entries[..i]), Collect(entries[..i + 1]);
      after == if before.None? || reading.None? then None else Some(before.value[name := reading.value])
  {
    assert entries[..i + 1][..i] == entries[..i];
  }

  class StrategyEngine {
    const indicators: seq<IndicatorSlot>
    const strategy: Strategy
    var published: seq<Signal>

    ghost const IndicatorRepr: set<object> := set i, o | 0 <= i < |indicators| && o in indicators[i].ref.Repr() :: o

    /** Every indicator is its own object graph. */
    ghost predicate Separate() {
      && this as object !in IndicatorRepr && strategy as object !in IndicatorRepr
      && (forall i :: 0 <= i < |indicators| ==> indicators[i].ref.Valid() && indicators[i].ref.Repr() <= IndicatorRepr)
      && (forall i, j :: 0 <= i < j < |indicators| ==> indicators[i].ref.Repr() !! indicators[j].ref.Repr())
    }

    ghost function IndicatorStates(): (states: seq<NamedIndicator>)
      requires Separate()
      reads IndicatorRepr
      ensures |states| == |indicators|
    {
      seq(|indicators|, i requires 0 <= i < |indicators| reads IndicatorRepr =>
            Named(indicators[i].name, indicators[i].ref.View()))
    }

    ghost function View(): EngineState
      requires Separate()
      reads strategy, IndicatorRepr
    {
      EngineState(strategy.params, IndicatorStates(), strategy.series)
    }

    ghost predicate Valid()
      reads strategy, IndicatorRepr
    {
      Separate() && strategy.Valid() && Wired(strategy.params, IndicatorStates())
    }

    constructor (indicators: seq<IndicatorSlot>, strategy: Strategy)
      ensures this.indicators == indicators && this.strategy == strategy && published == []
    {
      this.indicators, this.strategy, published := indicators, strategy, [];
    }

    /** The first `i` indicators have taken this close; the others still stand at `start`. */
    ghost predicate Partway(start: seq<NamedIndicator>, close: real, i: nat)
      requires Separate() && |start| == |indicators|
      reads IndicatorRepr
    {
      forall j :: 0 <= j < |indicators| ==>
        indicators[j].ref.View() == if j < i then Update(start[j].state, close).0 else start[j].state
    }

    method UpdateOne(i: nat, close: real, ghost start: seq<NamedIndicator>) returns (reading: Option<IndicatorValue>)
      requires Separate() && i < |indicators| == |start| && Partway(start, close, i)
      modifies IndicatorRepr
      ensures Partway(start, close, i + 1)
      ensures reading == Update(start[i].state, close).1
    {
      assert forall j :: 0 <= j < |indicators| && j != i ==> indicators[j].ref.Repr() !! indicators[i].ref.Repr();
      reading := indicators[i].ref.Update(close);
      hide Update;
    }

    method UpdateIndicators(close: real) returns (readings: Option<Readings>)
      requires Separate()
      modifies IndicatorRepr
      ensures IndicatorStates() == NextIndicators(old(IndicatorStates()), close)
      ensures readings == Collect(Updates(old(IndicatorStates()), close))
    {
      ghost var start := IndicatorStates();
      ghost var updates := Updates(start, close);
      var found: Readings, allReady := map[], true;
      for i := 0 to |indicators|
        invariant Partway(start, close, i)
        invariant Collect(updates[..i]) == if allReady then Some(found) else None
      {
        hide Collect, Update, Partway;
        var reading := UpdateOne(i, close, start);
        CollectStep(updates, i, indicators[i].name, reading);
        if reading.None? {
          allReady := false;
        } else {
          found := found[indicators[i].name := reading.value];
        }
      }
      assert updates[..|indicators|] == updates;
      readings := if allReady then Some(found) else None;
    }

    method PeekIndicators(close: real) returns (readings: Option<Readings>)
      requires Separate()
      ensures readings == Collect(Peeks(IndicatorStates(), close))
    {
      ghost var peeks := Peeks(IndicatorStates(), close);
      var found: Readings, allReady := map[], true;
      for i := 0 to |indicators|
        invariant Collect(peeks[..i]) == if allReady then Some(found) else None
      {
        var reading := indicators[i].ref.PeekProvisional(close);
        CollectStep(peeks, i, indicators[i].name, reading);
        if reading.None? {
          allReady := false;
        } else {
          found := found[indicators[i].name := reading.value];
        }
      }
      assert peeks[..|indicators|] == peeks;
      readings := if allReady then Some(found) else None;
    }

    method ProcessOne(candle: Candle, side: Option<PositionSide>) returns (signal: Option<Signal>)
      requires Valid()
      modifies this`published, strategy, IndicatorRepr
      ensures Valid() && (View(), signal) == Engine.OnTick(old(View()), candle, side)
      ensures published == old(published) + if signal.Some? then [signal.value] else []
    {
      ghost var start := View();
      StaysWired(start.params, start.indicators, candle.close);
      var readings := UpdateIndicators(candle.close);
      if readings.None? {
        return None;
      }
      ReadingsServe(start.params, start.indicators, Updates(start.indicators, candle.close));
      var evaluated := strategy.Evaluate(StrategyContext(candle, readings.value, side));
      if evaluated.action == Hold {
        return None;
      }
      published := published + [evaluated];
      return Some(evaluated);
    }

    method OnTick(candle: Candle, side: Option<PositionSide>) returns (signal: Option<Signal>)
      requires Valid()
      modifies this`published, strategy, IndicatorRepr
      ensures Valid() && (View(), signal) == Engine.OnTick(old(View()), candle, side)
      ensures published == old(published) + if signal.Some? then [signal.value] else []
    {
      signal := ProcessOne(candle, side);
    }

    /** Batch mode is incremental mode with no position to report. */
    method RunBatch(klines: seq<Candle>) returns (signals: seq<Signal>)
      requires Valid()
      modifies this`published, strategy, IndicatorRepr
      ensures Valid() && View() == Run(old(View()), BatchEvents(klines))
      ensures signals == SomeSignals(ClosedSignals(old(View()), BatchEvents(klines)))
      ensures published == old(published) + signals
    {
      hide Run, ClosedSignals, SomeSignals, Engine.OnTick;
      ghost var start, events := View(), BatchEvents(klines);
      EmptyBatch(start);
      signals := [];
      for i := 0 to |klines|
        invariant Valid() && View() == Run(start, events[..i])
        invariant signals == SomeSignals(ClosedSignals(start, events[..i]))
        invariant published == old(published) + signals
      {
        BatchStep(start, events, i);
        var signal := ProcessOne(klines[i], None);
        if signal.Some? {
          signals := signals + [signal.value];
        }
      }
      assert events[..|klines|] == events;
    }

    /** Tentative evaluation: no indicator object is in the frame, and a closed candle raises. */
    method OnFormingBarTick(candle: Candle, side: Option<PositionSide>) returns (r: Result<Option<Signal>>)
      requires Valid()
      modifies this`published, strategy
      ensures Valid() && View() == Step(old(View()), Forming(candle, side))
      ensures r.Success? <==> !candle.isClosed
      ensures r.Success? ==> r.value == Engine.OnFormingBarTick(old(View()), candle, side).value.1
      ensures published == old(published) + if r.Success? && r.value.Some? then [r.value.value] else []
    {
      if candle.isClosed {
        return Failure("ValueError");
      }
      ghost var start := View();
      var readings := PeekIndicators(candle.close);
      if readings.None? {
        return Success(None);
      }
      ReadingsServe(start.params, start.indicators, Peeks(start.indicators, candle.close));
      var evaluated := strategy.Evaluate(StrategyContext(candle, readings.value, side));
      assert IndicatorStates() == start.indicators;
      if evaluated.action == Hold {
        return Success(None);
      }
      published := published + [evaluated];
      return Success(Some(evaluated));
    }
  }

  /** Every strategy here is built on plain EMAs, one per key. */
  lemma BuiltIsWired(params: StrategyParams, states: seq<NamedIndicator>)
    requires |states| == |Keys(params)|
    requires forall i :: 0 <= i < |states| ==> states[i].name == Keys(params)[i] && states[i].state.Ema?
    ensures Wired(params, states)
  {
    assert forall i, j :: 0 <= i < j < |Keys(params)| ==> Keys(params)[i] != Keys(params)[j];
    forall k | k in Keys(params) ensures HasEma(states, k) {
      var i :| 0 <= i < |states| && Keys(params)[i] == k;
      assert states[i].name == k && states[i].state.Ema?;
    }
  }

  ghost predicate GoodPeriods(periods: seq<int>) {
    forall i :: 0 <= i < |periods| ==> NewEma(periods[i], None).Success?
  }

  /** The unfed indicators `build_indicators` describes. */
  ghost function NewStates(params: StrategyParams, periods: seq<int>): seq<NamedIndicator>
    requires |periods| == |Keys(params)| && GoodPeriods(periods)
  {
    seq(|periods|, i requires 0 <= i < |periods| => Named(Keys(params)[i], Ema(NewEma(periods[i], None).value)))
  }

  /** Slots of distinct EMAs, standing at the states the periods start from. */
  ghost predicate NewSlots(slots: seq<IndicatorSlot>, names: seq<Key>, periods: seq<int>)
    requires |slots| <= |names| == |periods|
    reads set i | 0 <= i < |slots| && slots[i].ref.EmaRef? :: slots[i].ref.ema
  {
    && (forall i :: 0 <= i < |slots| ==> slots[i].ref.EmaRef? && slots[i].name == names[i])
    && (forall i :: 0 <= i < |slots| ==> NewEma(periods[i], None) == Success(slots[i].ref.ema.View()))
    && (forall i, j :: 0 <= i < j < |slots| ==> slots[i].ref.ema != slots[j].ref.ema)
  }

  /** `build_indicators`: a bad period raises. */
  method BuildIndicators(params: StrategyParams, periods: seq<int>) returns (r: Result<seq<IndicatorSlot>>)
    requires |periods| == |Keys(params)|
    ensures r.Success? <==> GoodPeriods(periods)
    ensures r.Success? ==> |r.value| == |periods| && NewSlots(r.value, Keys(params), periods)
    ensures r.Success? ==> forall i :: 0 <= i < |r.value| ==> fresh(r.value[i].ref.ema)
  {
    hide Keys, NewEma;
    var slots: seq<IndicatorSlot> := [];
    for i := 0 to |periods|
      invariant |slots| == i && NewSlots(slots, Keys(params), periods)
      invariant forall j :: 0 <= j < i ==> fresh(slots[j].ref.ema)
    {
      var made := EMA.Make(periods[i], None);
      if made.Failure? {
        return Failure(made.error);
      }
      slots := slots + [Slot(Keys(params)[i], EmaRef(made.value))];
    }
    return Success(slots);
  }

  lemma NewStatesAreUnfed(params: StrategyParams, periods: seq<int>)
    requires |periods| == |Keys(params)| && GoodPeriods(periods)
    ensures AllFed(NewStates(params, periods), 0)
  {
    forall i | 0 <= i < |periods| ensures Fed(NewStates(params, periods)[i].state, 0) {
      NewIndicatorsAreUnfed(periods[i], None, 1, 2, 1);
    }
  }

  /** Indicator `i` is under that name, an unfed EMA of that period. */
  ghost predicate EmaUnder(inds: seq<NamedIndicator>, i: nat, name: Key, period: int) {
    i < |inds| && inds[i].name == name && inds[i].state.Ema? && Unfed(inds[i].state.ema, period, 2.0, period + 1)
  }

  /** Which EMA a strategy's periods build under which name. */
  lemma NewStatesAreNamed(params: StrategyParams, periods: seq<int>)
    requires |periods| == |Keys(params)| && GoodPeriods(periods)
    ensures var inds := NewStates(params, periods);
      match params
      case EmaCrossover(_) =>
        |inds| == 2 && EmaUnder(inds, 0, EmaFast, periods[0]) && EmaUnder(inds, 1, EmaSlow, periods[1])
      case MultiEma(_) =>
        && |inds| == 4 && EmaUnder(inds, 0, EmaFast, periods[0]) && EmaUnder(inds, 1, EmaMidFast, periods[1])
        && EmaUnder(inds, 2, EmaMidSlow, periods[2]) && EmaUnder(inds, 3, EmaSlow, periods[3])
      case TrendPullback(_, _, _, _, _, _) =>
        |inds| == 2 && EmaUnder(inds, 0, EmaLong, periods[0]) && EmaUnder(inds, 1, EmaEntry, periods[1])
  {
    forall i | 0 <= i < |periods| ensures NewEma(periods[i], None).Success?
      && Unfed(NewEma(periods[i], None).value, periods[i], 2.0, periods[i] + 1) {
      NewIndicatorsAreUnfed(periods[i], None, 1, 2, 1);
    }
    hide NewEma, Unfed;
  }

  /** `build_engine`: the strategy's own indicator set, freshly built. */
  method BuildEngine(params: StrategyParams, periods: seq<int>) returns (r: Result<StrategyEngine>)
    requires |periods| == |Keys(params)|
    ensures r.Success? <==> GoodPeriods(periods)
    ensures r.Success? ==> fresh(r.value) && r.value.Valid() && r.value.published == []
    ensures r.Success? ==> r.value.View() == EngineState(params, NewStates(params, periods), map[])
    ensures r.Success? ==> AsBuilt(r.value.View())
  {
    hide Keys, NewEma, Wired;
    var built := BuildIndicators(params, periods);
    if built.Failure? {
      return Failure(built.error);
    }
    var strategy := new Strategy(params);
    var engine := new StrategyEngine(built.value, strategy);
    assert engine.Separate();
    assert engine.IndicatorStates() == NewStates(params, periods);
    BuiltIsWired(params, NewStates(params, periods));
    NewStatesAreUnfed(params, periods);
    return Success(engine);
  }
}
