/** A closed-bar run of the engine is a run of its strategy over the bars it evaluated. */
module ClosedRuns {
  import opened Prelude
  import opened Market
  import opened BarSeries
  import opened Indicators
  import opened Strategies
  import opened StrategyProofs
  import opened Engine

  ghost predicate ClosedContexts(params: StrategyParams, contexts: seq<StrategyContext>) {
    forall i :: 0 <= i < |contexts| ==> contexts[i].candle.isClosed && HasReadings(params, contexts[i].indicators)
  }

  function SeriesAfter(params: StrategyParams, m: SeriesMap, contexts: seq<StrategyContext>): SeriesMap
    requires forall i :: 0 <= i < |contexts| ==> HasReadings(params, contexts[i].indicators)
  {
    if contexts == [] then m
    else Decide(params, SeriesAfter(params, m, contexts[..|contexts| - 1]), contexts[|contexts| - 1]).0
  }

  /** What the strategy decided on bar `i` of the run. */
  function DecisionAt(params: StrategyParams, m: SeriesMap, contexts: seq<StrategyContext>, i: nat): Decision
    requires i < |contexts|
    requires forall j :: 0 <= j < |contexts| ==> HasReadings(params, contexts[j].indicators)
  {
    Decide(params, SeriesAfter(params, m, contexts[..i]), contexts[i]).1
  }

  ghost predicate AllClosed(events: seq<Event>) {
    forall i :: 0 <= i < |events| ==> events[i].Tick? && events[i].candle.isClosed
  }

  lemma {:induction false} SameParams(e: EngineState, events: seq<Event>)
    requires Wired(e.params, e.indicators)
    ensures Run(e, events).params == e.params
  {
    if events != [] {
      SameParams(e, events[..|events| - 1]);
    }
  }

  /** The bars the engine handed to its strategy: all of them once the slowest indicator reads. */
  function Contexts(e: EngineState, events: seq<Event>): (r: seq<StrategyContext>)
    requires Wired(e.params, e.indicators)
    ensures forall i :: 0 <= i < |r| ==> HasReadings(e.params, r[i].indicators)
  {
    if events == [] then []
    else
      var before, last := events[..|events| - 1], events[|events| - 1];
      var inds := Run(e, before).indicators;
      var readings := Collect(Updates(inds, last.candle.close));
      SameParams(e, before);
      if last.Forming? || readings.None? then Contexts(e, before)
      else
        ReadingsServe(e.params, inds, Updates(inds, last.candle.close));
        Contexts(e, before) + [StrategyContext(last.candle, readings.value, last.side)]
  }

  lemma TickEvaluates(e: EngineState, candle: Candle, side: Option<PositionSide>)
    requires Wired(e.params, e.indicators)
    requires Collect(Updates(e.indicators, candle.close)).Some?
    ensures var readings := Collect(Updates(e.indicators, candle.close)).value;
      && HasReadings(e.params, readings)
      && var ctx := StrategyContext(candle, readings, side);
         OnTick(e, candle, side).0.series == Decide(e.params, e.series, ctx).0
         && OnTick(e, candle, side).1 == Emitted(SignalFor(ctx, Decide(e.params, e.series, ctx).1))
  {
    ReadingsServe(e.params, e.indicators, Updates(e.indicators, candle.close));
  }

  /** One more closed bar: one more context if every indicator reads, none otherwise. */
  lemma ContextsGrow(e: EngineState, events: seq<Event>)
    requires Wired(e.params, e.indicators) && events != [] && events[|events| - 1].Tick?
    ensures var before, last := events[..|events| - 1], events[|events| - 1];
      var readings := Collect(Updates(Run(e, before).indicators, last.candle.close));
      Contexts(e, events)
      == Contexts(e, before) + if readings.None? then [] else [StrategyContext(last.candle, readings.value, last.side)]
  {
  }

  lemma SeriesAfterOneMore(params: StrategyParams, m: SeriesMap, contexts: seq<StrategyContext>, ctx: StrategyContext)
    requires forall i :: 0 <= i < |contexts| ==> HasReadings(params, contexts[i].indicators)
    requires HasReadings(params, ctx.indicators)
    ensures SeriesAfter(params, m, contexts + [ctx]) == Decide(params, SeriesAfter(params, m, contexts), ctx).0
  {
    assert (contexts + [ctx])[..|contexts|] == contexts;
  }

  /** One more closed bar: the series move as the strategy decides if every indicator reads, and stay otherwise. */
  lemma SeriesOfLonger(e: EngineState, events: seq<Event>)
    requires Wired(e.params, e.indicators) && events != [] && events[|events| - 1].Tick?
    ensures var before, last := events[..|events| - 1], events[|events| - 1];
      var readings := Collect(Updates(Run(e, before).indicators, last.candle.close));
      && (readings.Some? ==> HasReadings(e.params, readings.value))
      && Run(e, events).series
         == if readings.None? then Run(e, before).series
            else Decide(e.params, Run(e, before).series, StrategyContext(last.candle, readings.value, last.side)).0
  {
    hide Decide, NextIndicators, Updates, Collect;
    var before, last := events[..|events| - 1], events[|events| - 1];
    SameParams(e, before);
    if Collect(Updates(Run(e, before).indicators, last.candle.close)).Some? {
      TickEvaluates(Run(e, before), last.candle, last.side);
    }
  }

  lemma ClosedPrefix(events: seq<Event>)
    requires AllClosed(events) && events != []
    ensures AllClosed(events[..|events| - 1]) && events[|events| - 1].Tick? && events[|events| - 1].candle.isClosed
  {
  }

  lemma OneMoreContext(params: StrategyParams, contexts: seq<StrategyContext>, ctx: StrategyContext)
    requires ClosedContexts(params, contexts) && ctx.candle.isClosed && HasReadings(params, ctx.indicators)
    ensures ClosedContexts(params, contexts + [ctx])
  {
    hide HasReadings;
  }

  /** The engine's series after a closed-bar run are the strategy's after the evaluated bars. */
  lemma {:induction false} EngineRunIsStrategyRun(e: EngineState, events: seq<Event>)
    requires Wired(e.params, e.indicators) && AllClosed(events)
    ensures ClosedContexts(e.params, Contexts(e, events))
    ensures Run(e, events).series == SeriesAfter(e.params, e.series, Contexts(e, events))
  {
    if events != [] {
      hide Decide, Run, Contexts, SeriesAfter, NextIndicators, Updates, Collect, Wired, ClosedContexts, AllClosed,
        HasReadings;
      var before, last := events[..|events| - 1], events[|events| - 1];
      ClosedPrefix(events);
      EngineRunIsStrategyRun(e, before);
      ContextsGrow(e, events);
      SeriesOfLonger(e, events);
      var readings := Collect(Updates(Run(e, before).indicators, last.candle.close));
      if readings.Some? {
        var ctx := StrategyContext(last.candle, readings.value, last.side);
        SeriesAfterOneMore(e.params, e.series, Contexts(e, before), ctx);
        OneMoreContext(e.params, Contexts(e, before), ctx);
      } else {
        assert Contexts(e, events) == Contexts(e, before);
      }
    }
  }

  /** The signal of a closed bar is the strategy's decision on the context that bar became. */
  lemma SignalIsDecision(e: EngineState, events: seq<Event>, candle: Candle, side: Option<PositionSide>)
    requires Wired(e.params, e.indicators) && AllClosed(events) && candle.isClosed
    requires Collect(Updates(Run(e, events).indicators, candle.close)).Some?
    ensures var all := Contexts(e, events + [Tick(candle, side)]);
      && |all| == |Contexts(e, events)| + 1 && all[..|all| - 1] == Contexts(e, events)
      && OnTick(Run(e, events), candle, side).1
         == Emitted(SignalFor(all[|all| - 1], DecisionAt(e.params, e.series, all, |all| - 1)))
  {
    var longer := events + [Tick(candle, side)];
    assert longer[..|longer| - 1] == events;
    EngineRunIsStrategyRun(e, events);
    SameParams(e, events);
    TickEvaluates(Run(e, events), candle, side);
    ContextsGrow(e, longer);
    var all := Contexts(e, longer);
    assert all[..|all| - 1] == Contexts(e, events);
  }
}
