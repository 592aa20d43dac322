/** The engine's signals from the candles alone, whatever forming ticks came between. */
module HistorySignals {
  import opened Prelude
  import opened Market
  import opened BarSeries
  import opened Indicators
  import opened Strategies
  import opened StrategyProofs
  import opened Engine
  import opened EngineReadings
  import opened ClosedRuns
  import opened TrendConfirmation
  import opened MultiEmaSignals
  import opened RunSignals

  /** `on_tick` only ever receives closed candles. */
  ghost predicate ClosedTicks(events: seq<Event>) {
    forall i :: 0 <= i < |events| && events[i].Tick? ==> events[i].candle.isClosed
  }

  // ---------------------------------------------------------------- forming ticks drop out

  lemma {:induction false} ClosedOnlyIsClosed(events: seq<Event>)
    requires ClosedTicks(events)
    ensures AllClosed(ClosedOnly(events))
    ensures Closes(ClosedOnly(events)) == Closes(events) && |Closes(events)| == |ClosedOnly(events)|
  {
    if events != [] {
      var before, last := events[..|events| - 1], events[|events| - 1];
      ClosedOnlyIsClosed(before);
      var earlier := ClosedOnly(before);
      if last.Tick? {
        assert last.candle.isClosed by { assert events[|events| - 1].Tick?; }
        assert ClosedOnly(events) == earlier + [last];
        assert (earlier + [last])[..|earlier|] == earlier;
      } else {
        assert ClosedOnly(events) == earlier;
      }
    }
  }

  lemma ClosedSignalIgnoresForming(e: EngineState, events: seq<Event>, candle: Candle, side: Option<PositionSide>)
    requires AsBuilt(e)
    ensures OnTick(Run(e, events), candle, side).1 == OnTick(Run(e, ClosedOnly(events)), candle, side).1
  {
    FormingTicksAreTransparent(e, events);
    TickAlike(Run(e, events), Run(e, ClosedOnly(events)), candle, side);
  }

  // ---------------------------------------------------------------- the contexts, told from the history

  /** The EMA the engine keeps under a key the strategy reads. */
  ghost function EmaNamed(e: EngineState, key: Key): EmaState
    requires Wired(e.params, e.indicators) && key in Keys(e.params)
  {
    assert HasEma(e.indicators, key);
    var i :| 0 <= i < |e.indicators| && e.indicators[i].name == key && e.indicators[i].state.Ema?;
    e.indicators[i].state.ema
  }

  /** That EMA over these closes. */
  ghost function EmaOver(e: EngineState, key: Key, xs: seq<real>): Option<real>
    requires Wired(e.params, e.indicators) && key in Keys(e.params)
  {
    EmaFeed(EmaNamed(e, key), xs).ema
  }

  /** A context hands the strategy one bar, the side, and every EMA over the closes up to that bar. */
  ghost predicate ContextOf(e: EngineState, candle: Candle, side: Option<PositionSide>, xs: seq<real>,
                            ctx: StrategyContext)
    requires Wired(e.params, e.indicators)
  {
    && ctx.candle == candle && ctx.side == side
    && forall k :: k in Keys(e.params) ==>
         EmaOver(e, k, xs).Some? && k in ctx.indicators && ctx.indicators[k] == Scalar(EmaOver(e, k, xs).value)
  }

  /** The bar `i` bars after the first one evaluated. */
  ghost predicate EvaluatedBar(e: EngineState, closed: seq<Event>, i: nat, ctx: StrategyContext)
    requires AsBuilt(e) && AllClosed(closed)
  {
    var n := i + MaxWarmUp(e.indicators) - 1;
    0 <= n < |closed| && ContextOf(e, closed[n].candle, closed[n].side, Closes(closed[..n + 1]), ctx)
  }

  lemma ReadingsOfTick(e: EngineState, before: seq<Event>, candle: Candle, side: Option<PositionSide>)
    requires AsBuilt(e) && Collect(Updates(Run(e, before).indicators, candle.close)).Some?
    ensures ContextOf(e, candle, side, Closes(before) + [candle.close],
                      StrategyContext(candle, Collect(Updates(Run(e, before).indicators, candle.close)).value, side))
  {
    forall k | k in Keys(e.params)
      ensures var xs, readings := Closes(before) + [candle.close],
                                  Collect(Updates(Run(e, before).indicators, candle.close)).value;
        EmaOver(e, k, xs).Some? && k in readings && readings[k] == Scalar(EmaOver(e, k, xs).value)
    {
      assert HasEma(e.indicators, k);
      var i :| && 0 <= i < |e.indicators| && e.indicators[i].name == k && e.indicators[i].state.Ema?
               && EmaNamed(e, k) == e.indicators[i].state.ema;
      EvaluatedReadingsAreEmas(e, before, candle, i);
    }
  }

  lemma WarmUpIsPositive(e: EngineState)
    requires AsBuilt(e)
    ensures MaxWarmUp(e.indicators) >= 1
  {
    var k := Keys(e.params)[0];
    assert HasEma(e.indicators, k);
    var i :| 0 <= i < |e.indicators| && e.indicators[i].name == k && e.indicators[i].state.Ema?;
    MaxWarmUpBounds(e.indicators, 0);
    assert WarmUp(e.indicators[i].state) >= 1;
  }

  lemma {:induction false} AllTicksAreClosed(closed: seq<Event>)
    requires AllClosed(closed)
    ensures Ticks(closed) == |closed| == |Closes(closed)| && ClosedOnly(closed) == closed
  {
    if closed != [] {
      AllTicksAreClosed(closed[..|closed| - 1]);
    }
  }

  lemma EarlierBarsStay(e: EngineState, before: seq<Event>, last: Event, contexts: seq<StrategyContext>)
    requires AsBuilt(e) && AllClosed(before + [last]) && AllClosed(before)
    requires forall i :: 0 <= i < |contexts| ==> EvaluatedBar(e, before, i, contexts[i])
    ensures forall i :: 0 <= i < |contexts| ==> EvaluatedBar(e, before + [last], i, contexts[i])
  {
    forall i | 0 <= i < |contexts| ensures EvaluatedBar(e, before + [last], i, contexts[i]) {
      var n := i + MaxWarmUp(e.indicators) - 1;
      assert EvaluatedBar(e, before, i, contexts[i]);
      assert (before + [last])[..n + 1] == before[..n + 1];
    }
  }

  lemma NewestBar(e: EngineState, before: seq<Event>, last: Event, ctx: StrategyContext, i: nat)
    requires AsBuilt(e) && AllClosed(before + [last]) && i + MaxWarmUp(e.indicators) - 1 == |before|
    requires ContextOf(e, last.candle, last.side, Closes(before) + [last.candle.close], ctx)
    ensures EvaluatedBar(e, before + [last], i, ctx)
  {
    var closed := before + [last];
    assert closed[..|before| + 1] == closed && closed[..|closed| - 1] == before;
  }

  lemma BarsGrow(e: EngineState, before: seq<Event>, last: Event, contexts: seq<StrategyContext>,
                 all: seq<StrategyContext>)
    requires AsBuilt(e) && AllClosed(before + [last]) && AllClosed(before)
    requires forall i :: 0 <= i < |contexts| ==> EvaluatedBar(e, before, i, contexts[i])
    requires all == contexts
             || (|all| == |contexts| + 1 && all[..|contexts|] == contexts
                 && |contexts| + MaxWarmUp(e.indicators) - 1 == |before|
                 && ContextOf(e, last.candle, last.side, Closes(before) + [last.candle.close], all[|contexts|]))
    ensures forall i :: 0 <= i < |all| ==> EvaluatedBar(e, before + [last], i, all[i])
  {
    hide EvaluatedBar, MaxWarmUp, AsBuilt, ContextOf, Closes;
    EarlierBarsStay(e, before, last, contexts);
    if all != contexts {
      NewestBar(e, before, last, all[|contexts|], |contexts|);
    }
    var closed := before + [last];
    forall i | 0 <= i < |all| ensures EvaluatedBar(e, closed, i, all[i]) {
      if i < |contexts| {
        assert EvaluatedBar(e, closed, i, contexts[i]) && all[i] == contexts[i];
      } else {
        assert i == |contexts| && EvaluatedBar(e, closed, |contexts|, all[|contexts|]);
      }
    }
  }

  /** One more closed bar is one more context exactly from the slowest warm-up on. */
  lemma ContextsStep(e: EngineState, before: seq<Event>, last: Event)
    requires AsBuilt(e) && AllClosed(before + [last]) && AllClosed(before)
    ensures var contexts, all := Contexts(e, before), Contexts(e, before + [last]);
      if |before| + 1 >= MaxWarmUp(e.indicators)
      then |all| == |contexts| + 1 && all[..|contexts|] == contexts
           && ContextOf(e, last.candle, last.side, Closes(before) + [last.candle.close], all[|contexts|])
      else all == contexts
  {
    var closed := before + [last];
    assert closed[..|closed| - 1] == before && closed[|closed| - 1] == last;
    AllTicksAreClosed(before);
    EngineWarmUpIsTheMaximum(e, before, last.candle);
    ContextsGrow(e, closed);
    if Collect(Updates(Run(e, before).indicators, last.candle.close)).Some? {
      ReadingsOfTick(e, before, last.candle, last.side);
    }
    hide Run, Collect, Updates, MaxWarmUp, ContextOf, AsBuilt;
  }

  /** The engine evaluates every closed bar from the slowest warm-up on, each on the EMAs of all closes so far. */
  lemma {:induction false} ContextsAreTheHistory(e: EngineState, closed: seq<Event>)
    requires AsBuilt(e) && AllClosed(closed)
    ensures |Contexts(e, closed)|
         == if |closed| < MaxWarmUp(e.indicators) then 0 else |closed| - MaxWarmUp(e.indicators) + 1
    ensures forall i :: 0 <= i < |Contexts(e, closed)| ==> EvaluatedBar(e, closed, i, Contexts(e, closed)[i])
  {
    WarmUpIsPositive(e);
    if closed != [] {
      hide EvaluatedBar, Contexts, MaxWarmUp, AsBuilt, ContextOf, Closes;
      var before, last := closed[..|closed| - 1], closed[|closed| - 1];
      assert closed == before + [last];
      ContextsAreTheHistory(e, before);
      ContextsStep(e, before, last);
      BarsGrow(e, before, last, Contexts(e, before), Contexts(e, closed));
    }
  }

  // ---------------------------------------------------------------- the signal of one closed bar

  /** The contexts up to a bar that closes after these events. */
  ghost function ContextsUpTo(e: EngineState, events: seq<Event>, candle: Candle,
                              side: Option<PositionSide>): seq<StrategyContext>
    requires AsBuilt(e)
  {
    Contexts(e, ClosedOnly(events) + [Tick(candle, side)])
  }

  lemma ClosesOfLonger(events: seq<Event>, candle: Candle, side: Option<PositionSide>)
    ensures Closes(events + [Tick(candle, side)]) == Closes(events) + [candle.close]
  {
    assert (events + [Tick(candle, side)])[..|events|] == events;
  }

  lemma OneMoreClosed(events: seq<Event>, candle: Candle, side: Option<PositionSide>)
    requires ClosedTicks(events) && candle.isClosed
    ensures var closed := ClosedOnly(events);
      && AllClosed(closed) && AllClosed(closed + [Tick(candle, side)])
      && Closes(closed) == Closes(events) && |Closes(events)| == |closed|
      && Closes(closed + [Tick(candle, side)]) == Closes(events) + [candle.close]
  {
    hide ClosedOnly, Closes, ClosedTicks;
    ClosedOnlyIsClosed(events);
    ClosesOfLonger(ClosedOnly(events), candle, side);
  }

  /** Every EMA of the engine reads these closes. */
  ghost predicate Evaluated(e: EngineState, xs: seq<real>) {
    |xs| >= MaxWarmUp(e.indicators)
  }

  lemma NotEvaluated(e: EngineState, candle: Candle, side: Option<PositionSide>)
    requires Wired(e.params, e.indicators) && Collect(Updates(e.indicators, candle.close)).None?
    ensures OnTick(e, candle, side).1 == None && OnTick(e, candle, side).0.series == e.series
  {
  }

  /** Before the slowest warm-up nothing is signalled; from then on, the decision on the newest context. */
  lemma ClosedBarSignal(e: EngineState, events: seq<Event>, candle: Candle, side: Option<PositionSide>)
    requires AsBuilt(e) && ClosedTicks(events) && candle.isClosed
    ensures var signal, all, xs := OnTick(Run(e, events), candle, side).1, ContextsUpTo(e, events, candle, side),
                                   Closes(events);
      && ClosedContexts(e.params, all)
      && |all| == (if |xs| + 1 < MaxWarmUp(e.indicators) then 0 else |xs| - MaxWarmUp(e.indicators) + 2)
      && (all == [] ==> signal == None)
      && (all == [] <==> !Evaluated(e, xs + [candle.close])) && (|all| > 1 <==> Evaluated(e, xs))
      && (all != [] ==> signal == Emitted(SignalFor(all[|all| - 1], DecisionAt(e.params, map[], all, |all| - 1))))
      && (all != [] ==> ContextOf(e, candle, side, xs + [candle.close], all[|all| - 1]))
  {
    var closed := ClosedOnly(events);
    var longer := closed + [Tick(candle, side)];
    OneMoreClosed(events, candle, side);
    ClosedSignalIgnoresForming(e, events, candle, side);
    ContextsAreTheHistory(e, longer);
    ContextsAreTheHistory(e, closed);
    ContextsStep(e, closed, Tick(candle, side));
    EngineRunIsStrategyRun(e, longer);
    AllTicksAreClosed(closed);
    EngineWarmUpIsTheMaximum(e, closed, candle);
    if Collect(Updates(Run(e, closed).indicators, candle.close)).Some? {
      SignalIsDecision(e, closed, candle, side);
    } else {
      NotEvaluated(Run(e, closed), candle, side);
    }
    hide Run, Collect, Updates, MaxWarmUp, ContextOf, ClosedOnly, Contexts, DecisionAt, OnTick, EvaluatedBar, Emitted,
      SignalFor;
  }

  /** The context before the newest one is the last closed bar's. */
  lemma PreviousContext(e: EngineState, events: seq<Event>, candle: Candle, side: Option<PositionSide>)
    requires AsBuilt(e) && ClosedTicks(events) && candle.isClosed
    requires |ContextsUpTo(e, events, candle, side)| > 1
    ensures var all, closed := ContextsUpTo(e, events, candle, side), ClosedOnly(events);
      && closed != []
      && ContextOf(e, closed[|closed| - 1].candle, closed[|closed| - 1].side, Closes(events), all[|all| - 2])
  {
    hide ClosedOnly, Contexts, MaxWarmUp, ContextOf;
    var closed := ClosedOnly(events);
    var longer := closed + [Tick(candle, side)];
    OneMoreClosed(events, candle, side);
    ContextsAreTheHistory(e, longer);
    var all := Contexts(e, longer);
    assert EvaluatedBar(e, longer, |all| - 2, all[|all| - 2]);
    var n := |closed| - 1;
    assert longer[..n + 1] == closed;
  }

  predicate Acts(signal: Option<Signal>, action: SignalAction) {
    signal.Some? && signal.value.action == action
  }

  lemma EmittedActs(ctx: StrategyContext, decision: Decision, action: SignalAction)
    requires action != Hold
    ensures Acts(Emitted(SignalFor(ctx, decision)), action) <==> decision.action == action
    ensures Emitted(SignalFor(ctx, decision)) == None <==> decision.action == Hold
  {
  }

  // ---------------------------------------------------------------- EmaCrossover

  lemma ReadsWhenEvaluated(e: EngineState, key: Key, xs: seq<real>)
    requires AsBuilt(e) && key in Keys(e.params) && Evaluated(e, xs)
    ensures EmaOver(e, key, xs).Some?
  {
    assert HasEma(e.indicators, key);
    var i :| && 0 <= i < |e.indicators| && e.indicators[i].name == key && e.indicators[i].state.Ema?
             && EmaNamed(e, key) == e.indicators[i].state.ema;
    MaxWarmUpBounds(e.indicators, |xs|);
    FeedCounts(e.indicators[i].state, xs);
    EmaFeedIsFeed(EmaNamed(e, key), xs);
    assert WarmUp(e.indicators[i].state) <= |xs|;
  }

  /** The fast EMA of these closes strictly below (or above) the slow one. */
  ghost predicate FastBelowSlow(e: EngineState, xs: seq<real>)
    requires AsBuilt(e) && e.params.EmaCrossover?
  {
    Evaluated(e, xs) && EmaOver(e, EmaFast, xs).Some? && EmaOver(e, EmaSlow, xs).Some?
    && EmaOver(e, EmaFast, xs).value < EmaOver(e, EmaSlow, xs).value
  }

  ghost predicate FastAboveSlow(e: EngineState, xs: seq<real>)
    requires AsBuilt(e) && e.params.EmaCrossover?
  {
    Evaluated(e, xs) && EmaOver(e, EmaFast, xs).Some? && EmaOver(e, EmaSlow, xs).Some?
    && EmaOver(e, EmaFast, xs).value > EmaOver(e, EmaSlow, xs).value
  }

  lemma ContextReads(e: EngineState, candle: Candle, side: Option<PositionSide>, xs: seq<real>, ctx: StrategyContext,
                     key: Key)
    requires AsBuilt(e) && ContextOf(e, candle, side, xs, ctx) && key in Keys(e.params)
    ensures key in ctx.indicators && ctx.indicators[key].Scalar? && EmaOver(e, key, xs) == Some(Reading(ctx, key))
  {
  }

  /**
   * An engine as built, after any interleaving of closed bars and forming ticks: `on_tick` buys exactly when the
   * fast EMA of all closes crosses from strictly below the slow one to strictly above it, and sells on the reverse.
   */
  lemma CrossoverEndToEnd(e: EngineState, events: seq<Event>, candle: Candle, side: Option<PositionSide>)
    requires AsBuilt(e) && e.params.EmaCrossover? && ClosedTicks(events) && candle.isClosed
    ensures var signal, before, now := OnTick(Run(e, events), candle, side).1, Closes(events),
                                       Closes(events) + [candle.close];
      && (Acts(signal, Buy) <==> FastBelowSlow(e, before) && FastAboveSlow(e, now))
      && (Acts(signal, Sell) <==> FastAboveSlow(e, before) && FastBelowSlow(e, now))
  {
    hide AsBuilt, ContextsUpTo, ContextOf, EmaOver, DecisionAt, MaxWarmUp, Run, OnTick, Emitted, SignalFor, Closes,
      StackedAt, ClosedOnly, Wired;
    var all, xs := ContextsUpTo(e, events, candle, side), Closes(events);
    ClosedBarSignal(e, events, candle, side);
    WarmUpIsPositive(e);
    if all != [] {
      var n := |all| - 1;
      CrossoverSignals(e.params, all, n);
      EmittedActs(all[n], DecisionAt(e.params, map[], all, n), Buy);
      EmittedActs(all[n], DecisionAt(e.params, map[], all, n), Sell);
      ContextReads(e, candle, side, xs + [candle.close], all[n], EmaFast);
      ContextReads(e, candle, side, xs + [candle.close], all[n], EmaSlow);
      if n > 0 {
        PreviousContext(e, events, candle, side);
        var last := ClosedOnly(events)[|ClosedOnly(events)| - 1];
        ContextReads(e, last.candle, last.side, xs, all[n - 1], EmaFast);
        ContextReads(e, last.candle, last.side, xs, all[n - 1], EmaSlow);
      }
    }
  }

  lemma CrossoverNeverShorts(e: EngineState, events: seq<Event>, candle: Candle, side: Option<PositionSide>)
    requires AsBuilt(e) && e.params.EmaCrossover? && ClosedTicks(events) && candle.isClosed
    ensures !Acts(OnTick(Run(e, events), candle, side).1, OpenShort)
  {
    hide AsBuilt, ContextsUpTo, ContextOf, DecisionAt, MaxWarmUp, Run, OnTick, Emitted, SignalFor, Closes, Evaluated,
      Wired;
    var all := ContextsUpTo(e, events, candle, side);
    ClosedBarSignal(e, events, candle, side);
    if all != [] {
      var n := |all| - 1;
      CrossoverSignals(e.params, all, n);
      EmittedActs(all[n], DecisionAt(e.params, map[], all, n), OpenShort);
    }
  }

  // ---------------------------------------------------------------- MultiEma

  /** The four EMAs of these closes in strictly descending order. */
  ghost predicate StackedOver(e: EngineState, xs: seq<real>)
    requires AsBuilt(e) && e.params.MultiEma?
  {
    var a, b, c, d := EmaOver(e, EmaFast, xs), EmaOver(e, EmaMidFast, xs), EmaOver(e, EmaMidSlow, xs),
                      EmaOver(e, EmaSlow, xs);
    Evaluated(e, xs) && a.Some? && b.Some? && c.Some? && d.Some? && a.value > b.value > c.value > d.value
  }

  lemma StackedContext(e: EngineState, candle: Candle, side: Option<PositionSide>, xs: seq<real>,
                       contexts: seq<StrategyContext>, i: nat)
    requires AsBuilt(e) && e.params.MultiEma? && ClosedContexts(e.params, contexts) && i < |contexts|
    requires ContextOf(e, candle, side, xs, contexts[i]) && Evaluated(e, xs)
    ensures StackedAt(e.params, contexts, i) <==> StackedOver(e, xs)
  {
    ContextReads(e, candle, side, xs, contexts[i], EmaFast);
    ContextReads(e, candle, side, xs, contexts[i], EmaMidFast);
    ContextReads(e, candle, side, xs, contexts[i], EmaMidSlow);
    ContextReads(e, candle, side, xs, contexts[i], EmaSlow);
    hide ContextOf, EmaOver, AsBuilt;
  }

  /**
   * The stack strategy buys exactly when the EMAs of all closes become fully stacked, and sells when they
   * stop being.
   */
  lemma MultiEmaEndToEnd(e: EngineState, events: seq<Event>, candle: Candle, side: Option<PositionSide>)
    requires AsBuilt(e) && e.params.MultiEma? && ClosedTicks(events) && candle.isClosed
    ensures var signal, before, now := OnTick(Run(e, events), candle, side).1, Closes(events),
                                       Closes(events) + [candle.close];
      && (Acts(signal, Buy) <==> Evaluated(e, before) && !StackedOver(e, before) && StackedOver(e, now))
      && (Acts(signal, Sell) <==> StackedOver(e, before) && !StackedOver(e, now))
  {
    hide AsBuilt, ContextsUpTo, ContextOf, EmaOver, DecisionAt, MaxWarmUp, Run, OnTick, Emitted, SignalFor, Closes,
      StackedAt, ClosedOnly, Wired;
    var all, xs := ContextsUpTo(e, events, candle, side), Closes(events);
    ClosedBarSignal(e, events, candle, side);
    WarmUpIsPositive(e);
    if all != [] {
      var n := |all| - 1;
      SignalsMarkTransitions(e.params, all, n);
      EmittedActs(all[n], DecisionAt(e.params, map[], all, n), Buy);
      EmittedActs(all[n], DecisionAt(e.params, map[], all, n), Sell);
      StackedContext(e, candle, side, xs + [candle.close], all, n);
      if n > 0 {
        PreviousContext(e, events, candle, side);
        var last := ClosedOnly(events)[|ClosedOnly(events)| - 1];
        StackedContext(e, last.candle, last.side, xs, all, n - 1);
      }
    }
  }

  // ---------------------------------------------------------------- EmaTrendPullback

  /** What a closed bar contributes to the trend, by the long EMA of all closes up to it. */
  ghost function HistoryBar(e: EngineState, candle: Candle, xs: seq<real>): Bar
    requires AsBuilt(e) && e.params.TrendPullback? && EmaOver(e, EmaLong, xs).Some?
  {
    var emaLong := EmaOver(e, EmaLong, xs).value;
    Bar(e.params.enableTouchReset && MeetsBand(candle, emaLong, e.params.touchSensitivity), Move(candle.close, emaLong))
  }

  /** The bars of a history, from the first one evaluated. */
  ghost function HistoryBars(e: EngineState, closed: seq<Event>): seq<Bar>
    requires AsBuilt(e) && e.params.TrendPullback?
  {
    if closed == [] || !Evaluated(e, Closes(closed)) then []
    else
      ReadsWhenEvaluated(e, EmaLong, Closes(closed));
      HistoryBars(e, closed[..|closed| - 1]) + [HistoryBar(e, closed[|closed| - 1].candle, Closes(closed))]
  }

  lemma HistoryBarsOfLonger(e: EngineState, before: seq<Event>, candle: Candle, side: Option<PositionSide>)
    requires AsBuilt(e) && e.params.TrendPullback?
    ensures var xs := Closes(before) + [candle.close];
      if Evaluated(e, xs)
      then EmaOver(e, EmaLong, xs).Some?
           && HistoryBars(e, before + [Tick(candle, side)]) == HistoryBars(e, before) + [HistoryBar(e, candle, xs)]
      else HistoryBars(e, before + [Tick(candle, side)]) == []
  {
    var closed := before + [Tick(candle, side)];
    assert closed[..|closed| - 1] == before;
    ClosesOfLonger(before, candle, side);
    if Evaluated(e, Closes(closed)) {
      ReadsWhenEvaluated(e, EmaLong, Closes(closed));
    }
  }

  lemma BarOfContext(e: EngineState, candle: Candle, side: Option<PositionSide>, xs: seq<real>, ctx: StrategyContext)
    requires AsBuilt(e) && e.params.TrendPullback? && ContextOf(e, candle, side, xs, ctx)
          && HasReadings(e.params, ctx.indicators)
    ensures EmaOver(e, EmaLong, xs).Some? && BarOf(e.params, ctx) == HistoryBar(e, candle, xs)
  {
    ContextReads(e, candle, side, xs, ctx, EmaLong);
    hide EmaOver, AsBuilt, MeetsBand, Move;
  }

  lemma BarsOfLonger(params: StrategyParams, contexts: seq<StrategyContext>, ctx: StrategyContext)
    requires params.TrendPullback? && HasReadings(params, ctx.indicators)
    requires forall i :: 0 <= i < |contexts| ==> HasReadings(params, contexts[i].indicators)
    ensures Bars(params, contexts + [ctx]) == Bars(params, contexts) + [BarOf(params, ctx)]
  {
  }

  lemma NothingYet(e: EngineState, closed: seq<Event>)
    requires AsBuilt(e) && e.params.TrendPullback?
    ensures !Evaluated(e, Closes(closed)) ==> HistoryBars(e, closed) == []
  {
  }

  /** The bars the strategy counted are those of the history. */
  lemma {:induction false} ContextBarsAreHistoryBars(e: EngineState, closed: seq<Event>)
    requires AsBuilt(e) && e.params.TrendPullback? && AllClosed(closed)
    ensures ClosedContexts(e.params, Contexts(e, closed))
    ensures Bars(e.params, Contexts(e, closed)) == HistoryBars(e, closed)
  {
    EngineRunIsStrategyRun(e, closed);
    if closed != [] {
      var before, last := closed[..|closed| - 1], closed[|closed| - 1];
      assert closed == before + [Tick(last.candle, last.side)];
      ContextBarsAreHistoryBars(e, before);
      ContextsStep(e, before, last);
      AllTicksAreClosed(before);
      HistoryBarsOfLonger(e, before, last.candle, last.side);
      NothingYet(e, before);
      var contexts, all, xs := Contexts(e, before), Contexts(e, closed), Closes(before) + [last.candle.close];
      hide AsBuilt, Contexts, MaxWarmUp, ContextOf, Closes, HistoryBars, HistoryBar, Bars, EmaOver, BarOf, Run,
        SeriesAfter;
      if |all| > |contexts| {
        assert all == contexts + [all[|contexts|]];
        BarOfContext(e, last.candle, last.side, xs, all[|contexts|]);
        BarsOfLonger(e.params, contexts, all[|contexts|]);
      }
    }
  }

  lemma SameTrend(m1: SeriesMap, m2: SeriesMap)
    requires SameCommitted(m1, m2)
    ensures CommittedTrend(m1) == CommittedTrend(m2)
  {
    assert SeriesOf(m1, TrendSide).values == SeriesOf(m2, TrendSide).values;
    assert SeriesOf(m1, ConsecutiveBars).values == SeriesOf(m2, ConsecutiveBars).values;
    assert SeriesOf(m1, ConfirmedTrend).values == SeriesOf(m2, ConfirmedTrend).values;
    hide SeriesOf;
  }

  /** After any interleaving the three counters are those of the closed candles and the long EMA of their closes. */
  lemma CountersEndToEnd(e: EngineState, events: seq<Event>)
    requires AsBuilt(e) && e.params.TrendPullback? && ClosedTicks(events)
    ensures CommittedTrend(Run(e, events).series) == TrendRun(e.params.tickConfirm, HistoryBars(e, ClosedOnly(events)))
  {
    var closed := ClosedOnly(events);
    ClosedOnlyIsClosed(events);
    FormingTicksAreTransparent(e, events);
    SameTrend(Run(e, events).series, Run(e, closed).series);
    EngineRunIsStrategyRun(e, closed);
    ContextBarsAreHistoryBars(e, closed);
    CountersFollowBars(e.params, Contexts(e, closed));
    hide Run, HistoryBars, Contexts, Bars, CommittedTrend, TrendRun, SeriesAfter, ClosedOnly;
  }

  /** The trend the closed candles up to this one confirm. */
  ghost function ConfirmedNow(e: EngineState, events: seq<Event>, candle: Candle, side: Option<PositionSide>): int
    requires AsBuilt(e) && e.params.TrendPullback?
  {
    TrendRun(e.params.tickConfirm, HistoryBars(e, ClosedOnly(events) + [Tick(candle, side)])).confirmed
  }

  /** The closed candle before this one, when it was evaluated. */
  ghost function PreviousCandle(e: EngineState, events: seq<Event>): Option<Candle> {
    var closed := ClosedOnly(events);
    if closed == [] || !Evaluated(e, Closes(events)) then None else Some(closed[|closed| - 1].candle)
  }

  /** A close back above the entry EMA of all closes, after a dip to its band. */
  ghost predicate BouncesLong(e: EngineState, events: seq<Event>, candle: Candle)
    requires AsBuilt(e) && e.params.TrendPullback?
  {
    var ema, prev := EmaOver(e, EmaEntry, Closes(events) + [candle.close]), PreviousCandle(e, events);
    && ema.Some? && candle.close > ema.value && AtMostAbove(candle.low, ema.value, e.params.pullbackSensitivity)
    && (e.params.candleConfirmEntry ==>
          prev.Some? && AtMostAbove(prev.value.low, ema.value, e.params.pullbackSensitivity))
  }

  ghost predicate RejectsShort(e: EngineState, events: seq<Event>, candle: Candle)
    requires AsBuilt(e) && e.params.TrendPullback?
  {
    var ema, prev := EmaOver(e, EmaEntry, Closes(events) + [candle.close]), PreviousCandle(e, events);
    && ema.Some? && candle.close < ema.value && AtMostBelow(candle.high, ema.value, e.params.pullbackSensitivity)
    && (e.params.candleConfirmEntry ==>
          prev.Some? && AtMostBelow(prev.value.high, ema.value, e.params.pullbackSensitivity))
  }

  ghost predicate TouchesLong(e: EngineState, events: seq<Event>, candle: Candle)
    requires AsBuilt(e) && e.params.TrendPullback?
  {
    var ema := EmaOver(e, EmaLong, Closes(events) + [candle.close]);
    ema.Some? && e.params.enableTouchExit && MeetsBand(candle, ema.value, e.params.touchSensitivity)
  }

  lemma ContextIsBar(e: EngineState, candle: Candle, side: Option<PositionSide>, xs: seq<real>, ctx: StrategyContext)
    requires AsBuilt(e) && ContextOf(e, candle, side, xs, ctx)
    ensures ctx.candle == candle && ctx.side == side
  {
  }

  lemma LastPullback(e: EngineState, events: seq<Event>, candle: Candle, side: Option<PositionSide>)
    requires AsBuilt(e) && e.params.TrendPullback? && ClosedTicks(events) && candle.isClosed
    requires Evaluated(e, Closes(events) + [candle.close])
    ensures var all := ContextsUpTo(e, events, candle, side);
      && all != [] && ClosedContexts(e.params, all)
      && ConfirmedAt(e.params, all, |all| - 1) == ConfirmedNow(e, events, candle, side)
      && (PullsBackLong(e.params, all, |all| - 1) <==> BouncesLong(e, events, candle))
      && (PullsBackShort(e.params, all, |all| - 1) <==> RejectsShort(e, events, candle))
      && (ExitsOnTouch(e.params, all[|all| - 1]) <==> TouchesLong(e, events, candle))
      && all[|all| - 1].side == side
  {
    hide AsBuilt, ContextOf, EmaOver, MaxWarmUp, Run, OnTick, Closes, ClosedOnly, AtMostAbove, AtMostBelow, MeetsBand,
      Bars, HistoryBars, TrendRun, Wired, Contexts, Evaluated, Emitted, SignalFor, DecisionAt;
    var all, xs := ContextsUpTo(e, events, candle, side), Closes(events);
    ClosedBarSignal(e, events, candle, side);
    var n := |all| - 1;
    OneMoreClosed(events, candle, side);
    ContextBarsAreHistoryBars(e, ClosedOnly(events) + [Tick(candle, side)]);
    assert all[..n + 1] == all;
    ContextReads(e, candle, side, xs + [candle.close], all[n], EmaEntry);
    ContextReads(e, candle, side, xs + [candle.close], all[n], EmaLong);
    ContextIsBar(e, candle, side, xs + [candle.close], all[n]);
    if n > 0 {
      PreviousContext(e, events, candle, side);
      var last := ClosedOnly(events)[|ClosedOnly(events)| - 1];
      ContextIsBar(e, last.candle, last.side, xs, all[n - 1]);
    }
  }

  /**
   * An engine as built, after any interleaving: the pullback strategy's four signals, each if and only if, from the
   * closed candles, the EMAs of their closes and the side held.
   */
  lemma PullbackEndToEnd(e: EngineState, events: seq<Event>, candle: Candle, side: Option<PositionSide>)
    requires AsBuilt(e) && e.params.TrendPullback? && ClosedTicks(events) && candle.isClosed
    ensures var signal, confirmed := OnTick(Run(e, events), candle, side).1, ConfirmedNow(e, events, candle, side);
      var evaluated := Evaluated(e, Closes(events) + [candle.close]);
      var long := evaluated && confirmed == TREND_UP && BouncesLong(e, events, candle);
      var short := evaluated && confirmed == TREND_DOWN && RejectsShort(e, events, candle);
      var exit := evaluated && !long && !short && TouchesLong(e, events, candle);
      && (Acts(signal, Buy) <==> long) && (Acts(signal, OpenShort) <==> short)
      && (Acts(signal, Sell) <==> exit && side == Some(Long)) && (Acts(signal, Cover) <==> exit && side == Some(Short))
  {
    hide AsBuilt, ContextsUpTo, ContextOf, EmaOver, DecisionAt, MaxWarmUp, Run, OnTick, Emitted, SignalFor, Closes,
      ClosedOnly, Wired, ConfirmedNow, ConfirmedAt, BouncesLong, RejectsShort, TouchesLong, ExitsOnTouch, PullsBackLong,
      PullsBackShort, Evaluated;
    var all := ContextsUpTo(e, events, candle, side);
    ClosedBarSignal(e, events, candle, side);
    if all != [] {
      var n := |all| - 1;
      var decision := DecisionAt(e.params, map[], all, n);
      LastPullback(e, events, candle, side);
      PullbackSignals(e.params, all, n);
      EmittedActs(all[n], decision, Buy);
      EmittedActs(all[n], decision, OpenShort);
      EmittedActs(all[n], decision, Sell);
      EmittedActs(all[n], decision, Cover);
    }
  }
}
