/** What the engine hands its strategy is each indicator's reading of every closed bar so far. */
module EngineReadings {
  import opened Prelude
  import opened Market
  import opened Indicators
  import opened Strategies
  import opened Engine

  /** The closes of the closed bars, whatever forming ticks came between. */
  function Closes(events: seq<Event>): seq<real> {
    if events == [] then []
    else
      var last := events[|events| - 1];
      Closes(events[..|events| - 1]) + if last.Tick? then [last.candle.close] else []
  }

  /** Every indicator has been fed exactly these closes, under its own name. */
  ghost predicate FedAlike(start: seq<NamedIndicator>, now: seq<NamedIndicator>, xs: seq<real>) {
    |now| == |start| && forall i :: 0 <= i < |start| ==> now[i] == Named(start[i].name, Feed(start[i].state, xs))
  }

  lemma FeedOfLonger(s: IndicatorState, xs: seq<real>, x: real)
    ensures Feed(s, xs + [x]) == Update(Feed(s, xs), x).0
  {
    assert (xs + [x])[..|xs|] == xs;
  }

  lemma FedOneMore(start: seq<NamedIndicator>, now: seq<NamedIndicator>, xs: seq<real>, x: real)
    requires FedAlike(start, now, xs)
    ensures FedAlike(start, NextIndicators(now, x), xs + [x])
  {
    forall i | 0 <= i < |start|
      ensures NextIndicators(now, x)[i] == Named(start[i].name, Feed(start[i].state, xs + [x]))
    {
      FeedOfLonger(start[i].state, xs, x);
    }
    hide Update, Feed;
  }

  /** After any run each indicator stands where feeding it the closed bars' closes, in order, leaves it. */
  lemma {:induction false} RunFeedsTheCloses(e: EngineState, events: seq<Event>)
    requires Wired(e.params, e.indicators)
    ensures FedAlike(e.indicators, Run(e, events).indicators, Closes(events))
  {
    hide Decide, NextIndicators, Update;
    if events != [] {
      var before, last := events[..|events| - 1], events[|events| - 1];
      RunFeedsTheCloses(e, before);
      StepIndicators(Run(e, before), last);
      hide FedAlike;
      if last.Tick? {
        FedOneMore(e.indicators, Run(e, before).indicators, Closes(before), last.candle.close);
      } else {
        assert Closes(events) == Closes(before);
      }
    }
  }

  lemma {:induction false} EmaFeedIsFeed(s: EmaState, xs: seq<real>)
    ensures Feed(Ema(s), xs) == Ema(EmaFeed(s, xs))
  {
    if xs != [] {
      EmaFeedIsFeed(s, xs[..|xs| - 1]);
    }
  }

  /** One more value under an EMA's name: the reading the update returns is the longer feed's. */
  lemma UpdateReadsTheEma(s: EmaState, xs: seq<real>, x: real)
    ensures var reading := Update(Feed(Ema(s), xs), x).1;
      reading == ScalarOf(EmaFeed(s, xs + [x]).ema)
  {
    EmaFeedIsFeed(s, xs);
    assert (xs + [x])[..|xs|] == xs;
  }

  /**
   * When a closed bar is evaluated after any run, the reading under an EMA's name is that EMA of every
   * closed bar's close, this one included: no bar is skipped and no forming tick counts.
   */
  lemma EvaluatedReadingsAreEmas(e: EngineState, events: seq<Event>, candle: Candle, i: nat)
    requires Wired(e.params, e.indicators) && i < |e.indicators| && e.indicators[i].state.Ema?
    requires Collect(Updates(Run(e, events).indicators, candle.close)).Some?
    ensures var readings := Collect(Updates(Run(e, events).indicators, candle.close)).value;
      var ema := EmaFeed(e.indicators[i].state.ema, Closes(events) + [candle.close]).ema;
      && e.indicators[i].name in readings
      && ema.Some? && readings[e.indicators[i].name] == Scalar(ema.value)
  {
    hide Collect, Feed, EmaFeed, Update, Run, Closes;
    var now := Run(e, events).indicators;
    RunFeedsTheCloses(e, events);
    var s, xs := e.indicators[i].state.ema, Closes(events);
    UpdateReadsTheEma(s, xs, candle.close);
    var updates := Updates(now, candle.close);
    assert updates[i] == (e.indicators[i].name, ScalarOf(EmaFeed(s, xs + [candle.close]).ema));
    CollectHolds(updates, i);
  }
}
