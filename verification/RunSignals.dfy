/** The crossover's and the pullback's signals over a closed-bar run, told from the bars alone. */
module RunSignals {
  import opened Prelude
  import opened Market
  import opened BarSeries
  import opened Indicators
  import opened Strategies
  import opened StrategyProofs
  import opened ClosedRuns
  import opened TrendConfirmation

  // ---------------------------------------------------------------- EmaCrossover

  function Reading(ctx: StrategyContext, key: Key): real
    requires key in ctx.indicators && ctx.indicators[key].Scalar?
  {
    ctx.indicators[key].value
  }

  lemma CrossoverBar(params: StrategyParams, m: SeriesMap, ctx: StrategyContext)
    requires params.EmaCrossover? && HasReadings(params, ctx.indicators) && DefaultHistories(m) && ctx.candle.isClosed
    ensures var (after, decision) := Decide(params, m, ctx);
      var fast, slow := SeriesOf(m, EmaFast).Committed(0), SeriesOf(m, EmaSlow).Committed(0);
      && DefaultHistories(after)
      && SeriesOf(after, EmaFast).Committed(0) == Some(Reading(ctx, EmaFast))
      && SeriesOf(after, EmaSlow).Committed(0) == Some(Reading(ctx, EmaSlow))
      && (decision.action == Buy <==> fast.Some? && slow.Some? && fast.value < slow.value
                                      && Reading(ctx, EmaFast) > Reading(ctx, EmaSlow))
      && (decision.action == Sell <==> fast.Some? && slow.Some? && fast.value > slow.value
                                       && Reading(ctx, EmaFast) < Reading(ctx, EmaSlow))
      && decision.action in {Buy, Sell, Hold}
  {
    var entries := EmaEntries(params, ctx);
    assert entries[0] == (EmaFast, Reading(ctx, EmaFast)) && entries[1] == (EmaSlow, Reading(ctx, EmaSlow));
    TrackAllReads(m, entries, true, 0);
    TrackAllReads(m, entries, true, 1);
    StoredIsCommitted(m, entries, 0);
    StoredIsCommitted(m, entries, 1);
    TrackAllHistories(m, entries, true);
    hide TrackAll, EmaEntries;
  }

  lemma {:induction false} CrossoverAfter(params: StrategyParams, contexts: seq<StrategyContext>)
    requires params.EmaCrossover? && ClosedContexts(params, contexts)
    ensures var m := SeriesAfter(params, map[], contexts);
      && DefaultHistories(m)
      && SeriesOf(m, EmaFast).Committed(0)
         == (if contexts == [] then None else Some(Reading(contexts[|contexts| - 1], EmaFast)))
      && SeriesOf(m, EmaSlow).Committed(0)
         == (if contexts == [] then None else Some(Reading(contexts[|contexts| - 1], EmaSlow)))
  {
    if contexts != [] {
      CrossoverAfter(params, contexts[..|contexts| - 1]);
      CrossoverBar(params, SeriesAfter(params, map[], contexts[..|contexts| - 1]), contexts[|contexts| - 1]);
      hide Decide;
    }
  }

  /**
   * BUY exactly when the fast EMA was strictly below on the bar before and is strictly above now; SELL the
   * other way.
   */
  lemma CrossoverSignals(params: StrategyParams, contexts: seq<StrategyContext>, i: nat)
    requires params.EmaCrossover? && ClosedContexts(params, contexts) && i < |contexts|
    ensures var action := DecisionAt(params, map[], contexts, i).action;
      && (action == Buy <==> i > 0 && Reading(contexts[i - 1], EmaFast) < Reading(contexts[i - 1], EmaSlow)
                             && Reading(contexts[i], EmaFast) > Reading(contexts[i], EmaSlow))
      && (action == Sell <==> i > 0 && Reading(contexts[i - 1], EmaFast) > Reading(contexts[i - 1], EmaSlow)
                              && Reading(contexts[i], EmaFast) < Reading(contexts[i], EmaSlow))
      && action in {Buy, Sell, Hold}
  {
    CrossoverAfter(params, contexts[..i]);
    CrossoverBar(params, SeriesAfter(params, map[], contexts[..i]), contexts[i]);
    hide Decide, SeriesAfter;
  }

  // ---------------------------------------------------------------- EmaTrendPullback

  lemma KeepsLowAndHigh(params: StrategyParams, m: SeriesMap, ctx: StrategyContext)
    requires params.TrendPullback? && HasReadings(params, ctx.indicators) && DefaultHistories(m) && ctx.candle.isClosed
    ensures SeriesOf(Decide(params, m, ctx).0, Low).Committed(0) == Some(ctx.candle.low)
    ensures SeriesOf(Decide(params, m, ctx).0, High).Committed(0) == Some(ctx.candle.high)
  {
    hide TrackAll, TrendAfter, PullbackDecision, EntryConfirmation, Touches;
    var entries := TrendEntries(TrendAfter(params, m, ctx), ctx.candle);
    assert entries[3] == (Low, ctx.candle.low) && entries[4] == (High, ctx.candle.high);
    StoredIsCommitted(m, entries, 3);
    StoredIsCommitted(m, entries, 4);
  }

  /** The previous bar's low and high, as the strategy kept them. */
  lemma KeptLowAndHigh(params: StrategyParams, contexts: seq<StrategyContext>)
    requires params.TrendPullback? && ClosedContexts(params, contexts)
    ensures var m := SeriesAfter(params, map[], contexts);
      && SeriesOf(m, Low).Committed(0) == (if contexts == [] then None else Some(contexts[|contexts| - 1].candle.low))
      && SeriesOf(m, High).Committed(0) == (if contexts == [] then None else Some(contexts[|contexts| - 1].candle.high))
  {
    if contexts != [] {
      var before, last := contexts[..|contexts| - 1], contexts[|contexts| - 1];
      CountersFollowBars(params, before);
      KeepsLowAndHigh(params, SeriesAfter(params, map[], before), last);
      hide Decide;
    }
  }

  /** A close above the entry EMA after dipping to its band, confirmed by the previous bar's low when asked to. */
  ghost predicate PullsBackLong(params: StrategyParams, contexts: seq<StrategyContext>, i: nat)
    requires params.TrendPullback? && ClosedContexts(params, contexts) && i < |contexts|
  {
    var candle, ema := contexts[i].candle, Reading(contexts[i], EmaEntry);
    && candle.close > ema && AtMostAbove(candle.low, ema, params.pullbackSensitivity)
    && (params.candleConfirmEntry ==>
          i > 0 && AtMostAbove(contexts[i - 1].candle.low, ema, params.pullbackSensitivity))
  }

  ghost predicate PullsBackShort(params: StrategyParams, contexts: seq<StrategyContext>, i: nat)
    requires params.TrendPullback? && ClosedContexts(params, contexts) && i < |contexts|
  {
    var candle, ema := contexts[i].candle, Reading(contexts[i], EmaEntry);
    && candle.close < ema && AtMostBelow(candle.high, ema, params.pullbackSensitivity)
    && (params.candleConfirmEntry ==>
          i > 0 && AtMostBelow(contexts[i - 1].candle.high, ema, params.pullbackSensitivity))
  }

  /** The trend confirmed by the bars up to and including bar `i`. */
  ghost function ConfirmedAt(params: StrategyParams, contexts: seq<StrategyContext>, i: nat): int
    requires params.TrendPullback? && ClosedContexts(params, contexts) && i < |contexts|
  {
    TrendRun(params.tickConfirm, Bars(params, contexts[..i + 1])).confirmed
  }

  ghost predicate ExitsOnTouch(params: StrategyParams, ctx: StrategyContext)
    requires params.TrendPullback? && HasReadings(params, ctx.indicators)
  {
    params.enableTouchExit && MeetsBand(ctx.candle, Reading(ctx, EmaLong), params.touchSensitivity)
  }

  /** The two entry conditions of one bar, given the low or high kept from the bar before. */
  ghost predicate DipsLong(params: StrategyParams, ctx: StrategyContext, prevLow: Option<real>)
    requires params.TrendPullback? && HasReadings(params, ctx.indicators)
  {
    var ema := Reading(ctx, EmaEntry);
    && ctx.candle.close > ema && AtMostAbove(ctx.candle.low, ema, params.pullbackSensitivity)
    && (params.candleConfirmEntry ==> prevLow.Some? && AtMostAbove(prevLow.value, ema, params.pullbackSensitivity))
  }

  ghost predicate DipsShort(params: StrategyParams, ctx: StrategyContext, prevHigh: Option<real>)
    requires params.TrendPullback? && HasReadings(params, ctx.indicators)
  {
    var ema := Reading(ctx, EmaEntry);
    && ctx.candle.close < ema && AtMostBelow(ctx.candle.high, ema, params.pullbackSensitivity)
    && (params.candleConfirmEntry ==> prevHigh.Some? && AtMostBelow(prevHigh.value, ema, params.pullbackSensitivity))
  }

  lemma PullbackBar(params: StrategyParams, m: SeriesMap, ctx: StrategyContext)
    requires params.TrendPullback? && HasReadings(params, ctx.indicators)
    ensures var action, confirmed := Decide(params, m, ctx).1.action, TrendAfter(params, m, ctx).confirmed;
      var long, short := confirmed == TREND_UP && DipsLong(params, ctx, SeriesOf(m, Low).Committed(0)),
                         confirmed == TREND_DOWN && DipsShort(params, ctx, SeriesOf(m, High).Committed(0));
      && (action == Buy <==> long) && (action == OpenShort <==> short)
      && (action == Sell <==> !long && !short && ExitsOnTouch(params, ctx) && ctx.side == Some(Long))
      && (action == Cover <==> !long && !short && ExitsOnTouch(params, ctx) && ctx.side == Some(Short))
  {
    hide TrackAll, TrendAfter, Band, Touches, SeriesOf, AtMostAbove, AtMostBelow, MeetsBand;
    var low, high, ema := SeriesOf(m, Low).Committed(0), SeriesOf(m, High).Committed(0), Reading(ctx, EmaEntry);
    TouchMeetsBand(params, ctx.candle, Reading(ctx, EmaLong));
    BandIsPercent(ctx.candle.low, ema, params.pullbackSensitivity);
    BandIsPercent(ctx.candle.high, ema, params.pullbackSensitivity);
    if low.Some? { BandIsPercent(low.value, ema, params.pullbackSensitivity); }
    if high.Some? { BandIsPercent(high.value, ema, params.pullbackSensitivity); }
  }

  /** Every signal of a closed-bar run, from the confirmed trend, this bar, the bar before and the side held. */
  lemma PullbackSignals(params: StrategyParams, contexts: seq<StrategyContext>, i: nat)
    requires params.TrendPullback? && ClosedContexts(params, contexts) && i < |contexts|
    ensures var action, confirmed := DecisionAt(params, map[], contexts, i).action, ConfirmedAt(params, contexts, i);
      var long, short := confirmed == TREND_UP && PullsBackLong(params, contexts, i),
                         confirmed == TREND_DOWN && PullsBackShort(params, contexts, i);
      && (action == Buy <==> long) && (action == OpenShort <==> short)
      && (action == Sell <==> !long && !short && ExitsOnTouch(params, contexts[i]) && contexts[i].side == Some(Long))
      && (action == Cover <==> !long && !short && ExitsOnTouch(params, contexts[i]) && contexts[i].side == Some(Short))
  {
    hide SeriesAfter, TrendAfter, TrendRun, Bars, AtMostAbove, AtMostBelow, Decide, ExitsOnTouch;
    TrendAtBar(params, contexts, i);
    KeptLowAndHigh(params, contexts[..i]);
    PullbackBar(params, SeriesAfter(params, map[], contexts[..i]), contexts[i]);
  }
}
