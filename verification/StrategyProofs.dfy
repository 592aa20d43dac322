/** A decision depends on committed history and the bar at hand only, never on earlier tentative ticks. */
module StrategyProofs {
  import opened Prelude
  import opened Market
  import opened BarSeries
  import opened Indicators
  import opened Strategies

  function WithClosed(ctx: StrategyContext, isClosed: bool): StrategyContext {
    ctx.(candle := ctx.candle.(isClosed := isClosed))
  }

  ghost predicate DistinctKeys(entries: seq<(Key, real)>) {
    forall i, j :: 0 <= i < j < |entries| ==> entries[i].0 != entries[j].0
  }

  lemma TrackEffect(m: SeriesMap, key: Key, value: real, isClosed: bool, k: Key)
    ensures SeriesOf(Track(m, key, value, isClosed), k)
         == if k == key then Tracked(SeriesOf(m, key), Some(value), isClosed) else SeriesOf(m, k)
  {
  }

  lemma {:induction false} UntrackedKeysStay(m: SeriesMap, entries: seq<(Key, real)>, isClosed: bool, k: Key)
    requires forall i :: 0 <= i < |entries| ==> entries[i].0 != k
    ensures SeriesOf(TrackAll(m, entries, isClosed), k) == SeriesOf(m, k)
  {
    if entries != [] {
      UntrackedKeysStay(m, entries[..|entries| - 1], isClosed, k);
    }
  }

  /**
   * After a bar is tracked, closed or not, offset 0 reads this bar and offset 1 reads the last
   * bar that closed: nothing any earlier tentative tick poked can be seen.
   */
  lemma {:induction false} TrackAllReads(m: SeriesMap, entries: seq<(Key, real)>, isClosed: bool, i: nat)
    requires DistinctKeys(entries) && i < |entries| && DefaultHistories(m)
    ensures var s := SeriesOf(TrackAll(m, entries, isClosed), entries[i].0);
      s.At(0) == Some(entries[i].1) && s.At(1) == SeriesOf(m, entries[i].0).Committed(0)
  {
    var last := |entries| - 1;
    var middle := TrackAll(m, entries[..last], isClosed);
    TrackEffect(middle, entries[last].0, entries[last].1, isClosed, entries[i].0);
    if i == last {
      UntrackedKeysStay(m, entries[..last], isClosed, entries[last].0);
      var s := SeriesOf(m, entries[last].0);
      TrackedReads(s, s, Some(entries[last].1), isClosed, isClosed);
    } else {
      TrackAllReads(m, entries[..last], isClosed, i);
    }
  }

  lemma {:induction false} TrackAllHistories(m: SeriesMap, entries: seq<(Key, real)>, isClosed: bool)
    requires DefaultHistories(m)
    ensures DefaultHistories(TrackAll(m, entries, isClosed))
  {
    if entries != [] {
      TrackAllHistories(m, entries[..|entries| - 1], isClosed);
    }
  }

  lemma {:induction false} FormingKeepsCommitted(m: SeriesMap, entries: seq<(Key, real)>)
    requires DefaultHistories(m)
    ensures DefaultHistories(TrackAll(m, entries, false)) && SameCommitted(m, TrackAll(m, entries, false))
  {
    if entries != [] {
      var (key, value) := entries[|entries| - 1];
      var middle := TrackAll(m, entries[..|entries| - 1], false);
      FormingKeepsCommitted(m, entries[..|entries| - 1]);
      forall k
        ensures SeriesOf(Track(middle, key, value, false), k).values == SeriesOf(m, k).values
        ensures SeriesOf(Track(middle, key, value, false), k).history == SeriesOf(m, k).history
      {
        TrackEffect(middle, key, value, false, k);
      }
    }
  }

  lemma {:induction false} ClosedStaysInStep(m1: SeriesMap, m2: SeriesMap, entries: seq<(Key, real)>)
    requires SameCommitted(m1, m2) && DefaultHistories(m1) && DefaultHistories(m2)
    ensures var a1, a2 := TrackAll(m1, entries, true), TrackAll(m2, entries, true);
      SameCommitted(a1, a2) && DefaultHistories(a1) && DefaultHistories(a2)
  {
    if entries != [] {
      var (key, value) := entries[|entries| - 1];
      var n1, n2 := TrackAll(m1, entries[..|entries| - 1], true), TrackAll(m2, entries[..|entries| - 1], true);
      ClosedStaysInStep(m1, m2, entries[..|entries| - 1]);
      forall k
        ensures SeriesOf(Track(n1, key, value, true), k).values == SeriesOf(Track(n2, key, value, true), k).values
        ensures SeriesOf(Track(n1, key, value, true), k).history == SeriesOf(Track(n2, key, value, true), k).history
      {
        TrackEffect(n1, key, value, true, k);
        TrackEffect(n2, key, value, true, k);
      }
    }
  }

  /** Closed bars keep the two sides in step; a forming bar leaves its own side's history alone. */
  ghost predicate Twins(m1: SeriesMap, m2: SeriesMap, a1: SeriesMap, a2: SeriesMap, closed1: bool, closed2: bool) {
    && (closed1 == closed2 ==> SameCommitted(a1, a2))
    && (!closed1 ==> SameCommitted(m1, a1))
    && (!closed2 ==> SameCommitted(m2, a2))
    && DefaultHistories(a1) && DefaultHistories(a2)
  }

  lemma TrackAllTwins(m1: SeriesMap, m2: SeriesMap, entries: seq<(Key, real)>, closed1: bool, closed2: bool)
    requires SameCommitted(m1, m2) && DefaultHistories(m1) && DefaultHistories(m2)
    ensures Twins(m1, m2, TrackAll(m1, entries, closed1), TrackAll(m2, entries, closed2), closed1, closed2)
  {
    FormingKeepsCommitted(m1, entries);
    FormingKeepsCommitted(m2, entries);
    ClosedStaysInStep(m1, m2, entries);
  }

  lemma TrackAllReadsAlike(m1: SeriesMap, m2: SeriesMap, entries: seq<(Key, real)>, closed1: bool, closed2: bool,
                           i: nat)
    requires DistinctKeys(entries) && i < |entries|
    requires SameCommitted(m1, m2) && DefaultHistories(m1) && DefaultHistories(m2)
    ensures var s1, s2 := SeriesOf(TrackAll(m1, entries, closed1), entries[i].0),
                          SeriesOf(TrackAll(m2, entries, closed2), entries[i].0);
      s1.At(0) == s2.At(0) && s1.At(1) == s2.At(1)
  {
    TrackAllReads(m1, entries, closed1, i);
    TrackAllReads(m2, entries, closed2, i);
  }

  lemma CrossoverTwins(params: StrategyParams, m1: SeriesMap, m2: SeriesMap, ctx: StrategyContext, closed2: bool)
    requires params.EmaCrossover? && HasReadings(params, ctx.indicators)
    requires SameCommitted(m1, m2) && DefaultHistories(m1) && DefaultHistories(m2)
    ensures var (a1, d1) := DecideCrossover(params, m1, ctx);
      var (a2, d2) := DecideCrossover(params, m2, WithClosed(ctx, closed2));
      d1 == d2 && Twins(m1, m2, a1, a2, ctx.candle.isClosed, closed2)
  {
    var entries := EmaEntries(params, ctx);
    TrackAllTwins(m1, m2, entries, ctx.candle.isClosed, closed2);
    TrackAllReadsAlike(m1, m2, entries, ctx.candle.isClosed, closed2, 0);
    TrackAllReadsAlike(m1, m2, entries, ctx.candle.isClosed, closed2, 1);
    assert entries[0].0 == EmaFast && entries[1].0 == EmaSlow;
    assert EmaEntries(params, WithClosed(ctx, closed2)) == entries;
  }

  lemma CrossesAlike(s1: SeriesState, s2: SeriesState, level: SeriesState)
    requires s1.At(0) == s2.At(0) && s1.At(1) == s2.At(1)
    ensures CrossedAbove(s1, level) == CrossedAbove(s2, level) && CrossedBelow(s1, level) == CrossedBelow(s2, level)
  {
  }

  lemma StackedAlike(params: StrategyParams, m1: SeriesMap, m2: SeriesMap, ctx: StrategyContext, closed2: bool)
    requires params.MultiEma? && HasReadings(params, ctx.indicators)
    requires SameCommitted(m1, m2) && DefaultHistories(m1) && DefaultHistories(m2)
    ensures IsStacked(TrackAll(m1, EmaEntries(params, ctx), ctx.candle.isClosed))
         == IsStacked(TrackAll(m2, EmaEntries(params, ctx), closed2))
  {
    var entries := EmaEntries(params, ctx);
    assert entries[0].0 == EmaFast && entries[1].0 == EmaMidFast;
    assert entries[2].0 == EmaMidSlow && entries[3].0 == EmaSlow;
    forall i | 0 <= i < 4
      ensures SeriesOf(TrackAll(m1, entries, ctx.candle.isClosed), entries[i].0).At(0)
           == SeriesOf(TrackAll(m2, entries, closed2), entries[i].0).At(0)
    {
      TrackAllReadsAlike(m1, m2, entries, ctx.candle.isClosed, closed2, i);
    }
  }

  /** The stack's five series are recorded as one list: the four EMAs, then the flag. */
  function StackEntries(params: StrategyParams, m: SeriesMap, ctx: StrategyContext): seq<(Key, real)>
    requires params.MultiEma? && HasReadings(params, ctx.indicators)
  {
    var entries := EmaEntries(params, ctx);
    entries + [(Stacked, if IsStacked(TrackAll(m, entries, ctx.candle.isClosed)) then 1.0 else 0.0)]
  }

  lemma StackIsOneList(params: StrategyParams, m: SeriesMap, ctx: StrategyContext)
    requires params.MultiEma? && HasReadings(params, ctx.indicators)
    ensures var entries := StackEntries(params, m, ctx);
      var after := TrackAll(m, entries, ctx.candle.isClosed);
      && DistinctKeys(entries) && |entries| == 5 && entries[4].0 == Stacked
      && DecideMultiEma(params, m, ctx)
         == (after, CrossDecision(SeriesOf(after, Stacked), ConstantState(STACKED_LEVEL, DEFAULT_HISTORY),
                                  params.name + " fully stacked", params.name + " stacking broken"))
  {
    hide IsStacked, SeriesOf, CrossDecision, ConstantState;
    assert StackEntries(params, m, ctx)[..4] == EmaEntries(params, ctx);
  }

  lemma StackEntriesAlike(params: StrategyParams, m1: SeriesMap, m2: SeriesMap, ctx: StrategyContext, closed2: bool)
    requires params.MultiEma? && HasReadings(params, ctx.indicators)
    requires SameCommitted(m1, m2) && DefaultHistories(m1) && DefaultHistories(m2)
    ensures StackEntries(params, m2, WithClosed(ctx, closed2)) == StackEntries(params, m1, ctx)
  {
    hide IsStacked, TrackAll, SameCommitted, DefaultHistories;
    StackedAlike(params, m1, m2, ctx, closed2);
    assert EmaEntries(params, WithClosed(ctx, closed2)) == EmaEntries(params, ctx);
  }

  lemma SameCrossDecision(s1: SeriesState, s2: SeriesState, level: SeriesState, name: string)
    requires CrossedAbove(s1, level) == CrossedAbove(s2, level) && CrossedBelow(s1, level) == CrossedBelow(s2, level)
    ensures CrossDecision(s1, level, name + " fully stacked", name + " stacking broken")
         == CrossDecision(s2, level, name + " fully stacked", name + " stacking broken")
  {
    hide CrossedAbove, CrossedBelow;
  }

  lemma MultiEmaTwins(params: StrategyParams, m1: SeriesMap, m2: SeriesMap, ctx: StrategyContext, closed2: bool)
    requires params.MultiEma? && HasReadings(params, ctx.indicators)
    requires SameCommitted(m1, m2) && DefaultHistories(m1) && DefaultHistories(m2)
    ensures var (a1, d1) := DecideMultiEma(params, m1, ctx);
      var (a2, d2) := DecideMultiEma(params, m2, WithClosed(ctx, closed2));
      d1 == d2 && Twins(m1, m2, a1, a2, ctx.candle.isClosed, closed2)
  {
    hide DecideMultiEma, StackEntries, TrackAll, CrossDecision, ConstantState, SeriesOf, IsStacked, EmaEntries,
      SameCommitted, DefaultHistories, DistinctKeys, Twins;
    var c1, all := ctx.candle.isClosed, StackEntries(params, m1, ctx);
    StackEntriesAlike(params, m1, m2, ctx, closed2);
    StackIsOneList(params, m1, ctx);
    StackIsOneList(params, m2, WithClosed(ctx, closed2));
    TrackAllTwins(m1, m2, all, c1, closed2);
    TrackAllReadsAlike(m1, m2, all, c1, closed2, 4);
    CrossesAlike(SeriesOf(TrackAll(m1, all, c1), Stacked), SeriesOf(TrackAll(m2, all, closed2), Stacked),
                 ConstantState(STACKED_LEVEL, DEFAULT_HISTORY));
    SameCrossDecision(SeriesOf(TrackAll(m1, all, c1), Stacked), SeriesOf(TrackAll(m2, all, closed2), Stacked),
                      ConstantState(STACKED_LEVEL, DEFAULT_HISTORY), params.name);
  }

  lemma PullbackTwins(params: StrategyParams, m1: SeriesMap, m2: SeriesMap, ctx: StrategyContext, closed2: bool)
    requires params.TrendPullback? && HasReadings(params, ctx.indicators)
    requires SameCommitted(m1, m2) && DefaultHistories(m1) && DefaultHistories(m2)
    ensures var (a1, d1) := DecidePullback(params, m1, ctx);
      var (a2, d2) := DecidePullback(params, m2, WithClosed(ctx, closed2));
      d1 == d2 && Twins(m1, m2, a1, a2, ctx.candle.isClosed, closed2)
  {
    assert CommittedTrend(m1) == CommittedTrend(m2);
    var trend := TrendAfter(params, m1, ctx);
    TrackAllTwins(m1, m2, TrendEntries(trend, ctx.candle), ctx.candle.isClosed, closed2);
  }

  /**
   * The same bar decided from the same committed history gives the same decision whether it is
   * closed or forming; only a closed bar advances committed history.
   */
  lemma DecisionReadsCommittedHistory(params: StrategyParams, m1: SeriesMap, m2: SeriesMap, ctx: StrategyContext,
                                      closed2: bool)
    requires HasReadings(params, ctx.indicators)
    requires SameCommitted(m1, m2) && DefaultHistories(m1) && DefaultHistories(m2)
    ensures var (a1, d1) := Decide(params, m1, ctx);
      var (a2, d2) := Decide(params, m2, WithClosed(ctx, closed2));
      d1 == d2 && Twins(m1, m2, a1, a2, ctx.candle.isClosed, closed2)
  {
    match params
    case EmaCrossover(_) => CrossoverTwins(params, m1, m2, ctx, closed2);
    case MultiEma(_) => MultiEmaTwins(params, m1, m2, ctx, closed2);
    case TrendPullback(_, _, _, _, _, _) => PullbackTwins(params, m1, m2, ctx, closed2);
  }

  // ---------------------------------------------------------------- what is kept, and what is said

  /** A strategy's series, from the first bar on: the last sixteen closed values, newest first. */
  lemma SeriesKeepsSixteen(key: Key, column: seq<Option<real>>, offset: nat)
    ensures PushAll(SeriesOf(map[], key), column).Committed(offset)
         == if offset < |column| && offset < 16 then column[|column| - 1 - offset] else None
  {
    CommittedIsHistory(16, column, offset);
  }

  /** A series' newest value, tentative or not, with the last closed one before it. */
  ghost predicate Shows(after: SeriesMap, before: SeriesMap, key: Key, value: real) {
    SeriesOf(after, key).At(0) == Some(value) && SeriesOf(after, key).At(1) == SeriesOf(before, key).Committed(0)
  }

  lemma CrossoverShows(params: StrategyParams, m: SeriesMap, ctx: StrategyContext)
    requires params.EmaCrossover? && HasReadings(params, ctx.indicators) && DefaultHistories(m)
    ensures var after := DecideCrossover(params, m, ctx).0;
      Shows(after, m, EmaFast, ctx.indicators[EmaFast].value) && Shows(after, m, EmaSlow, ctx.indicators[EmaSlow].value)
  {
    hide TrackAll, CrossDecision, SeriesOf;
    var entries := EmaEntries(params, ctx);
    TrackAllReads(m, entries, ctx.candle.isClosed, 0);
    TrackAllReads(m, entries, ctx.candle.isClosed, 1);
  }

  lemma StackShows(params: StrategyParams, m: SeriesMap, ctx: StrategyContext)
    requires params.MultiEma? && HasReadings(params, ctx.indicators) && DefaultHistories(m)
    ensures var after := DecideMultiEma(params, m, ctx).0;
      && Shows(after, m, EmaFast, ctx.indicators[EmaFast].value)
      && Shows(after, m, EmaMidFast, ctx.indicators[EmaMidFast].value)
      && Shows(after, m, EmaMidSlow, ctx.indicators[EmaMidSlow].value)
      && Shows(after, m, EmaSlow, ctx.indicators[EmaSlow].value)
  {
    hide TrackAll, CrossDecision, IsStacked, ConstantState, SeriesOf, DecideMultiEma;
    var entries := StackEntries(params, m, ctx);
    StackIsOneList(params, m, ctx);
    TrackAllReads(m, entries, ctx.candle.isClosed, 0);
    TrackAllReads(m, entries, ctx.candle.isClosed, 1);
    TrackAllReads(m, entries, ctx.candle.isClosed, 2);
    TrackAllReads(m, entries, ctx.candle.isClosed, 3);
  }

  lemma PullbackShows(params: StrategyParams, m: SeriesMap, ctx: StrategyContext)
    requires params.TrendPullback? && HasReadings(params, ctx.indicators) && DefaultHistories(m)
    ensures var after := DecidePullback(params, m, ctx).0;
      Shows(after, m, Low, ctx.candle.low) && Shows(after, m, High, ctx.candle.high)
  {
    hide TrackAll, TrendAfter, Touches, EntryConfirmation, PullbackDecision, SeriesOf;
    var entries := TrendEntries(TrendAfter(params, m, ctx), ctx.candle);
    TrackAllReads(m, entries, ctx.candle.isClosed, 3);
    TrackAllReads(m, entries, ctx.candle.isClosed, 4);
  }

  /** After a bar, closed or still forming, each series shows this bar's value in front of its closed history. */
  lemma SeriesShowTheBar(params: StrategyParams, m: SeriesMap, ctx: StrategyContext)
    requires HasReadings(params, ctx.indicators) && DefaultHistories(m)
    ensures var after := Decide(params, m, ctx).0;
      && (!params.TrendPullback? ==> forall k :: k in Keys(params) ==> Shows(after, m, k, ctx.indicators[k].value))
      && (params.TrendPullback? ==> Shows(after, m, Low, ctx.candle.low) && Shows(after, m, High, ctx.candle.high))
  {
    hide DecideCrossover, DecideMultiEma, DecidePullback, Shows;
    match params
    case EmaCrossover(_) => CrossoverShows(params, m, ctx);
    case MultiEma(_) => StackShows(params, m, ctx);
    case TrendPullback(_, _, _, _, _, _) => PullbackShows(params, m, ctx);
  }

  /** The reason that goes with each action; an exit of either side names the long one. */
  lemma ReasonsSayWhy(params: StrategyParams, m: SeriesMap, ctx: StrategyContext)
    requires HasReadings(params, ctx.indicators)
    ensures var d := Decide(params, m, ctx).1;
      match params
      case EmaCrossover(name) =>
        && (d.action == Buy ==> d.reason == name + " crossed above")
        && (d.action == Sell ==> d.reason == name + " crossed below")
      case MultiEma(name) =>
        && (d.action == Buy ==> d.reason == name + " fully stacked")
        && (d.action == Sell ==> d.reason == name + " stacking broken")
      case TrendPullback(_, _, _, _, _, _) =>
        && (d.action == Buy ==> d.reason == "LONG Pullback EMA")
        && (d.action == OpenShort ==> d.reason == "SHORT Pullback EMA")
        && (d.action == Sell || d.action == Cover ==> d.reason == "Exit Touch EMA Long")
  {
    hide TrackAll, SeriesOf, TrendAfter, EntryConfirmation, Touches, Band, CrossedAbove, CrossedBelow, IsStacked;
  }
}
