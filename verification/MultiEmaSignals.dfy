/** Over a closed-bar run, MultiEma buys when the stack forms and sells when it breaks, in strict alternation. */
module MultiEmaSignals {
  import opened Prelude
  import opened Market
  import opened BarSeries
  import opened Indicators
  import opened Strategies
  import opened StrategyProofs
  import opened ClosedRuns

  /** The four readings are in strictly descending order on bar `i`. */
  predicate StackedAt(params: StrategyParams, contexts: seq<StrategyContext>, i: nat)
    requires params.MultiEma? && i < |contexts| && HasReadings(params, contexts[i].indicators)
  {
    var v := contexts[i].indicators;
    v[EmaFast].value > v[EmaMidFast].value > v[EmaMidSlow].value > v[EmaSlow].value
  }

  lemma StackedReading(params: StrategyParams, m: SeriesMap, ctx: StrategyContext)
    requires params.MultiEma? && HasReadings(params, ctx.indicators) && DefaultHistories(m)
    ensures IsStacked(TrackAll(m, EmaEntries(params, ctx), ctx.candle.isClosed)) == StackedAt(params, [ctx], 0)
  {
    var entries := EmaEntries(params, ctx);
    assert entries[0] == (EmaFast, ctx.indicators[EmaFast].value);
    assert entries[1] == (EmaMidFast, ctx.indicators[EmaMidFast].value);
    assert entries[2] == (EmaMidSlow, ctx.indicators[EmaMidSlow].value);
    assert entries[3] == (EmaSlow, ctx.indicators[EmaSlow].value);
    forall i | 0 <= i < 4
      ensures SeriesOf(TrackAll(m, entries, ctx.candle.isClosed), entries[i].0).At(0) == Some(entries[i].1)
    {
      TrackAllReads(m, entries, ctx.candle.isClosed, i);
    }
  }

  function Flag(stacked: bool): real {
    if stacked then 1.0 else 0.0
  }

  /** The flag is 0 or 1, the level one half: it is crossed exactly when the flag changes. */
  lemma FlagCrossings(s: SeriesState, now: bool, prev: Option<real>)
    requires s.At(0) == Some(Flag(now)) && s.At(1) == prev
    requires prev.Some? ==> prev.value == Flag(true) || prev.value == Flag(false)
    ensures var level := ConstantState(STACKED_LEVEL, DEFAULT_HISTORY);
      && (CrossedAbove(s, level) <==> now && prev == Some(Flag(false)))
      && (CrossedBelow(s, level) <==> !now && prev == Some(Flag(true)))
  {
    ConstantSeriesIsFlat(STACKED_LEVEL, DEFAULT_HISTORY, 0);
    ConstantSeriesIsFlat(STACKED_LEVEL, DEFAULT_HISTORY, 1);
  }

  lemma OneBar(params: StrategyParams, m: SeriesMap, ctx: StrategyContext)
    requires params.MultiEma? && HasReadings(params, ctx.indicators) && DefaultHistories(m) && ctx.candle.isClosed
    requires var prev := SeriesOf(m, Stacked).Committed(0);
      prev.Some? ==> prev.value == Flag(true) || prev.value == Flag(false)
    ensures var (after, decision) := Decide(params, m, ctx);
      var now, prev := StackedAt(params, [ctx], 0), SeriesOf(m, Stacked).Committed(0);
      && DefaultHistories(after) && SeriesOf(after, Stacked).Committed(0) == Some(Flag(now))
      && (decision.action == Buy <==> now && prev == Some(Flag(false)))
      && (decision.action == Sell <==> !now && prev == Some(Flag(true)))
      && decision.action in {Buy, Sell, Hold}
  {
    StackedReading(params, m, ctx);
    var entries := EmaEntries(params, ctx);
    var all := entries + [(Stacked, Flag(StackedAt(params, [ctx], 0)))];
    assert all[..4] == entries;
    TrackAllReads(m, all, true, 4);
    TrackAllHistories(m, all, true);
    var after := TrackAll(m, all, true);
    assert after == Decide(params, m, ctx).0;
    FlagCrossings(SeriesOf(after, Stacked), StackedAt(params, [ctx], 0), SeriesOf(m, Stacked).Committed(0));
  }

  /** The flag the last evaluated bar left behind. */
  lemma {:induction false} FlagAfter(params: StrategyParams, contexts: seq<StrategyContext>)
    requires params.MultiEma? && ClosedContexts(params, contexts)
    ensures DefaultHistories(SeriesAfter(params, map[], contexts))
    ensures SeriesOf(SeriesAfter(params, map[], contexts), Stacked).Committed(0)
         == if contexts == [] then None else Some(Flag(StackedAt(params, contexts, |contexts| - 1)))
  {
    if contexts != [] {
      FlagAfter(params, contexts[..|contexts| - 1]);
      OneBar(params, SeriesAfter(params, map[], contexts[..|contexts| - 1]), contexts[|contexts| - 1]);
    }
  }

  /** BUY on exactly the bars the stack becomes complete, SELL on exactly the bars it breaks. */
  lemma SignalsMarkTransitions(params: StrategyParams, contexts: seq<StrategyContext>, i: nat)
    requires params.MultiEma? && ClosedContexts(params, contexts) && i < |contexts|
    ensures var action := DecisionAt(params, map[], contexts, i).action;
      && (action == Buy <==> i > 0 && StackedAt(params, contexts, i) && !StackedAt(params, contexts, i - 1))
      && (action == Sell <==> i > 0 && !StackedAt(params, contexts, i) && StackedAt(params, contexts, i - 1))
      && action in {Buy, Sell, Hold}
  {
    hide Decide, SeriesAfter, SeriesOf, DefaultHistories;
    FlagAfter(params, contexts[..i]);
    OneBar(params, SeriesAfter(params, map[], contexts[..i]), contexts[i]);
  }

  // ---------------------------------------------------------------- alternation

  predicate Rises(flags: seq<bool>, i: nat) {
    0 < i < |flags| && flags[i] && !flags[i - 1]
  }

  predicate Falls(flags: seq<bool>, i: nat) {
    0 < i < |flags| && !flags[i] && flags[i - 1]
  }

  lemma {:induction false} UpUntilFall(flags: seq<bool>, i: nat, j: nat)
    requires i <= j < |flags| && flags[i] && forall k :: i < k <= j ==> !Falls(flags, k)
    ensures flags[j]
  {
    if i < j {
      UpUntilFall(flags, i, j - 1);
      assert !Falls(flags, j);
    }
  }

  lemma {:induction false} DownUntilRise(flags: seq<bool>, i: nat, j: nat)
    requires i <= j < |flags| && !flags[i] && forall k :: i < k <= j ==> !Rises(flags, k)
    ensures !flags[j]
  {
    if i < j {
      DownUntilRise(flags, i, j - 1);
      assert !Rises(flags, j);
    }
  }

  lemma FallBetweenRises(flags: seq<bool>, i: nat, j: nat)
    requires i < j && Rises(flags, i) && Rises(flags, j)
    ensures exists k :: i < k < j && Falls(flags, k)
  {
    if forall k :: i < k <= j - 1 ==> !Falls(flags, k) {
      UpUntilFall(flags, i, j - 1);
      assert false;
    }
  }

  lemma RiseBetweenFalls(flags: seq<bool>, i: nat, j: nat)
    requires i < j && Falls(flags, i) && Falls(flags, j)
    ensures exists k :: i < k < j && Rises(flags, k)
  {
    if forall k :: i < k <= j - 1 ==> !Rises(flags, k) {
      DownUntilRise(flags, i, j - 1);
      assert false;
    }
  }

  function Flags(params: StrategyParams, contexts: seq<StrategyContext>): seq<bool>
    requires params.MultiEma? && forall i :: 0 <= i < |contexts| ==> HasReadings(params, contexts[i].indicators)
  {
    seq(|contexts|, i requires 0 <= i < |contexts| => StackedAt(params, contexts, i))
  }

  ghost predicate ActionAt(params: StrategyParams, contexts: seq<StrategyContext>, i: nat, action: SignalAction)
    requires ClosedContexts(params, contexts)
  {
    i < |contexts| && DecisionAt(params, map[], contexts, i).action == action
  }

  lemma ActionsAreTransitions(params: StrategyParams, contexts: seq<StrategyContext>)
    requires params.MultiEma? && ClosedContexts(params, contexts)
    ensures forall i: nat :: ActionAt(params, contexts, i, Buy) <==> Rises(Flags(params, contexts), i)
    ensures forall i: nat :: ActionAt(params, contexts, i, Sell) <==> Falls(Flags(params, contexts), i)
  {
    hide DecisionAt, StackedAt, HasReadings;
    forall i: nat | i < |contexts|
      ensures ActionAt(params, contexts, i, Buy) <==> Rises(Flags(params, contexts), i)
      ensures ActionAt(params, contexts, i, Sell) <==> Falls(Flags(params, contexts), i)
    {
      SignalsMarkTransitions(params, contexts, i);
    }
  }

  /** BUY and SELL strictly alternate: between two equal signals lies an opposite one. */
  lemma SignalsAlternate(params: StrategyParams, contexts: seq<StrategyContext>, i: nat, j: nat)
    requires params.MultiEma? && ClosedContexts(params, contexts) && i < j
    ensures ActionAt(params, contexts, i, Buy) && ActionAt(params, contexts, j, Buy) ==>
              exists k :: i < k < j && ActionAt(params, contexts, k, Sell)
    ensures ActionAt(params, contexts, i, Sell) && ActionAt(params, contexts, j, Sell) ==>
              exists k :: i < k < j && ActionAt(params, contexts, k, Buy)
  {
    ActionsAreTransitions(params, contexts);
    var flags := Flags(params, contexts);
    if Rises(flags, i) && Rises(flags, j) {
      FallBetweenRises(flags, i, j);
    }
    if Falls(flags, i) && Falls(flags, j) {
      RiseBetweenFalls(flags, i, j);
    }
  }

  /** Every bar from a BUY up to the next SELL is fully stacked. */
  lemma StackedFromBuyToSell(params: StrategyParams, contexts: seq<StrategyContext>, i: nat, j: nat)
    requires params.MultiEma? && ClosedContexts(params, contexts) && i <= j < |contexts|
    requires ActionAt(params, contexts, i, Buy) && forall k :: i < k <= j ==> !ActionAt(params, contexts, k, Sell)
    ensures StackedAt(params, contexts, j)
  {
    ActionsAreTransitions(params, contexts);
    UpUntilFall(Flags(params, contexts), i, j);
  }
}
