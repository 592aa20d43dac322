/** The three trend counters mean what a reader of the whole history would say. */
module TrendConfirmation {
  import opened Prelude
  import opened Market
  import opened BarSeries
  import opened Indicators
  import opened Strategies
  import opened StrategyProofs
  import opened ClosedRuns

  /** The price is at most so many percent above the average. */
  predicate AtMostAbove(price: real, average: real, percent: real) {
    100.0 * (price - average) <= average * percent
  }

  /** The price is at most so many percent below the average. */
  predicate AtMostBelow(price: real, average: real, percent: real) {
    100.0 * (average - price) <= average * percent
  }

  /** The bar's range meets the band so many percent either side of the average. */
  predicate MeetsBand(candle: Candle, average: real, percent: real) {
    AtMostAbove(candle.low, average, percent) && AtMostBelow(candle.high, average, percent)
  }

  lemma BandIsPercent(price: real, average: real, percent: real)
    ensures price <= Band(average, percent) <==> AtMostAbove(price, average, percent)
    ensures price >= Band(average, -percent) <==> AtMostBelow(price, average, percent)
  {
    assert 100.0 * Band(average, percent) == 100.0 * average + average * percent;
    assert 100.0 * Band(average, -percent) == 100.0 * average - average * percent;
  }

  /** A touch is the bar's range meeting the long EMA's band, `touch_sensitivity` percent wide either side. */
  lemma TouchMeetsBand(params: StrategyParams, candle: Candle, emaLong: real)
    requires params.TrendPullback?
    ensures Touches(params, candle.low, candle.high, emaLong) <==> MeetsBand(candle, emaLong, params.touchSensitivity)
  {
    BandIsPercent(candle.low, emaLong, params.touchSensitivity);
    BandIsPercent(candle.high, emaLong, params.touchSensitivity);
    hide Band, AtMostAbove, AtMostBelow;
  }

  /** What one closed bar contributes: a touch that resets, or a close above, below or on the long EMA. */
  datatype Bar = Bar(reset: bool, move: int)

  function Move(close: real, emaLong: real): int {
    if close > emaLong then TREND_UP else if close < emaLong then TREND_DOWN else TREND_FLAT
  }

  function BarOf(params: StrategyParams, ctx: StrategyContext): Bar
    requires params.TrendPullback? && HasReadings(params, ctx.indicators)
  {
    var emaLong := ctx.indicators[EmaLong].value;
    Bar(params.enableTouchReset && MeetsBand(ctx.candle, emaLong, params.touchSensitivity),
        Move(ctx.candle.close, emaLong))
  }

  function Bars(params: StrategyParams, contexts: seq<StrategyContext>): seq<Bar>
    requires params.TrendPullback? && forall i :: 0 <= i < |contexts| ==> HasReadings(params, contexts[i].indicators)
  {
    seq(|contexts|, i requires 0 <= i < |contexts| => BarOf(params, contexts[i]))
  }

  function NextOnBar(confirmAfter: int, prev: Trend, bar: Bar): Trend {
    if bar.reset then Trend(TREND_FLAT, 0, TREND_FLAT)
    else
      var side := if bar.move == TREND_FLAT then prev.side else bar.move;
      var consecutive :=
        if bar.move == TREND_FLAT then prev.consecutive
        else if prev.side == bar.move then prev.consecutive + 1 else 1;
      Trend(side, consecutive, if consecutive >= confirmAfter then side else prev.confirmed)
  }

  function TrendRun(confirmAfter: int, bars: seq<Bar>): Trend {
    if bars == [] then Trend(TREND_FLAT, 0, TREND_FLAT)
    else NextOnBar(confirmAfter, TrendRun(confirmAfter, bars[..|bars| - 1]), bars[|bars| - 1])
  }

  // ---------------------------------------------------------------- the strategy runs these bars

  lemma TruncateInt(n: int)
    ensures Truncate(n as real) == n
  {
  }

  lemma {:induction false} StoredIsCommitted(m: SeriesMap, entries: seq<(Key, real)>, i: nat)
    requires DistinctKeys(entries) && i < |entries| && DefaultHistories(m)
    ensures SeriesOf(TrackAll(m, entries, true), entries[i].0).Committed(0) == Some(entries[i].1)
  {
    var last := |entries| - 1;
    TrackEffect(TrackAll(m, entries[..last], true), entries[last].0, entries[last].1, true, entries[i].0);
    TrackAllHistories(m, entries[..last], true);
    if i < last {
      StoredIsCommitted(m, entries[..last], i);
    }
  }

  /** What `committed(0)` gives back after a closed bar stored a trend. */
  lemma StoredTrendIsRead(m: SeriesMap, trend: Trend, candle: Candle)
    requires DefaultHistories(m) && candle.isClosed
    ensures CommittedTrend(TrackAll(m, TrendEntries(trend, candle), true)) == trend
  {
    var entries := TrendEntries(trend, candle);
    var after := TrackAll(m, entries, true);
    TruncateInt(trend.side);
    TruncateInt(trend.consecutive);
    TruncateInt(trend.confirmed);
    StoredIsCommitted(m, entries, 0);
    StoredIsCommitted(m, entries, 1);
    StoredIsCommitted(m, entries, 2);
  }

  lemma TrendStep(params: StrategyParams, m: SeriesMap, ctx: StrategyContext)
    requires params.TrendPullback? && HasReadings(params, ctx.indicators)
    ensures TrendAfter(params, m, ctx) == NextOnBar(params.tickConfirm, CommittedTrend(m), BarOf(params, ctx))
  {
    TouchMeetsBand(params, ctx.candle, ctx.indicators[EmaLong].value);
    hide Touches, MeetsBand;
  }

  lemma BarsOfPrefix(params: StrategyParams, contexts: seq<StrategyContext>, n: nat)
    requires params.TrendPullback? && n <= |contexts|
    requires forall i :: 0 <= i < |contexts| ==> HasReadings(params, contexts[i].indicators)
    ensures Bars(params, contexts)[..n] == Bars(params, contexts[..n])
  {
  }

  /** After any closed-bar run from a fresh strategy, the committed counters are those of the bars. */
  lemma {:induction false} CountersFollowBars(params: StrategyParams, contexts: seq<StrategyContext>)
    requires params.TrendPullback? && ClosedContexts(params, contexts)
    ensures DefaultHistories(SeriesAfter(params, map[], contexts))
    ensures CommittedTrend(SeriesAfter(params, map[], contexts)) == TrendRun(params.tickConfirm, Bars(params, contexts))
  {
    if contexts != [] {
      var before, last := contexts[..|contexts| - 1], contexts[|contexts| - 1];
      CountersFollowBars(params, before);
      var m := SeriesAfter(params, map[], before);
      BarsOfPrefix(params, contexts, |contexts| - 1);
      TrendStep(params, m, last);
      TrackAllHistories(m, TrendEntries(TrendAfter(params, m, last), last.candle), true);
      StoredTrendIsRead(m, TrendAfter(params, m, last), last.candle);
    }
  }

  // ---------------------------------------------------------------- what the counters mean

  /** `since` is the first bar after the last touch reset. */
  ghost predicate SinceReset(bars: seq<Bar>, since: nat) {
    && since <= |bars| && (since > 0 ==> bars[since - 1].reset)
    && forall j :: since <= j < |bars| ==> !bars[j].reset
  }

  /** `start` is the first bar after both the last reset and the last close opposite to `side`. */
  ghost predicate RunStart(bars: seq<Bar>, side: int, start: nat) {
    && start <= |bars| && (start > 0 ==> bars[start - 1].reset || bars[start - 1].move == -side)
    && forall j :: start <= j < |bars| ==> !bars[j].reset && bars[j].move != -side
  }

  ghost function SameSideCloses(bars: seq<Bar>, start: nat, side: int): set<int> {
    set j | start <= j < |bars| && bars[j].move == side
  }

  ghost predicate LastMoveAt(bars: seq<Bar>, side: int, j: nat) {
    j < |bars| && bars[j].move == side && forall i :: j < i < |bars| ==> bars[i].move == TREND_FLAT
  }

  /** `side` is the side of the last close off the EMA since the last reset. */
  ghost predicate LastSide(bars: seq<Bar>, since: nat, side: int) {
    if side == TREND_FLAT then forall j :: since <= j < |bars| ==> bars[j].move == TREND_FLAT
    else exists j :: since <= j < |bars| && LastMoveAt(bars, side, j)
  }

  ghost predicate ValidMoves(bars: seq<Bar>) {
    forall j :: 0 <= j < |bars| ==> bars[j].move in {TREND_DOWN, TREND_FLAT, TREND_UP}
  }

  lemma {:induction false} SideIsLastSide(k: int, bars: seq<Bar>, since: nat)
    requires ValidMoves(bars) && SinceReset(bars, since)
    ensures LastSide(bars, since, TrendRun(k, bars).side)
    ensures TrendRun(k, bars).side in {TREND_DOWN, TREND_FLAT, TREND_UP}
  {
    if bars != [] && !bars[|bars| - 1].reset {
      var before, last := bars[..|bars| - 1], |bars| - 1;
      assert since <= last;
      SideIsLastSide(k, before, since);
      var prev := TrendRun(k, before).side;
      if bars[last].move != TREND_FLAT {
        assert LastMoveAt(bars, bars[last].move, last);
      } else if prev != TREND_FLAT {
        var j :| since <= j < |before| && LastMoveAt(before, prev, j);
        assert LastMoveAt(bars, prev, j);
      }
    }
  }

  lemma CloseAdded(bars: seq<Bar>, start: nat, side: int)
    requires start < |bars|
    ensures var before, last := bars[..|bars| - 1], |bars| - 1;
      |SameSideCloses(bars, start, side)|
      == |SameSideCloses(before, start, side)| + if bars[last].move == side then 1 else 0
  {
    var before, last := bars[..|bars| - 1], |bars| - 1;
    assert SameSideCloses(bars, start, side)
        == SameSideCloses(before, start, side) + if bars[last].move == side then {last} else {};
  }

  /** When the side has just changed, the new run holds nothing but the bar that changed it. */
  lemma OnlyTheLastClose(bars: seq<Bar>, since: nat, prevSide: int, start: nat)
    requires bars != [] && ValidMoves(bars) && SinceReset(bars[..|bars| - 1], since)
    requires LastSide(bars[..|bars| - 1], since, prevSide) && prevSide in {TREND_DOWN, TREND_FLAT, TREND_UP}
    requires !bars[|bars| - 1].reset && bars[|bars| - 1].move != TREND_FLAT && prevSide != bars[|bars| - 1].move
    requires RunStart(bars, bars[|bars| - 1].move, start)
    ensures |SameSideCloses(bars, start, bars[|bars| - 1].move)| == 1
  {
    var before, last := bars[..|bars| - 1], |bars| - 1;
    var side := bars[last].move;
    assert start <= last;
    forall j | start <= j < last ensures bars[j].move != side {
      assert before[j] == bars[j];
      if prevSide == TREND_FLAT {
        assert j >= since ==> before[j].move == TREND_FLAT;
      } else {
        var i :| since <= i < |before| && LastMoveAt(before, prevSide, i);
        assert before[i] == bars[i];
      }
    }
    assert SameSideCloses(bars, start, side) == {last};
  }

  function LastResetOf(bars: seq<Bar>): (since: nat)
    ensures SinceReset(bars, since)
  {
    if bars == [] then 0
    else if bars[|bars| - 1].reset then |bars|
    else
      var since := LastResetOf(bars[..|bars| - 1]);
      assert since > 0 ==> bars[since - 1] == bars[..|bars| - 1][since - 1];
      assert forall j :: 0 <= j < |bars| - 1 ==> bars[j] == bars[..|bars| - 1][j];
      since
  }

  lemma {:induction false} RunStartExists(bars: seq<Bar>, side: int)
    ensures exists start :: RunStart(bars, side, start)
  {
    if bars == [] {
      assert RunStart(bars, side, 0);
    } else if bars[|bars| - 1].reset || bars[|bars| - 1].move == -side {
      assert RunStart(bars, side, |bars|);
    } else {
      RunStartExists(bars[..|bars| - 1], side);
      var start :| RunStart(bars[..|bars| - 1], side, start);
      assert forall j :: 0 <= j < |bars| - 1 ==> bars[j] == bars[..|bars| - 1][j];
      assert RunStart(bars, side, start);
    }
  }

  /**
   * `consecutive_bars` is the number of same-side closes since the last opposite close or touch
   * reset; closes exactly on the EMA are ignored.
   */
  lemma {:induction false} ConsecutiveCountsSameSideCloses(k: int, bars: seq<Bar>, start: nat)
    requires ValidMoves(bars) && RunStart(bars, TrendRun(k, bars).side, start)
    ensures TrendRun(k, bars).side != TREND_FLAT ==>
              TrendRun(k, bars).consecutive == |SameSideCloses(bars, start, TrendRun(k, bars).side)|
    ensures TrendRun(k, bars).side == TREND_FLAT ==> TrendRun(k, bars).consecutive == 0
  {
    if bars != [] && !bars[|bars| - 1].reset {
      var before, last := bars[..|bars| - 1], |bars| - 1;
      var prev, side := TrendRun(k, before), TrendRun(k, bars).side;
      var since := LastResetOf(before);
      SideIsLastSide(k, before, since);
      if side == prev.side {
        if side != TREND_FLAT {
          assert RunStart(before, side, start);
          ConsecutiveCountsSameSideCloses(k, before, start);
          CloseAdded(bars, start, side);
        } else {
          RunStartExists(before, TREND_FLAT);
          var s :| RunStart(before, TREND_FLAT, s);
          ConsecutiveCountsSameSideCloses(k, before, s);
        }
      } else {
        OnlyTheLastClose(bars, since, prev.side, start);
      }
    }
  }

  function TrendAt(k: int, bars: seq<Bar>, j: nat): Trend
    requires j < |bars|
  {
    TrendRun(k, bars[..j + 1])
  }

  /** Bar `j` is the last since the reset at which the running count had reached the threshold. */
  ghost predicate LastReached(k: int, bars: seq<Bar>, since: nat, j: nat) {
    && since <= j < |bars| && TrendAt(k, bars, j).consecutive >= k
    && forall i :: j < i < |bars| ==> TrendAt(k, bars, i).consecutive < k
  }

  /**
   * `confirmed_trend` is the side of the most recent run since the last reset that reached
   * `tick_confirm`, and flat when none did.
   */
  lemma {:induction false} ConfirmedIsLastReached(k: int, bars: seq<Bar>, since: nat)
    requires ValidMoves(bars) && SinceReset(bars, since)
    ensures forall j :: LastReached(k, bars, since, j) ==> TrendRun(k, bars).confirmed == TrendAt(k, bars, j).side
    ensures TrendRun(k, bars).confirmed != TREND_FLAT ==> exists j :: LastReached(k, bars, since, j)
  {
    if bars != [] {
      var before, last := bars[..|bars| - 1], |bars| - 1;
      assert bars[..last + 1] == bars;
      forall i | 0 <= i < last ensures TrendAt(k, before, i) == TrendAt(k, bars, i) {
        assert before[..i + 1] == bars[..i + 1];
      }
      if bars[last].reset {
        assert since == |bars|;
      } else {
        ConfirmedIsLastReached(k, before, since);
        if TrendRun(k, bars).consecutive >= k {
          assert LastReached(k, bars, since, last);
        } else {
          assert forall j :: LastReached(k, bars, since, j) ==> LastReached(k, before, since, j);
          if TrendRun(k, bars).confirmed != TREND_FLAT {
            var j :| LastReached(k, before, since, j);
            assert LastReached(k, bars, since, j);
          }
        }
      }
    }
  }

  // ---------------------------------------------------------------- what entries need

  /** With touch reset on, no entry signal fires on a touching bar. */
  lemma NoEntryOnTouch(params: StrategyParams, m: SeriesMap, ctx: StrategyContext)
    requires params.TrendPullback? && HasReadings(params, ctx.indicators) && BarOf(params, ctx).reset
    ensures Decide(params, m, ctx).1.action != Buy && Decide(params, m, ctx).1.action != OpenShort
  {
    TouchMeetsBand(params, ctx.candle, ctx.indicators[EmaLong].value);
    hide Touches, MeetsBand;
  }

  lemma MovesOfBars(params: StrategyParams, contexts: seq<StrategyContext>)
    requires params.TrendPullback? && ClosedContexts(params, contexts)
    ensures ValidMoves(Bars(params, contexts))
  {
  }

  /** The bars of a run up to and including bar `i` lead to the trend bar `i` decided with. */
  lemma TrendAtBar(params: StrategyParams, contexts: seq<StrategyContext>, i: nat)
    requires params.TrendPullback? && ClosedContexts(params, contexts) && i < |contexts|
    ensures TrendAfter(params, SeriesAfter(params, map[], contexts[..i]), contexts[i])
         == TrendRun(params.tickConfirm, Bars(params, contexts[..i + 1]))
  {
    var upTo := contexts[..i + 1];
    assert upTo[..i] == contexts[..i] && upTo[i] == contexts[i];
    CountersFollowBars(params, contexts[..i]);
    BarsOfPrefix(params, upTo, i);
    TrendStep(params, SeriesAfter(params, map[], contexts[..i]), contexts[i]);
  }

  /** By bar `j`, since the last reset, `side` had closed `k` times or more with no opposite close between. */
  ghost predicate BackedAt(bars: seq<Bar>, side: int, k: int, j: nat) {
    && LastResetOf(bars) <= j < |bars|
    && var upTo := bars[..j + 1];
       exists start :: RunStart(upTo, side, start) && |SameSideCloses(upTo, start, side)| >= k
  }

  lemma ConfirmedIsBacked(k: int, bars: seq<Bar>)
    requires ValidMoves(bars) && k >= 1 && TrendRun(k, bars).confirmed != TREND_FLAT
    ensures exists j :: BackedAt(bars, TrendRun(k, bars).confirmed, k, j)
  {
    var since := LastResetOf(bars);
    ConfirmedIsLastReached(k, bars, since);
    var j :| LastReached(k, bars, since, j);
    var upTo, side := bars[..j + 1], TrendAt(k, bars, j).side;
    RunStartExists(upTo, side);
    var start :| RunStart(upTo, side, start);
    ConsecutiveCountsSameSideCloses(k, upTo, start);
    assert BackedAt(bars, side, k, j);
  }

  lemma EntryFollowsConfirmed(params: StrategyParams, m: SeriesMap, ctx: StrategyContext)
    requires params.TrendPullback? && HasReadings(params, ctx.indicators)
    ensures Decide(params, m, ctx).1.action == Buy ==> TrendAfter(params, m, ctx).confirmed == TREND_UP
    ensures Decide(params, m, ctx).1.action == OpenShort ==> TrendAfter(params, m, ctx).confirmed == TREND_DOWN
  {
  }

  /**
   * In every closed-bar run, an entry is backed by an uninterrupted trend: some bar since the last
   * touch reset had seen at least `tick_confirm` closes on the entry's side with none opposite between.
   */
  lemma EntryNeedsConfirmedRun(params: StrategyParams, contexts: seq<StrategyContext>, i: nat)
    requires params.TrendPullback? && params.tickConfirm >= 1 && ClosedContexts(params, contexts) && i < |contexts|
    ensures var bars, action := Bars(params, contexts[..i + 1]), DecisionAt(params, map[], contexts, i).action;
      && (action == Buy ==> exists j :: BackedAt(bars, TREND_UP, params.tickConfirm, j))
      && (action == OpenShort ==> exists j :: BackedAt(bars, TREND_DOWN, params.tickConfirm, j))
  {
    var bars := Bars(params, contexts[..i + 1]);
    TrendAtBar(params, contexts, i);
    MovesOfBars(params, contexts[..i + 1]);
    EntryFollowsConfirmed(params, SeriesAfter(params, map[], contexts[..i]), contexts[i]);
    if TrendRun(params.tickConfirm, bars).confirmed != TREND_FLAT {
      ConfirmedIsBacked(params.tickConfirm, bars);
    }
  }
}
