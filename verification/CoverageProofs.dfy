/** The six-aggregate verdict refines the direct one, and equals it exactly when every open is on the grid. */
module CoverageProofs {
  import opened Prelude
  import opened OpenTimes
  import opened RangeCoverage

  // ---------------------------------------------------------------- both sides see the same rows

  ghost predicate InOrder(klines: seq<Kline>) {
    forall i, j :: 0 <= i < j < |klines| ==> klines[i].openTime <= klines[j].openTime
  }

  lemma {:induction false} InsertIsPermutation(sorted: seq<Kline>, k: Kline)
    ensures multiset(Insert(sorted, k)) == multiset(sorted) + multiset{k}
  {
    var n := |sorted|;
    if !(sorted == [] || sorted[n - 1].openTime <= k.openTime) {
      InsertIsPermutation(sorted[..n - 1], k);
      assert sorted[..n - 1] + [sorted[n - 1]] == sorted;
    }
  }

  lemma {:induction false} InsertKeepsOrder(sorted: seq<Kline>, k: Kline)
    requires InOrder(sorted)
    ensures InOrder(Insert(sorted, k))
  {
    var n := |sorted|;
    if !(sorted == [] || sorted[n - 1].openTime <= k.openTime) {
      var before, last := sorted[..n - 1], sorted[n - 1];
      InsertKeepsOrder(before, k);
      InsertIsPermutation(before, k);
      var inserted := Insert(before, k);
      hide Insert;
      forall i | 0 <= i < |inserted| ensures inserted[i].openTime <= last.openTime {
        assert inserted[i] in multiset(inserted);
        assert inserted[i] == k || inserted[i] in before;
      }
      assert InOrder(inserted + [last]);
    }
  }

  lemma {:induction false} SortIsInOrder(klines: seq<Kline>)
    ensures InOrder(SortByOpen(klines))
  {
    hide Insert;
    if klines != [] {
      SortIsInOrder(klines[..|klines| - 1]);
      InsertKeepsOrder(SortByOpen(klines[..|klines| - 1]), klines[|klines| - 1]);
    }
  }

  lemma {:induction false} SortIsPermutation(klines: seq<Kline>)
    ensures multiset(SortByOpen(klines)) == multiset(klines)
  {
    hide Insert;
    if klines != [] {
      SortIsPermutation(klines[..|klines| - 1]);
      InsertIsPermutation(SortByOpen(klines[..|klines| - 1]), klines[|klines| - 1]);
      assert klines == klines[..|klines| - 1] + [klines[|klines| - 1]];
    }
  }

  lemma {:induction false} ScopedRows(ordered: seq<Kline>, lower: Option<int>, upper: int)
    requires InOrder(ordered)
    ensures InOrder(Scoped(ordered, lower, upper))
    ensures forall k :: k in Scoped(ordered, lower, upper) ==>
              k in ordered && (lower.None? || lower.value <= k.openTime) && k.openTime < upper
  {
    if ordered != [] {
      ScopedRows(ordered[..|ordered| - 1], lower, upper);
    }
  }

  /** A lower bound at or below every open scopes nothing away. */
  lemma {:induction false} LowerBoundIsIdle(ordered: seq<Kline>, lower: int, upper: int)
    requires forall i :: 0 <= i < |ordered| ==> lower <= ordered[i].openTime
    ensures Scoped(ordered, Some(lower), upper) == Scoped(ordered, None, upper)
  {
    if ordered != [] {
      LowerBoundIsIdle(ordered[..|ordered| - 1], lower, upper);
    }
  }

  lemma {:induction false} FirstRowStaysFirst(ordered: seq<Kline>, upper: int)
    requires ordered != [] && InOrder(ordered)
    ensures ordered[0].openTime < upper ==>
              Scoped(ordered, None, upper) != [] && Scoped(ordered, None, upper)[0] == ordered[0]
    ensures ordered[0].openTime >= upper ==> Scoped(ordered, None, upper) == []
  {
    if |ordered| > 1 {
      FirstRowStaysFirst(ordered[..|ordered| - 1], upper);
    } else {
      assert ordered[..0] == [];
    }
  }

  // ---------------------------------------------------------------- what the aggregates say

  lemma {:induction false} MinIsFirst(ts: seq<int>)
    requires Ascending(ts)
    ensures MinOf(ts) == if ts == [] then None else Some(ts[0])
  {
    if ts != [] { MinIsFirst(ts[..|ts| - 1]); }
  }

  lemma {:induction false} MaxIsLast(ts: seq<int>)
    requires Ascending(ts)
    ensures MaxOf(ts) == if ts == [] then None else Some(ts[|ts| - 1])
  {
    if ts != [] { MaxIsLast(ts[..|ts| - 1]); }
  }

  ghost predicate FirstGap(opens: seq<int>, interval: Interval, i: int) {
    GapAt(opens, interval, i) && forall j :: j < i ==> !GapAt(opens, interval, j)
  }

  /** Dropping the last open drops exactly the gap that ends there. */
  lemma GapsOfPrefix(opens: seq<int>, interval: Interval)
    requires |opens| >= 2
    ensures forall i :: GapAt(opens[..|opens| - 1], interval, i) ==> GapAt(opens, interval, i) && i < |opens| - 1
    ensures forall i :: GapAt(opens, interval, i) ==> i == |opens| - 1 || GapAt(opens[..|opens| - 1], interval, i)
  {
    var before := opens[..|opens| - 1];
    forall i | GapAt(before, interval, i)
      ensures GapAt(opens, interval, i) && i < |opens| - 1
    {
      assert before[i] == opens[i] && before[i - 1] == opens[i - 1];
    }
    forall i | GapAt(opens, interval, i) && i != |opens| - 1
      ensures GapAt(before, interval, i)
    {
      assert before[i] == opens[i] && before[i - 1] == opens[i - 1];
    }
  }

  lemma {:induction false} GapStartsSorted(opens: seq<int>, interval: Interval)
    requires Ascending(opens)
    ensures Ascending(GapStarts(opens, interval))
    ensures |GapStarts(opens, interval)| > 0 ==> |opens| >= 2
    ensures forall i :: 0 <= i < |GapStarts(opens, interval)| ==> GapStarts(opens, interval)[i] <= opens[|opens| - 2]
  {
    if |opens| >= 2 {
      GapStartsSorted(opens[..|opens| - 1], interval);
      assert |opens| >= 3 ==> opens[|opens| - 3] <= opens[|opens| - 2];
    }
  }

  lemma {:induction false} GapStartsBeginAtFirstGap(opens: seq<int>, interval: Interval)
    ensures GapStarts(opens, interval) == [] <==> forall i :: !GapAt(opens, interval, i)
    ensures GapStarts(opens, interval) != [] ==>
              exists i :: FirstGap(opens, interval, i) && GapStarts(opens, interval)[0] == opens[i - 1]
  {
    if |opens| >= 2 {
      var before := opens[..|opens| - 1];
      GapStartsBeginAtFirstGap(before, interval);
      GapsOfPrefix(opens, interval);
      if GapStarts(before, interval) != [] {
        var i :| FirstGap(before, interval, i) && GapStarts(before, interval)[0] == before[i - 1];
        assert FirstGap(opens, interval, i);
      } else if GapAt(opens, interval, |opens| - 1) {
        assert FirstGap(opens, interval, |opens| - 1);
      } else {
        forall i ensures !GapAt(opens, interval, i) {
          assert !GapAt(before, interval, i);
        }
      }
    }
  }

  /** `first_gap_after` is the open before the first gap, and NULL exactly when there is none. */
  lemma FirstGapAfter(opens: seq<int>, interval: Interval)
    requires Ascending(opens)
    ensures MinOf(GapStarts(opens, interval)).None? <==> forall i :: !GapAt(opens, interval, i)
    ensures MinOf(GapStarts(opens, interval)).Some? ==>
              exists i :: FirstGap(opens, interval, i) && MinOf(GapStarts(opens, interval)).value == opens[i - 1]
  {
    GapStartsSorted(opens, interval);
    GapStartsBeginAtFirstGap(opens, interval);
    MinIsFirst(GapStarts(opens, interval));
  }

  lemma {:induction false} UnclosedCounts(rows: seq<Kline>, now: int)
    ensures UnclosedCount(rows, now) > 0 <==> AnyUnclosed(rows, now)
  {
    if rows != [] {
      var n := |rows|;
      UnclosedCounts(rows[..n - 1], now);
      if AnyUnclosed(rows, now) && rows[n - 1].closeTime <= now {
        var i :| 0 <= i < |rows| && rows[i].closeTime > now;
        assert rows[..n - 1][i].closeTime > now;
      }
      if AnyUnclosed(rows[..n - 1], now) {
        var i :| 0 <= i < n - 1 && rows[..n - 1][i].closeTime > now;
        assert rows[i].closeTime > now;
      }
    }
  }

  /** The rows the SQL probe selects: those the direct form keeps. */
  function Rows(ordered: seq<Kline>, interval: Interval, start: Option<int>, closedEnd: int): seq<Kline> {
    Scoped(ordered, if start.Some? then From(ordered, interval, start) else None, closedEnd)
  }

  lemma OpensInOrder(klines: seq<Kline>)
    requires InOrder(klines)
    ensures Ascending(Opens(klines))
  {
  }

  lemma RowAt(klines: seq<Kline>, t: int) returns (k: Kline)
    requires t in Opens(klines)
    ensures k in klines && k.openTime == t
  {
    var i :| 0 <= i < |klines| && klines[i].openTime == t;
    k := klines[i];
  }

  lemma DirectKeepsTheRows(ordered: seq<Kline>, interval: Interval, start: Option<int>, closedEnd: int)
    requires InOrder(ordered)
    ensures var from := From(ordered, interval, start);
      Rows(ordered, interval, start, closedEnd) == if from.None? then [] else Scoped(ordered, from, closedEnd)
  {
    if start.None? && ordered != [] {
      LowerBoundIsIdle(ordered, ordered[0].openTime, closedEnd);
    }
  }

  /** Both forms start from the same candle, or both give up. */
  lemma SameStart(ordered: seq<Kline>, interval: Interval, start: Option<int>, closedEnd: int)
    requires InOrder(ordered)
    ensures var rows, from := Rows(ordered, interval, start, closedEnd), From(ordered, interval, start);
      && Ascending(Opens(rows))
      && (start.None? && rows != [] ==> from == Some(rows[0].openTime))
      && (start.None? && rows == [] ==> from.None? || from.value >= closedEnd)
      && (forall t :: t in Opens(rows) ==> from.Some? && from.value <= t < closedEnd)
  {
    hide Scoped, Opens, InOrder, Ascending;
    var rows, from := Rows(ordered, interval, start, closedEnd), From(ordered, interval, start);
    DirectKeepsTheRows(ordered, interval, start, closedEnd);
    ScopedRows(ordered, from, closedEnd);
    OpensInOrder(rows);
    if start.None? && ordered != [] {
      FirstRowStaysFirst(ordered, closedEnd);
    }
    forall t | t in Opens(rows) ensures from.Some? && from.value <= t < closedEnd {
      var k := RowAt(rows, t);
    }
  }

  /** The aggregates of ascending rows, read off directly. */
  lemma AggregatesOf(rows: seq<Kline>, interval: Interval, now: int)
    requires Ascending(Opens(rows))
    ensures var s, opens := RangeSnapshot(rows, interval, now), Opens(rows);
      && s.firstRecord == (if opens == [] then None else Some(opens[0]))
      && s.lastRecord == (if opens == [] then None else Some(opens[|opens| - 1]))
      && s.totalCandles == |opens| && s.distinctCandles == |Distinct(opens)|
      && (s.unclosedCandles > 0 <==> AnyUnclosed(rows, now))
  {
    MinIsFirst(Opens(rows));
    MaxIsLast(Opens(rows));
    UnclosedCounts(rows, now);
  }

  // ---------------------------------------------------------------- everything but the verdict

  /** What a coverage says about the rows besides the verdict and the missing opens. */
  ghost predicate Reports(c: Coverage, rows: seq<Kline>, now: int) {
    var opens := Opens(rows);
    && c.firstOpenTime == (if opens == [] then None else Some(opens[0]))
    && c.lastOpenTime == (if opens == [] then None else Some(opens[|opens| - 1]))
    && c.actualCandles == |opens| && c.duplicateCandles == |opens| - |Distinct(opens)|
    && (c.hasUnclosedCandle <==> AnyUnclosed(rows, now))
  }

  lemma ProbeReadsTheRows(klines: seq<Kline>, interval: Interval, start: Option<int>, end: int, now: int)
    ensures GetRangeCoverage(klines, interval, start, end, now)
         == RangeSnapshot(Rows(SortByOpen(klines), interval, start, FloorOpenTime(Earlier(end, now), interval)),
                          interval, now)
  {
  }

  lemma BuildReportsTheSnapshot(snapshot: Snapshot, interval: Interval, start: Option<int>, end: int, now: int)
    ensures var fast := Build(snapshot, interval, start, end, now);
      && fast.firstOpenTime == snapshot.firstRecord && fast.lastOpenTime == snapshot.lastRecord
      && fast.actualCandles == snapshot.totalCandles
      && fast.duplicateCandles == snapshot.totalCandles - snapshot.distinctCandles
      && (fast.hasUnclosedCandle <==> snapshot.unclosedCandles > 0)
  {
    hide FullyCovered, MissingHints, Deduplicated, FirstThree, FloorOpenTime, CeilOpenTime;
  }

  lemma FastReports(klines: seq<Kline>, interval: Interval, start: Option<int>, end: int, now: int)
    ensures Reports(Build(GetRangeCoverage(klines, interval, start, end, now), interval, start, end, now),
                    Rows(SortByOpen(klines), interval, start, FloorOpenTime(Earlier(end, now), interval)), now)
  {
    hide SortByOpen, Rows, Opens, From, Build, RangeSnapshot, GetRangeCoverage, AnyUnclosed, Distinct, FloorOpenTime;
    var closedEnd := FloorOpenTime(Earlier(end, now), interval);
    var rows := Rows(SortByOpen(klines), interval, start, closedEnd);
    SortIsInOrder(klines);
    SameStart(SortByOpen(klines), interval, start, closedEnd);
    ProbeReadsTheRows(klines, interval, start, end, now);
    AggregatesOf(rows, interval, now);
    BuildReportsTheSnapshot(RangeSnapshot(rows, interval, now), interval, start, end, now);
  }

  /** The rows `evaluate_backtest_range_coverage` scopes, and what it reports of them. */
  lemma EvaluateReportsScoped(klines: seq<Kline>, interval: Interval, start: Option<int>, end: int, now: int)
    ensures var from := From(SortByOpen(klines), interval, start);
      Reports(Evaluate(klines, interval, start, end, now),
              if from.None? then []
              else Scoped(SortByOpen(klines), from, FloorOpenTime(Earlier(end, now), interval)), now)
  {
    hide SortByOpen, Scoped, AnyUnclosed, FirstThree, Absent, Grid, Distinct, FloorOpenTime, CeilOpenTime, From, Opens;
  }

  lemma DirectReports(klines: seq<Kline>, interval: Interval, start: Option<int>, end: int, now: int)
    ensures Reports(Evaluate(klines, interval, start, end, now),
                    Rows(SortByOpen(klines), interval, start, FloorOpenTime(Earlier(end, now), interval)), now)
  {
    hide SortByOpen, Scoped, Rows, Evaluate, Reports, From, FloorOpenTime;
    SortIsInOrder(klines);
    DirectKeepsTheRows(SortByOpen(klines), interval, start, FloorOpenTime(Earlier(end, now), interval));
    EvaluateReportsScoped(klines, interval, start, end, now);
  }

  /** On any data the two forms report the same first and last open, counts, duplicates and unclosed flag. */
  lemma ReportsAgree(klines: seq<Kline>, interval: Interval, start: Option<int>, end: int, now: int)
    ensures var fast, direct := Build(GetRangeCoverage(klines, interval, start, end, now), interval, start, end, now),
                                Evaluate(klines, interval, start, end, now);
      && fast.firstOpenTime == direct.firstOpenTime && fast.lastOpenTime == direct.lastOpenTime
      && fast.actualCandles == direct.actualCandles && fast.duplicateCandles == direct.duplicateCandles
      && fast.hasUnclosedCandle == direct.hasUnclosedCandle
  {
    FastReports(klines, interval, start, end, now);
    DirectReports(klines, interval, start, end, now);
    hide Build, Evaluate, GetRangeCoverage, Rows, SortByOpen, Opens;
  }

  // ---------------------------------------------------------------- the verdict

  /** What `is_fully_covered` checks, on the shared opens. */
  ghost predicate FastFull(opens: seq<int>, interval: Interval, from: int, closedEnd: int) {
    && opens != [] && opens[0] == from && opens[|opens| - 1] == closedEnd - interval
    && |Distinct(opens)| == (closedEnd - from) / interval && |opens| == |Distinct(opens)|
    && forall i :: !GapAt(opens, interval, i)
  }

  ghost predicate DirectFull(opens: seq<int>, interval: Interval, from: int, closedEnd: int) {
    Absent(Grid(from, closedEnd, interval), Distinct(opens)) == [] && |opens| == |Distinct(opens)|
  }

  lemma {:induction false} AbsentIsEmpty(expected: seq<int>, present: set<int>)
    ensures Absent(expected, present) == [] <==> forall t :: t in expected ==> t in present
  {
    if expected != [] {
      AbsentIsEmpty(expected[..|expected| - 1], present);
      assert expected == expected[..|expected| - 1] + [expected[|expected| - 1]];
    }
  }

  /** Without a gap the opens cannot run ahead of one interval per candle. */
  lemma {:induction false} NoGapBound(opens: seq<int>, interval: Interval, i: nat, j: nat)
    requires i <= j < |opens| && forall k :: !GapAt(opens, interval, k)
    ensures opens[j] <= opens[i] + (j - i) * interval
  {
    if i < j {
      NoGapBound(opens, interval, i, j - 1);
      assert !GapAt(opens, interval, j);
      assert (j - i) * interval == (j - 1 - i) * interval + interval;
    }
  }

  /** Pigeonhole: `n` gap-free opens that span `n` intervals sit exactly one interval apart. */
  lemma FullSpanIsTheGrid(opens: seq<int>, interval: Interval, from: int, closedEnd: int)
    requires FastFull(opens, interval, from, closedEnd)
    ensures closedEnd == from + |opens| * interval
    ensures forall i :: 0 <= i < |opens| ==> opens[i] == from + i * interval
  {
    var n := |opens|;
    NoGapBound(opens, interval, 0, n - 1);
    assert n * interval == (n - 1) * interval + interval;
    assert (closedEnd - from) / interval * interval <= closedEnd - from;
    assert closedEnd - from == n * interval;
    forall i | 0 <= i < n ensures opens[i] == from + i * interval {
      NoGapBound(opens, interval, 0, i);
      NoGapBound(opens, interval, i, n - 1);
      assert (n - 1) * interval == i * interval + (n - 1 - i) * interval;
    }
  }

  lemma FastFullIsDirectFull(opens: seq<int>, interval: Interval, from: int, closedEnd: int)
    requires FastFull(opens, interval, from, closedEnd) && OnGrid(closedEnd, interval)
    ensures DirectFull(opens, interval, from, closedEnd)
    ensures forall t :: t in opens ==> OnGrid(t, interval)
  {
    FullSpanIsTheGrid(opens, interval, from, closedEnd);
    var expected, n := Grid(from, closedEnd, interval), |opens|;
    forall t | t in expected ensures t in opens {
      GridAt(from, n, interval, t);
      var k :| 0 <= k < n && t == from + k * interval;
      assert opens[k] == t;
    }
    AbsentIsEmpty(expected, Distinct(opens));
    var a := Multiple(closedEnd, interval);
    forall t | t in opens ensures OnGrid(t, interval) {
      var i :| 0 <= i < n && opens[i] == t;
      assert t == (a - n + i) * interval;
      MultipleOnGrid(a - n + i, interval);
    }
  }

  /** An ascending list of grid candles inside the range, as both forms see it. */
  ghost predicate OnGridRange(opens: seq<int>, interval: Interval, from: int, closedEnd: int) {
    && Ascending(opens) && OnGrid(from, interval) && OnGrid(closedEnd, interval) && from < closedEnd
    && forall t :: t in opens ==> from <= t < closedEnd && OnGrid(t, interval)
  }

  lemma QuotientOf(d: int, k: int, interval: Interval)
    requires d == k * interval
    ensures d / interval == k
  {
    var q := d / interval;
    assert (k - q) * interval == k * interval - q * interval;
    SmallMultipleIsZero(k - q, interval);
  }

  lemma GridSize(from: int, closedEnd: int, interval: Interval)
    requires OnGrid(from, interval) && OnGrid(closedEnd, interval) && from <= closedEnd
    ensures |Grid(from, closedEnd, interval)| == (closedEnd - from) / interval
  {
    var a := Multiple(from, interval);
    var b := Multiple(closedEnd, interval);
    assert (b - a) * interval == b * interval - a * interval;
    if b - a < 0 {
      AtMostZero(b - a, interval);
      AtLeastOne(a - b, interval);
    }
    QuotientOf(closedEnd - from, b - a, interval);
    GridLength(from, b - a, interval);
  }

  lemma AscendingExtremes(opens: seq<int>, t: int)
    requires Ascending(opens) && t in opens
    ensures opens[0] in opens && opens[|opens| - 1] in opens
    ensures opens[0] <= t <= opens[|opens| - 1]
  {
    var k :| 0 <= k < |opens| && opens[k] == t;
  }

  lemma MidGapPointIsAbsent(opens: seq<int>, interval: Interval, i: int)
    requires Ascending(opens) && GapAt(opens, interval, i)
    ensures opens[i - 1] + interval !in opens
  {
    forall k | 0 <= k < |opens| ensures opens[k] != opens[i - 1] + interval {
      if k <= i - 1 {
        assert opens[k] <= opens[i - 1];
      } else {
        assert opens[i] <= opens[k];
      }
    }
  }

  /** If every grid point of the range is present, no two neighbouring opens are a gap apart. */
  lemma NoHoleNoGap(opens: seq<int>, interval: Interval, from: int, closedEnd: int)
    requires OnGridRange(opens, interval, from, closedEnd)
    requires forall t :: t in Grid(from, closedEnd, interval) ==> t in opens
    ensures forall i :: !GapAt(opens, interval, i)
  {
    forall i ensures !GapAt(opens, interval, i) {
      if GapAt(opens, interval, i) {
        var hole := opens[i - 1] + interval;
        assert opens[i - 1] in opens && opens[i] in opens;
        GridShift(opens[i - 1], interval);
        GridContains(from, closedEnd, interval, hole);
        MidGapPointIsAbsent(opens, interval, i);
      }
    }
  }

  lemma DirectFullOnGridIsFastFull(opens: seq<int>, interval: Interval, from: int, closedEnd: int)
    requires OnGridRange(opens, interval, from, closedEnd) && DirectFull(opens, interval, from, closedEnd)
    ensures FastFull(opens, interval, from, closedEnd)
  {
    var expected := Grid(from, closedEnd, interval);
    AbsentIsEmpty(expected, Distinct(opens));
    NoDuplicatesMeansStrict(opens);
    GridStep(from, closedEnd, interval);
    GridShift(closedEnd, interval);
    GridContains(from, closedEnd, interval, from);
    GridContains(from, closedEnd, interval, closedEnd - interval);
    assert from in opens && closedEnd - interval in opens;
    AscendingExtremes(opens, from);
    AscendingExtremes(opens, closedEnd - interval);
    GridStep(opens[|opens| - 1], closedEnd, interval);
    forall t ensures t in expected <==> t in opens {
      GridContains(from, closedEnd, interval, t);
    }
    assert Distinct(expected) == Distinct(opens);
    GridPoints(from, closedEnd, interval);
    DistinctBound(expected);
    GridSize(from, closedEnd, interval);
    NoHoleNoGap(opens, interval, from, closedEnd);
  }

  /** Every candle the range holds opens on the interval grid. */
  ghost predicate CandlesOnGrid(klines: seq<Kline>, interval: Interval, start: Option<int>, end: int, now: int) {
    forall t :: t in Opens(Rows(SortByOpen(klines), interval, start, FloorOpenTime(Earlier(end, now), interval))) ==>
      OnGrid(t, interval)
  }

  lemma SnapshotIsFull(rows: seq<Kline>, interval: Interval, now: int, from: int, closedEnd: int)
    requires Ascending(Opens(rows))
    ensures FullyCovered(RangeSnapshot(rows, interval, now), interval, from, closedEnd)
       <==> FastFull(Opens(rows), interval, from, closedEnd) && !AnyUnclosed(rows, now)
  {
    AggregatesOf(rows, interval, now);
    FirstGapAfter(Opens(rows), interval);
    DistinctBound(Opens(rows));
    hide MinOf, MaxOf, GapStarts, UnclosedCount, AnyUnclosed, Opens, Ascending;
  }

  ghost predicate IsFirstGap(opens: seq<int>, interval: Interval, gap: Option<int>) {
    if gap.None? then forall i :: !GapAt(opens, interval, i)
    else exists i :: FirstGap(opens, interval, i) && gap.value == opens[i - 1]
  }

  lemma SnapshotOfRange(klines: seq<Kline>, interval: Interval, start: Option<int>, closedEnd: int, now: int)
    ensures var from, rows := From(SortByOpen(klines), interval, start),
                              Rows(SortByOpen(klines), interval, start, closedEnd);
      var snapshot := RangeSnapshot(rows, interval, now);
      && Ascending(Opens(rows))
      && IsFirstGap(Opens(rows), interval, snapshot.firstGapAfter)
      && (start.Some? ==> from == Some(CeilOpenTime(start.value, interval)))
      && (start.None? ==> snapshot.firstRecord == from
                          || (snapshot.firstRecord.None? && (from.None? || from.value >= closedEnd)))
  {
    SortIsInOrder(klines);
    SameStart(SortByOpen(klines), interval, start, closedEnd);
    var rows := Rows(SortByOpen(klines), interval, start, closedEnd);
    AggregatesOf(rows, interval, now);
    FirstGapAfter(Opens(rows), interval);
    hide SortByOpen, Rows, Distinct, AnyUnclosed, GapAt, MinOf, MaxOf, GapStarts, UnclosedCount;
  }

  lemma BuildOfSnapshot(snapshot: Snapshot, interval: Interval, start: Option<int>, end: int, now: int,
                        from: Option<int>)
    requires start.Some? ==> from == Some(CeilOpenTime(start.value, interval))
    requires var closedEnd := FloorOpenTime(Earlier(end, now), interval);
      start.None? ==> snapshot.firstRecord == from
                      || (snapshot.firstRecord.None? && (from.None? || from.value >= closedEnd))
    ensures var closedEnd := FloorOpenTime(Earlier(end, now), interval);
      var fast := Build(snapshot, interval, start, end, now);
      && (fast.isFullyCovered <==>
            from.Some? && from.value < closedEnd && FullyCovered(snapshot, interval, from.value, closedEnd))
      && fast.missingOpenTimes ==
           (if from.Some? && from.value < closedEnd
            then FirstThree(Deduplicated(MissingHints(snapshot, interval, from.value, closedEnd))) else [])
      && fast.expectedCandles
           == (if from.Some? && from.value < closedEnd then (closedEnd - from.value) / interval else 0)
  {
  }

  lemma FastUnfolded(klines: seq<Kline>, interval: Interval, start: Option<int>, end: int, now: int)
    ensures var closedEnd := FloorOpenTime(Earlier(end, now), interval);
      var rows, from := Rows(SortByOpen(klines), interval, start, closedEnd), From(SortByOpen(klines), interval, start);
      var fast := Build(GetRangeCoverage(klines, interval, start, end, now), interval, start, end, now);
      fast.isFullyCovered <==>
        from.Some? && from.value < closedEnd && !AnyUnclosed(rows, now)
        && FastFull(Opens(rows), interval, from.value, closedEnd)
  {
    hide *;
    var closedEnd := FloorOpenTime(Earlier(end, now), interval);
    var rows, from := Rows(SortByOpen(klines), interval, start, closedEnd), From(SortByOpen(klines), interval, start);
    ProbeReadsTheRows(klines, interval, start, end, now);
    SnapshotOfRange(klines, interval, start, closedEnd, now);
    BuildOfSnapshot(RangeSnapshot(rows, interval, now), interval, start, end, now, from);
    if from.Some? {
      SnapshotIsFull(rows, interval, now, from.value, closedEnd);
    }
  }

  lemma DirectUnfolded(klines: seq<Kline>, interval: Interval, start: Option<int>, end: int, now: int)
    ensures var closedEnd := FloorOpenTime(Earlier(end, now), interval);
      var rows, from := Rows(SortByOpen(klines), interval, start, closedEnd), From(SortByOpen(klines), interval, start);
      var direct := Evaluate(klines, interval, start, end, now);
      direct.isFullyCovered <==>
        from.Some? && from.value < closedEnd && !AnyUnclosed(rows, now)
        && DirectFull(Opens(rows), interval, from.value, closedEnd)
  {
    SortIsInOrder(klines);
    DirectKeepsTheRows(SortByOpen(klines), interval, start, FloorOpenTime(Earlier(end, now), interval));
    hide SortByOpen, Scoped, Opens, Absent, Grid, AnyUnclosed;
  }

  /**
   * On any data: if the six-aggregate verdict says fully covered, the direct verdict does too; and the
   * two verdicts are equal exactly when no candle of a fully covered range opens off the grid.
   */
  lemma FastVerdictRefinesDirect(klines: seq<Kline>, interval: Interval, start: Option<int>, end: int, now: int)
    ensures var fast, direct := Build(GetRangeCoverage(klines, interval, start, end, now), interval, start, end, now),
                                Evaluate(klines, interval, start, end, now);
      && (fast.isFullyCovered ==> direct.isFullyCovered)
      && (fast.isFullyCovered <==> direct.isFullyCovered && CandlesOnGrid(klines, interval, start, end, now))
  {
    var closedEnd := FloorOpenTime(Earlier(end, now), interval);
    var ordered := SortByOpen(klines);
    SortIsInOrder(klines);
    SameStart(ordered, interval, start, closedEnd);
    FastUnfolded(klines, interval, start, end, now);
    DirectUnfolded(klines, interval, start, end, now);
    MultipleOnGrid(Earlier(end, now) / interval, interval);
    if start.Some? {
      MultipleOnGrid((start.value + interval - 1) / interval, interval);
    }
    var opens, from := Opens(Rows(ordered, interval, start, closedEnd)), From(ordered, interval, start);
    hide SortByOpen, Scoped, Rows, Build, Evaluate, GetRangeCoverage, Absent, Grid;
    if from.Some? && from.value < closedEnd {
      if FastFull(opens, interval, from.value, closedEnd) {
        FastFullIsDirectFull(opens, interval, from.value, closedEnd);
      }
      if opens != [] {
        assert opens[0] in opens;
      }
      if DirectFull(opens, interval, from.value, closedEnd) && CandlesOnGrid(klines, interval, start, end, now)
         && (start.Some? || opens != []) {
        DirectFullOnGridIsFastFull(opens, interval, from.value, closedEnd);
      }
    }
  }

  lemma ThreeInOrder(a: Kline, b: Kline, c: Kline, upper: int)
    requires a.openTime <= b.openTime <= c.openTime < upper
    ensures SortByOpen([a, b, c]) == [a, b, c] && Scoped([a, b, c], Some(a.openTime), upper) == [a, b, c]
  {
    assert [a, b, c][..2] == [a, b] && [a, b][..1] == [a] && [a][..0] == [];
    assert SortByOpen([a]) == [a] && SortByOpen([a, b]) == [a, b];
    assert Scoped([a], Some(a.openTime), upper) == [a] && Scoped([a, b], Some(a.openTime), upper) == [a, b];
  }

  lemma FloorAndCeil(interval: Interval)
    requires interval == 60
    ensures FloorOpenTime(Earlier(120, 120), interval) == 120 && CeilOpenTime(0, interval) == 0
  {
  }

  lemma SurplusCandle(klines: seq<Kline>, interval: Interval)
    requires klines == [Kline(0, 60), Kline(30, 60), Kline(60, 120)] && interval == 60
    requires SortByOpen(klines) == klines && Scoped(klines, Some(0), 120) == klines
    requires FloorOpenTime(Earlier(120, 120), interval) == 120 && CeilOpenTime(0, interval) == 0
    ensures From(SortByOpen(klines), interval, Some(0)) == Some(0)
    ensures !CandlesOnGrid(klines, interval, Some(0), 120, 120)
    ensures !AnyUnclosed(Rows(SortByOpen(klines), interval, Some(0), 120), 120)
    ensures DirectFull(Opens(Rows(SortByOpen(klines), interval, Some(0), 120)), interval, 0, 120)
  {
    hide SortByOpen, Scoped, FloorOpenTime, CeilOpenTime, Absent, Grid, Earlier;
    assert Rows(klines, interval, Some(0), 120) == klines;
    var opens := Opens(klines);
    assert opens == [0, 30, 60] && opens[1] in opens && !OnGrid(opens[1], interval);
    assert Distinct(opens) == {0, 30, 60};
    GridPoints(0, 120, interval);
    forall t | t in Grid(0, 120, interval) ensures t in Distinct(opens) {
      GridContains(0, 120, interval, t);
    }
    AbsentIsEmpty(Grid(0, 120, interval), Distinct(opens));
  }

  /** A surplus candle off the grid: complete for the direct form, not for the fast one. */
  lemma OffGridCandleSplitsTheVerdicts()
    ensures var klines := [Kline(0, 60), Kline(30, 60), Kline(60, 120)];
      && Evaluate(klines, 60, Some(0), 120, 120).isFullyCovered
      && !Build(GetRangeCoverage(klines, 60, Some(0), 120, 120), 60, Some(0), 120, 120).isFullyCovered
  {
    hide *;
    var interval: Interval := 60;
    var klines := [Kline(0, 60), Kline(30, 60), Kline(60, 120)];
    ThreeInOrder(Kline(0, 60), Kline(30, 60), Kline(60, 120), 120);
    FloorAndCeil(interval);
    FastVerdictRefinesDirect(klines, interval, Some(0), 120, 120);
    DirectUnfolded(klines, interval, Some(0), 120, 120);
    SurplusCandle(klines, interval);
  }

  // ---------------------------------------------------------------- the diagnostics

  lemma {:induction false} AbsentMembers(expected: seq<int>, present: set<int>)
    requires StrictlyAscending(expected)
    ensures StrictlyAscending(Absent(expected, present))
    ensures forall t :: t in Absent(expected, present) <==> t in expected && t !in present
  {
    if expected != [] {
      var before, last := expected[..|expected| - 1], expected[|expected| - 1];
      AbsentMembers(before, present);
      assert expected == before + [last];
      assert forall i :: 0 <= i < |Absent(before, present)| ==> Absent(before, present)[i] in Absent(before, present);
    }
  }

  /** The least missing point is the first one listed. */
  lemma FirstAbsent(expected: seq<int>, present: set<int>, least: int)
    requires StrictlyAscending(expected) && least in expected && least !in present
    requires forall t :: t in expected && t < least ==> t in present
    ensures Absent(expected, present) != [] && Absent(expected, present)[0] == least
  {
    AbsentMembers(expected, present);
    var missing := Absent(expected, present);
    var k :| 0 <= k < |missing| && missing[k] == least;
    assert missing[0] in missing;
  }

  lemma {:induction false} DeduplicatedIsIdle(ts: seq<int>)
    requires StrictlyAscending(ts)
    ensures Deduplicated(ts) == ts
  {
    if ts != [] {
      DeduplicatedIsIdle(ts[..|ts| - 1]);
      assert ts == ts[..|ts| - 1] + [ts[|ts| - 1]];
    }
  }

  /** The hints, written over the shared opens; `gap` is the first gap, if any. */
  function HintsOf(opens: seq<int>, interval: Interval, from: int, closedEnd: int, gap: Option<int>): seq<int> {
    (if opens == [] || opens[0] > from then [from] else [])
    + (if gap.Some? then [gap.value + interval] else [])
    + (if opens != [] && opens[|opens| - 1] < closedEnd - interval then [opens[|opens| - 1] + interval] else [])
  }

  /** A point every hint must be: expected, and not there. */
  ghost predicate TrulyMissing(opens: seq<int>, interval: Interval, from: int, closedEnd: int, t: int) {
    t in Grid(from, closedEnd, interval) && t !in opens
  }

  lemma GapHintIsMissing(opens: seq<int>, interval: Interval, from: int, closedEnd: int, i: int)
    requires OnGridRange(opens, interval, from, closedEnd) && GapAt(opens, interval, i)
    ensures TrulyMissing(opens, interval, from, closedEnd, opens[i - 1] + interval)
  {
    assert opens[i - 1] in opens && opens[i] in opens;
    GridShift(opens[i - 1], interval);
    GridContains(from, closedEnd, interval, opens[i - 1] + interval);
    MidGapPointIsAbsent(opens, interval, i);
  }

  lemma EndHintIsMissing(opens: seq<int>, interval: Interval, from: int, closedEnd: int)
    requires OnGridRange(opens, interval, from, closedEnd) && opens != [] && opens[|opens| - 1] < closedEnd - interval
    ensures TrulyMissing(opens, interval, from, closedEnd, opens[|opens| - 1] + interval)
  {
    var last := opens[|opens| - 1];
    assert last in opens;
    GridShift(last, interval);
    GridContains(from, closedEnd, interval, last + interval);
    if last + interval in opens {
      AscendingExtremes(opens, last + interval);
    }
  }

  lemma StartHintIsMissing(opens: seq<int>, interval: Interval, from: int, closedEnd: int)
    requires OnGridRange(opens, interval, from, closedEnd) && (opens == [] || opens[0] > from)
    ensures TrulyMissing(opens, interval, from, closedEnd, from)
  {
    GridContains(from, closedEnd, interval, from);
    if from in opens {
      AscendingExtremes(opens, from);
    }
  }

  /** On the grid every hint is truly missing and the hints are strictly increasing. */
  lemma HintsAreMissing(opens: seq<int>, interval: Interval, from: int, closedEnd: int, gap: Option<int>)
    requires OnGridRange(opens, interval, from, closedEnd) && IsFirstGap(opens, interval, gap)
    ensures var hints := HintsOf(opens, interval, from, closedEnd, gap);
      StrictlyAscending(hints) && forall t :: t in hints ==> TrulyMissing(opens, interval, from, closedEnd, t)
  {
    if opens == [] || opens[0] > from {
      StartHintIsMissing(opens, interval, from, closedEnd);
    }
    if gap.Some? {
      var i :| FirstGap(opens, interval, i) && gap.value == opens[i - 1];
      GapHintIsMissing(opens, interval, from, closedEnd, i);
      assert opens[i - 1] in opens && opens[i] in opens;
      AscendingExtremes(opens, opens[i - 1]);
      AscendingExtremes(opens, opens[i]);
    }
    if opens != [] && opens[|opens| - 1] < closedEnd - interval {
      EndHintIsMissing(opens, interval, from, closedEnd);
      assert opens[0] in opens;
      AscendingExtremes(opens, opens[0]);
    }
    hide TrulyMissing, GapAt, Ascending, OnGridRange;
  }

  /** Everything expected before the first hint is there; with no hint, everything is. */
  lemma NothingMissingBeforeFirstHint(opens: seq<int>, interval: Interval, from: int, closedEnd: int,
                                      gap: Option<int>, t: int)
    requires OnGridRange(opens, interval, from, closedEnd) && IsFirstGap(opens, interval, gap)
    requires t in Grid(from, closedEnd, interval)
    requires var hints := HintsOf(opens, interval, from, closedEnd, gap); hints != [] ==> t < hints[0]
    ensures t in opens
  {
    GridContains(from, closedEnd, interval, t);
    if opens != [] && opens[0] <= from {
      assert opens[0] in opens;
      if gap.Some? {
        var i :| FirstGap(opens, interval, i) && gap.value == opens[i - 1];
        assert opens[i - 1] in opens;
        if opens[i - 1] < t {
          GridStep(opens[i - 1], t, interval);
        }
        ContiguousUpTo(opens, interval, i - 1, t);
      } else {
        var last := opens[|opens| - 1];
        assert last in opens;
        if last < t {
          GridStep(last, t, interval);
          GridStep(t, closedEnd, interval);
        }
        ContiguousUpTo(opens, interval, |opens| - 1, t);
      }
    }
  }

  /** The hint list and the direct list of missing opens: empty together, and with the same first entry. */
  lemma HintsAgreeWithMissing(opens: seq<int>, interval: Interval, from: int, closedEnd: int, gap: Option<int>)
    requires OnGridRange(opens, interval, from, closedEnd) && IsFirstGap(opens, interval, gap)
    ensures var hints, missing := HintsOf(opens, interval, from, closedEnd, gap),
                                  Absent(Grid(from, closedEnd, interval), Distinct(opens));
      && (hints == [] <==> missing == [])
      && (hints != [] ==> missing[0] == hints[0])
      && forall t :: t in hints ==> t in missing
  {
    var expected := Grid(from, closedEnd, interval);
    var hints := HintsOf(opens, interval, from, closedEnd, gap);
    HintsAreMissing(opens, interval, from, closedEnd, gap);
    GridPoints(from, closedEnd, interval);
    AbsentMembers(expected, Distinct(opens));
    forall t | t in expected && (hints != [] ==> t < hints[0]) ensures t in Distinct(opens) {
      NothingMissingBeforeFirstHint(opens, interval, from, closedEnd, gap, t);
    }
    if hints == [] {
      AbsentIsEmpty(expected, Distinct(opens));
    } else {
      assert hints[0] in hints;
      FirstAbsent(expected, Distinct(opens), hints[0]);
    }
    hide HintsOf, IsFirstGap, OnGridRange, Absent, Grid;
  }

  lemma HintsOfRows(rows: seq<Kline>, interval: Interval, now: int, from: int, closedEnd: int)
    requires Ascending(Opens(rows))
    ensures var snapshot := RangeSnapshot(rows, interval, now);
      MissingHints(snapshot, interval, from, closedEnd)
      == HintsOf(Opens(rows), interval, from, closedEnd, snapshot.firstGapAfter)
  {
    AggregatesOf(rows, interval, now);
    hide RangeSnapshot, Opens, Distinct, AnyUnclosed;
  }

  /** The fast form's missing list, over the shared opens. */
  lemma FastMissing(klines: seq<Kline>, interval: Interval, start: Option<int>, end: int, now: int)
    returns (gap: Option<int>)
    ensures var closedEnd := FloorOpenTime(Earlier(end, now), interval);
      var from, opens := From(SortByOpen(klines), interval, start),
                         Opens(Rows(SortByOpen(klines), interval, start, closedEnd));
      var fast := Build(GetRangeCoverage(klines, interval, start, end, now), interval, start, end, now);
      && IsFirstGap(opens, interval, gap)
      && fast.missingOpenTimes ==
           (if from.Some? && from.value < closedEnd
            then FirstThree(Deduplicated(HintsOf(opens, interval, from.value, closedEnd, gap))) else [])
      && fast.expectedCandles
           == (if from.Some? && from.value < closedEnd then (closedEnd - from.value) / interval else 0)
  {
    hide *;
    var closedEnd := FloorOpenTime(Earlier(end, now), interval);
    var rows := Rows(SortByOpen(klines), interval, start, closedEnd);
    ProbeReadsTheRows(klines, interval, start, end, now);
    gap := RangeSnapshot(rows, interval, now).firstGapAfter;
    SnapshotOfRange(klines, interval, start, closedEnd, now);
    BuildOfSnapshot(RangeSnapshot(rows, interval, now), interval, start, end, now,
                    From(SortByOpen(klines), interval, start));
    if From(SortByOpen(klines), interval, start).Some? {
      HintsOfRows(rows, interval, now, From(SortByOpen(klines), interval, start).value, closedEnd);
    }
  }

  lemma DirectMissing(klines: seq<Kline>, interval: Interval, start: Option<int>, end: int, now: int)
    ensures var closedEnd := FloorOpenTime(Earlier(end, now), interval);
      var from, opens := From(SortByOpen(klines), interval, start),
                         Opens(Rows(SortByOpen(klines), interval, start, closedEnd));
      var direct := Evaluate(klines, interval, start, end, now);
      && direct.missingOpenTimes ==
           (if from.Some? && from.value < closedEnd
            then FirstThree(Absent(Grid(from.value, closedEnd, interval), Distinct(opens))) else [])
      && direct.expectedCandles
           == (if from.Some? && from.value < closedEnd then |Grid(from.value, closedEnd, interval)| else 0)
  {
    SortIsInOrder(klines);
    DirectKeepsTheRows(SortByOpen(klines), interval, start, FloorOpenTime(Earlier(end, now), interval));
    hide SortByOpen, Scoped, Rows, Opens, AnyUnclosed, FirstThree, Absent, Grid, Distinct, FloorOpenTime, CeilOpenTime;
  }

  /** The range both forms work on is a grid range, once its candles are on the grid. */
  lemma RangeIsOnGrid(klines: seq<Kline>, interval: Interval, start: Option<int>, end: int, now: int)
    requires CandlesOnGrid(klines, interval, start, end, now)
    ensures var closedEnd := FloorOpenTime(Earlier(end, now), interval);
      var from, opens := From(SortByOpen(klines), interval, start),
                         Opens(Rows(SortByOpen(klines), interval, start, closedEnd));
      from.Some? && from.value < closedEnd ==> OnGridRange(opens, interval, from.value, closedEnd)
  {
    var closedEnd := FloorOpenTime(Earlier(end, now), interval);
    var ordered := SortByOpen(klines);
    SortIsInOrder(klines);
    SameStart(ordered, interval, start, closedEnd);
    MultipleOnGrid(Earlier(end, now) / interval, interval);
    if start.Some? {
      MultipleOnGrid((start.value + interval - 1) / interval, interval);
    }
    var rows := Rows(ordered, interval, start, closedEnd);
    assert rows != [] ==> Opens(rows)[0] in Opens(rows);
    assert rows == [] ==> Opens(rows) == [];
    hide SortByOpen, Rows;
  }

  lemma DiagnosticsOfRows(opens: seq<int>, interval: Interval, from: int, closedEnd: int, gap: Option<int>)
    requires OnGridRange(opens, interval, from, closedEnd) && IsFirstGap(opens, interval, gap)
    ensures var fast, direct := FirstThree(Deduplicated(HintsOf(opens, interval, from, closedEnd, gap))),
                                FirstThree(Absent(Grid(from, closedEnd, interval), Distinct(opens)));
      && StrictlyAscending(fast)
      && (fast == [] <==> direct == [])
      && (fast != [] ==> fast[0] == direct[0])
      && (forall t :: t in fast ==> TrulyMissing(opens, interval, from, closedEnd, t))
  {
    hide TrulyMissing, IsFirstGap, HintsOf, Absent, Grid, Deduplicated, OnGridRange, Distinct, GapAt, Ascending;
    HintsAreMissing(opens, interval, from, closedEnd, gap);
    HintsAgreeWithMissing(opens, interval, from, closedEnd, gap);
    DeduplicatedIsIdle(HintsOf(opens, interval, from, closedEnd, gap));
    var hints := HintsOf(opens, interval, from, closedEnd, gap);
    assert forall t :: t in FirstThree(hints) ==> t in hints;
  }

  lemma NothingIsAscending()
    ensures StrictlyAscending([])
  {
  }

  lemma RangeEndsOnGrid(opens: seq<int>, interval: Interval, from: int, closedEnd: int)
    requires OnGridRange(opens, interval, from, closedEnd)
    ensures OnGrid(from, interval) && OnGrid(closedEnd, interval) && from < closedEnd
  {
  }

  /**
   * On grid-aligned data the fast diagnostics are strictly increasing and truly missing, empty exactly
   * when nothing is missing, and begin with the first missing open; both forms expect as many candles.
   */
  lemma DiagnosticsAgree(klines: seq<Kline>, interval: Interval, start: Option<int>, end: int, now: int)
    requires CandlesOnGrid(klines, interval, start, end, now)
    ensures var closedEnd := FloorOpenTime(Earlier(end, now), interval);
      var from, opens := From(SortByOpen(klines), interval, start),
                         Opens(Rows(SortByOpen(klines), interval, start, closedEnd));
      var fast, direct := Build(GetRangeCoverage(klines, interval, start, end, now), interval, start, end, now),
                          Evaluate(klines, interval, start, end, now);
      && StrictlyAscending(fast.missingOpenTimes)
      && (fast.missingOpenTimes == [] <==> direct.missingOpenTimes == [])
      && (fast.missingOpenTimes != [] ==> fast.missingOpenTimes[0] == direct.missingOpenTimes[0])
      && (forall t :: t in fast.missingOpenTimes ==>
            from.Some? && TrulyMissing(opens, interval, from.value, closedEnd, t))
      && fast.expectedCandles == direct.expectedCandles
  {
    hide *;
    NothingIsAscending();
    var closedEnd := FloorOpenTime(Earlier(end, now), interval);
    var from, opens := From(SortByOpen(klines), interval, start),
                       Opens(Rows(SortByOpen(klines), interval, start, closedEnd));
    var gap := FastMissing(klines, interval, start, end, now);
    DirectMissing(klines, interval, start, end, now);
    RangeIsOnGrid(klines, interval, start, end, now);
    if from.Some? && from.value < closedEnd {
      DiagnosticsOfRows(opens, interval, from.value, closedEnd, gap);
      RangeEndsOnGrid(opens, interval, from.value, closedEnd);
      GridSize(from.value, closedEnd, interval);
    }
  }
}
