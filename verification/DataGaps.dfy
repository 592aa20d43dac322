/** Gaps in a stored candle history: how they are counted, listed, fetched and repaired. */
module DataGaps {
  import opened Prelude
  import opened OpenTimes
  import opened RangeCoverage

  datatype DataGap = DataGap(startTime: int, endTime: int, missingCandles: int) {
    function FetchStartTime(interval: Interval): int {
      startTime + interval
    }

    function FetchEndTime(interval: Interval): int {
      endTime - interval
    }
  }

  /** One result row of the gaps query. */
  datatype GapRow = GapRow(gapStart: int, gapEnd: int, missing: int)

  /** The gaps query over the rows in open-time order: LAG is the previous element. */
  function GapsQuery(opens: seq<int>, interval: Interval): seq<GapRow> {
    if |opens| < 2 then []
    else
      var n := |opens|;
      GapsQuery(opens[..n - 1], interval)
      + if GapAt(opens, interval, n - 1)
        then [GapRow(opens[n - 2], opens[n - 1], (opens[n - 1] - opens[n - 2] - interval) / interval)] else []
  }

  /** `max(1, int(row[2] or 1))`. */
  function MissingCandles(reported: int): int {
    var orOne := if reported == 0 then 1 else reported;
    if orOne > 1 then orOne else 1
  }

  function ToGap(row: GapRow): DataGap {
    DataGap(row.gapStart, row.gapEnd, MissingCandles(row.missing))
  }

  function Gaps(opens: seq<int>, interval: Interval): seq<DataGap> {
    var rows := GapsQuery(opens, interval);
    seq(|rows|, i requires 0 <= i < |rows| => ToGap(rows[i]))
  }

  /** `get_gaps`; a symbol without a shard has none. */
  method GetGaps(hasShard: bool, opens: seq<int>, interval: Interval) returns (gaps: seq<DataGap>)
    ensures gaps == if hasShard then Gaps(opens, interval) else []
  {
    gaps := [];
    if hasShard {
      var rows := GapsQuery(opens, interval);
      for i := 0 to |rows|
        invariant gaps == Gaps(opens, interval)[..i]
      {
        gaps := gaps + [DataGap(rows[i].gapStart, rows[i].gapEnd, MissingCandles(rows[i].missing))];
      }
    }
  }

  function TotalMissing(gaps: seq<DataGap>): int {
    if gaps == [] then 0 else TotalMissing(gaps[..|gaps| - 1]) + gaps[|gaps| - 1].missingCandles
  }

  // ---------------------------------------------------------------- the status query

  datatype StatusRow = StatusRow(first: Option<int>, last: Option<int>, total: nat, gaps: Option<int>)
  datatype Status = Status(firstRecord: Option<int>, lastRecord: Option<int>, totalCandles: nat, gaps: int)

  /** `SUM(CASE WHEN … THEN 1 ELSE 0 END)`, NULL over no row. */
  function GapSum(opens: seq<int>, interval: Interval): Option<int> {
    if opens == [] then None
    else
      var n := |opens|;
      var rest := GapSum(opens[..n - 1], interval);
      Some((if rest.Some? then rest.value else 0) + if GapAt(opens, interval, n - 1) then 1 else 0)
  }

  function StatusQuery(opens: seq<int>, interval: Interval): StatusRow {
    StatusRow(MinOf(opens), MaxOf(opens), |opens|, GapSum(opens, interval))
  }

  function MapStatusResult(result: Option<StatusRow>): Status {
    if result.None? || result.value.total == 0 then Status(None, None, 0, 0)
    else
      var row := result.value;
      Status(row.first, row.last, row.total, if row.gaps.Some? then row.gaps.value else 0)
  }
}

/** Gap conservation and repair. */
module GapProofs {
  import opened Prelude
  import opened OpenTimes
  import opened RangeCoverage
  import opened CoverageProofs
  import opened DataGaps

  /** Rows of one interval in open-time order: the key makes the opens distinct, and they lie on the grid. */
  ghost predicate History(opens: seq<int>) {
    opens != [] && StrictlyAscending(opens)
  }

  ghost predicate Aligned(opens: seq<int>, interval: Interval) {
    forall t :: t in opens ==> OnGrid(t, interval)
  }

  lemma QuotientOfMultiple(k: int, interval: Interval)
    ensures (k * interval) / interval == k
  {
    var q, r := (k * interval) / interval, (k * interval) % interval;
    assert (k - q) * interval == k * interval - q * interval;
    SmallMultipleIsZero(k - q, interval);
  }

  /** Between two grid points, the intervals spanned; a gap of `d` intervals misses `d - 1` candles. */
  lemma SpanInIntervals(p: int, q: int, interval: Interval) returns (d: int)
    requires OnGrid(p, interval) && OnGrid(q, interval) && p < q
    ensures d >= 1 && q - p == d * interval
    ensures (q - p) / interval == d && (q - p - interval) / interval == d - 1
    ensures q - p > interval <==> d >= 2
  {
    var a := Multiple(p, interval);
    var b := Multiple(q, interval);
    d := b - a;
    assert d * interval == b * interval - a * interval;
    if d <= 0 { AtMostZero(d, interval); }
    QuotientOfMultiple(d, interval);
    assert (d - 1) * interval == d * interval - interval;
    QuotientOfMultiple(d - 1, interval);
    if d >= 2 { AtLeastTwo(d, interval); }
  }

  lemma GapsOfLonger(opens: seq<int>, interval: Interval)
    requires |opens| >= 2
    ensures var n := |opens|;
      Gaps(opens, interval) == Gaps(opens[..n - 1], interval)
        + if GapAt(opens, interval, n - 1)
          then [DataGap(opens[n - 2], opens[n - 1],
                        MissingCandles((opens[n - 1] - opens[n - 2] - interval) / interval))]
          else []
  {
  }

  lemma TotalOfLonger(gaps: seq<DataGap>, gap: DataGap)
    ensures TotalMissing(gaps + [gap]) == TotalMissing(gaps) + gap.missingCandles
  {
    assert (gaps + [gap])[..|gaps|] == gaps;
  }

  /** The last pair adds its own missing candles: `d` intervals, `d - 1` of them empty. */
  lemma LastPairMisses(opens: seq<int>, interval: Interval)
    requires |opens| >= 2 && History(opens) && Aligned(opens, interval)
    ensures var n := |opens|;
      TotalMissing(Gaps(opens, interval))
      == TotalMissing(Gaps(opens[..n - 1], interval)) + (opens[n - 1] - opens[n - 2]) / interval - 1
  {
    hide GapsQuery, Gaps, TotalMissing;
    var n := |opens|;
    assert opens[n - 1] in opens && opens[n - 2] in opens;
    GapsOfLonger(opens, interval);
    var d := SpanInIntervals(opens[n - 2], opens[n - 1], interval);
    assert GapAt(opens, interval, n - 1) <==> d >= 2;
    var before, gap := Gaps(opens[..n - 1], interval), DataGap(opens[n - 2], opens[n - 1], d - 1);
    if d >= 2 {
      assert Gaps(opens, interval) == before + [gap];
      TotalOfLonger(before, gap);
    } else {
      assert Gaps(opens, interval) == before;
    }
  }

  lemma EmptyTotal(opens: seq<int>, interval: Interval)
    requires |opens| == 1
    ensures TotalMissing(Gaps(opens, interval)) == 0 && (opens[0] - opens[0]) / interval == 0
  {
  }

  lemma AddSpans(p: int, q: int, r: int, interval: Interval)
    requires OnGrid(p, interval) && OnGrid(q, interval) && OnGrid(r, interval) && p <= q < r
    ensures (r - p) / interval == (q - p) / interval + (r - q) / interval
  {
    var e := SpanInIntervals(q, r, interval);
    if p < q {
      var d := SpanInIntervals(p, q, interval);
      assert (d + e) * interval == d * interval + e * interval;
      QuotientOfMultiple(d + e, interval);
    }
  }

  /** Candles held plus candles missing fill the span from the first open to the last. */
  lemma {:induction false} GapsConserveCandles(opens: seq<int>, interval: Interval)
    requires History(opens) && Aligned(opens, interval)
    ensures |opens| + TotalMissing(Gaps(opens, interval)) == (opens[|opens| - 1] - opens[0]) / interval + 1
  {
    hide GapsQuery, TotalMissing, Gaps, OnGrid;
    var n := |opens|;
    if n == 1 {
      EmptyTotal(opens, interval);
    } else {
      var before := opens[..n - 1];
      assert Aligned(before, interval) by {
        assert forall t :: t in before ==> t in opens;
      }
      GapsConserveCandles(before, interval);
      LastPairMisses(opens, interval);
      assert before[0] == opens[0] && before[n - 2] == opens[n - 2];
      assert opens[n - 1] in opens && opens[n - 2] in opens && opens[0] in opens;
      AddSpans(opens[0], opens[n - 2], opens[n - 1], interval);
      hide *;
    }
  }

  lemma {:induction false} GapSumCounts(opens: seq<int>, interval: Interval)
    ensures opens != [] ==> GapSum(opens, interval) == Some(|Gaps(opens, interval)|)
  {
    if |opens| >= 2 {
      GapSumCounts(opens[..|opens| - 1], interval);
      GapsOfLonger(opens, interval);
    } else if |opens| == 1 {
      assert GapSum(opens[..0], interval) == None && Gaps(opens, interval) == [];
    }
  }

  /** The status report counts exactly the gaps that are listed, over exactly the stored candles. */
  lemma {:induction false} StatusCountsListedGaps(opens: seq<int>, interval: Interval)
    requires StrictlyAscending(opens)
    ensures var status := MapStatusResult(Some(StatusQuery(opens, interval)));
      && status.gaps == |Gaps(opens, interval)|
      && status.totalCandles == |opens|
      && status.firstRecord == (if opens == [] then None else Some(opens[0]))
      && status.lastRecord == (if opens == [] then None else Some(opens[|opens| - 1]))
  {
    MinIsFirst(opens);
    MaxIsLast(opens);
    GapSumCounts(opens, interval);
  }

  // ---------------------------------------------------------------- what is listed

  /** The listed gaps are exactly the places where a neighbouring pair is more than an interval apart. */
  lemma {:induction false} GapsAreListed(opens: seq<int>, interval: Interval, start: int, end: int)
    ensures (exists g :: g in Gaps(opens, interval) && g.startTime == start && g.endTime == end)
       <==> (exists i :: GapAt(opens, interval, i) && opens[i - 1] == start && opens[i] == end)
  {
    if |opens| >= 2 {
      var before := opens[..|opens| - 1];
      GapsAreListed(before, interval, start, end);
      GapsOfPrefix(opens, interval);
      GapsOfLonger(opens, interval);
      if i :| GapAt(opens, interval, i) && opens[i - 1] == start && opens[i] == end {
        if i < |opens| - 1 {
          assert GapAt(before, interval, i) && before[i - 1] == start && before[i] == end;
        }
      }
      if g :| g in Gaps(opens, interval) && g.startTime == start && g.endTime == end {
        if g in Gaps(before, interval) {
          var i :| GapAt(before, interval, i) && before[i - 1] == start && before[i] == end;
          assert GapAt(opens, interval, i);
        } else {
          assert GapAt(opens, interval, |opens| - 1);
        }
      }
      hide GapsQuery, Gaps;
    }
  }

  lemma {:induction false} MissingOfRow(opens: seq<int>, interval: Interval, g: DataGap)
    requires g in Gaps(opens, interval)
    ensures g.missingCandles == MissingCandles((g.endTime - g.startTime - interval) / interval)
  {
    if |opens| >= 2 {
      GapsOfLonger(opens, interval);
      if g in Gaps(opens[..|opens| - 1], interval) {
        MissingOfRow(opens[..|opens| - 1], interval, g);
      }
      hide GapsQuery, Gaps;
    }
  }

  lemma {:induction false} MissingOfListed(opens: seq<int>, interval: Interval, g: DataGap)
    requires g in Gaps(opens, interval)
    ensures exists i :: GapAt(opens, interval, i) && opens[i - 1] == g.startTime && opens[i] == g.endTime
    ensures g.missingCandles == MissingCandles((g.endTime - g.startTime - interval) / interval)
  {
    GapsAreListed(opens, interval, g.startTime, g.endTime);
    MissingOfRow(opens, interval, g);
  }

  /** The grid candles an exchange query over the gap's fetch range returns: both ends inclusive. */
  function FetchedOpens(g: DataGap, interval: Interval): seq<int> {
    Grid(g.FetchStartTime(interval), g.FetchEndTime(interval) + 1, interval)
  }

  lemma {:induction false} GridUpTo(start: int, n: nat, interval: Interval)
    ensures |Grid(start, start + n * interval + 1, interval)| == n + 1
    decreases n
  {
    if n == 0 {
      assert Grid(start + interval, start + 1, interval) == [];
    } else {
      assert n * interval == (n - 1) * interval + interval;
      assert (n - 1) * interval >= 0;
      GridUpTo(start + interval, n - 1, interval);
    }
  }

  /** A gap's fetch range holds exactly `missing_candles` candles: those strictly between its two boundary opens. */
  lemma FetchRangeHoldsTheMissing(opens: seq<int>, interval: Interval, g: DataGap)
    requires Aligned(opens, interval) && g in Gaps(opens, interval)
    ensures |FetchedOpens(g, interval)| == g.missingCandles
    ensures forall t :: t in FetchedOpens(g, interval) <==> g.startTime < t < g.endTime && OnGrid(t, interval)
  {
    MissingOfListed(opens, interval, g);
    var i :| GapAt(opens, interval, i) && opens[i - 1] == g.startTime && opens[i] == g.endTime;
    assert opens[i - 1] in opens && opens[i] in opens;
    var first, last := g.FetchStartTime(interval), g.FetchEndTime(interval);
    var d := SpanInIntervals(g.startTime, g.endTime, interval);
    GridShift(g.startTime, interval);
    GridShift(g.endTime, interval);
    assert last == first + (d - 2) * interval;
    GridUpTo(first, d - 2, interval);
    forall t ensures t in FetchedOpens(g, interval) <==> g.startTime < t < g.endTime && OnGrid(t, interval) {
      GridContains(first, last + 1, interval, t);
      if g.startTime < t < g.endTime && OnGrid(t, interval) {
        GridStep(g.startTime, t, interval);
        GridStep(t, g.endTime, interval);
      }
    }
  }

  // ---------------------------------------------------------------- repair

  ghost predicate Fetched(opens: seq<int>, interval: Interval, t: int) {
    exists g :: g in Gaps(opens, interval) && t in FetchedOpens(g, interval)
  }

  /** The shard after every listed gap was fetched and stored. */
  ghost predicate RepairOf(repaired: seq<int>, opens: seq<int>, interval: Interval) {
    StrictlyAscending(repaired) && forall t :: t in repaired <==> t in opens || Fetched(opens, interval, t)
  }

  /** An open time inside the span is stored or falls strictly inside one neighbouring pair. */
  lemma {:induction false} Located(opens: seq<int>, t: int) returns (i: nat)
    requires History(opens) && opens[0] <= t <= opens[|opens| - 1]
    ensures i < |opens| && (t == opens[i] || (i > 0 && opens[i - 1] < t < opens[i]))
  {
    var n := |opens|;
    if t == opens[n - 1] {
      i := n - 1;
    } else if opens[n - 2] < t {
      i := n - 1;
    } else {
      i := Located(opens[..n - 1], t);
    }
  }

  /** A grid point of the span is either stored already or fetched by the repair, never both. */
  lemma StoredOrFetched(opens: seq<int>, interval: Interval, t: int)
    requires History(opens) && Aligned(opens, interval)
    ensures t in opens || Fetched(opens, interval, t) <==>
            OnGrid(t, interval) && opens[0] <= t <= opens[|opens| - 1]
    ensures !(t in opens && Fetched(opens, interval, t))
  {
    if Fetched(opens, interval, t) {
      var g :| g in Gaps(opens, interval) && t in FetchedOpens(g, interval);
      FetchRangeHoldsTheMissing(opens, interval, g);
      MissingOfListed(opens, interval, g);
      var i :| GapAt(opens, interval, i) && opens[i - 1] == g.startTime && opens[i] == g.endTime;
      forall k | 0 <= k < |opens| ensures opens[k] != t {
        assert k <= i - 1 ==> opens[k] <= opens[i - 1];
        assert i <= k ==> opens[i] <= opens[k];
      }
    }
    if t in opens {
      AscendingExtremes(opens, t);
    }
    if OnGrid(t, interval) && opens[0] <= t <= opens[|opens| - 1] && t !in opens {
      var i := Located(opens, t);
      assert opens[i - 1] in opens && opens[i] in opens;
      GridStep(opens[i - 1], t, interval);
      assert GapAt(opens, interval, i);
      GapsAreListed(opens, interval, opens[i - 1], opens[i]);
      var g :| g in Gaps(opens, interval) && g.startTime == opens[i - 1] && g.endTime == opens[i];
      FetchRangeHoldsTheMissing(opens, interval, g);
    }
  }

  lemma NothingListed(opens: seq<int>, interval: Interval)
    requires forall i :: !GapAt(opens, interval, i)
    ensures Gaps(opens, interval) == []
  {
    if Gaps(opens, interval) != [] {
      var g := Gaps(opens, interval)[0];
      assert g in Gaps(opens, interval);
      MissingOfListed(opens, interval, g);
    }
  }

  /** Fetching every listed gap leaves the unbroken grid, and nothing to list. */
  lemma RepairLeavesNoGaps(repaired: seq<int>, opens: seq<int>, interval: Interval)
    requires History(opens) && Aligned(opens, interval) && RepairOf(repaired, opens, interval)
    ensures forall t :: t in repaired <==> OnGrid(t, interval) && opens[0] <= t <= opens[|opens| - 1]
    ensures |repaired| == |opens| + TotalMissing(Gaps(opens, interval))
    ensures Gaps(repaired, interval) == []
  {
    forall t ensures t in repaired <==> OnGrid(t, interval) && opens[0] <= t <= opens[|opens| - 1] {
      StoredOrFetched(opens, interval, t);
    }
    var first, last := opens[0], opens[|opens| - 1];
    assert first in opens && last in opens;
    forall i ensures !GapAt(repaired, interval, i) {
      if GapAt(repaired, interval, i) {
        assert repaired[i - 1] in repaired && repaired[i] in repaired;
        GridShift(repaired[i - 1], interval);
        MidGapPointIsAbsent(repaired, interval, i);
        assert false;
      }
    }
    NothingListed(repaired, interval);
    assert first in repaired && last in repaired;
    AscendingExtremes(repaired, first);
    AscendingExtremes(repaired, last);
    GapsConserveCandles(opens, interval);
    GapsConserveCandles(repaired, interval);
  }

  lemma MembersOf(opens: seq<int>)
    ensures opens != [] ==> opens[0] in opens
  {
  }

  lemma {:induction false} SameMembersSameList(a: seq<int>, b: seq<int>)
    requires StrictlyAscending(a) && StrictlyAscending(b) && forall t :: t in a <==> t in b
    ensures a == b
  {
    if a == [] {
      MembersOf(b);
    } else {
      assert a[0] in a;
      AscendingExtremes(b, a[0]);
      AscendingExtremes(a, b[0]);
      var tailA, tailB := a[1..], b[1..];
      forall t ensures t in tailA <==> t in tailB {
        assert t in tailA <==> t in a && t != a[0];
        assert t in tailB <==> t in b && t != b[0];
      }
      SameMembersSameList(tailA, tailB);
      assert a == [a[0]] + tailA && b == [b[0]] + tailB;
    }
  }

  /** The repaired shard exists and is determined: it is the grid from the first stored open to the last. */
  lemma RepairIsTheGrid(repaired: seq<int>, opens: seq<int>, interval: Interval)
    requires History(opens) && Aligned(opens, interval)
    ensures RepairOf(repaired, opens, interval) <==> repaired == Grid(opens[0], opens[|opens| - 1] + 1, interval)
  {
    var first, last := opens[0], opens[|opens| - 1];
    var grid := Grid(first, last + 1, interval);
    assert first in opens;
    GridPoints(first, last + 1, interval);
    forall t ensures t in grid <==> t in opens || Fetched(opens, interval, t) {
      GridContains(first, last + 1, interval, t);
      StoredOrFetched(opens, interval, t);
    }
    assert RepairOf(grid, opens, interval);
    hide Fetched, Grid;
    if repaired == grid {
      assert RepairOf(repaired, opens, interval);
    } else if RepairOf(repaired, opens, interval) {
      SameMembersSameList(repaired, grid);
      assert false;
    }
  }

  // ---------------------------------------------------------------- repair and coverage

  lemma {:induction false} SortedStays(klines: seq<Kline>)
    requires InOrder(klines)
    ensures SortByOpen(klines) == klines
  {
    if klines != [] {
      SortedStays(klines[..|klines| - 1]);
    }
  }

  lemma {:induction false} ScopedKeepsAll(ordered: seq<Kline>, lower: int, upper: int)
    requires forall i :: 0 <= i < |ordered| ==> lower <= ordered[i].openTime < upper
    ensures Scoped(ordered, Some(lower), upper) == ordered
  {
    if ordered != [] {
      ScopedKeepsAll(ordered[..|ordered| - 1], lower, upper);
    }
  }

  lemma AlignedBounds(t: int, interval: Interval)
    requires OnGrid(t, interval)
    ensures FloorOpenTime(t, interval) == t && CeilOpenTime(t, interval) == t
  {
    var k := Multiple(t, interval);
    QuotientOfMultiple(k, interval);
    var q := (t + interval - 1) / interval;
    assert (q - k) * interval == q * interval - k * interval;
    SmallMultipleIsZero(q - k, interval);
  }

  lemma InRange(klines: seq<Kline>, lower: int, upper: int)
    requires StrictlyAscending(Opens(klines)) && forall t :: t in Opens(klines) ==> lower <= t < upper
    ensures InOrder(klines) && forall i :: 0 <= i < |klines| ==> lower <= klines[i].openTime < upper
  {
    var opens := Opens(klines);
    assert forall i :: 0 <= i < |klines| ==> opens[i] == klines[i].openTime && opens[i] in opens;
  }

  lemma RepairedIsDirectFull(opens: seq<int>, interval: Interval, first: int, last: int)
    requires StrictlyAscending(opens) && OnGrid(first, interval) && OnGrid(last, interval)
    requires forall t :: t in opens <==> OnGrid(t, interval) && first <= t <= last
    ensures DirectFull(opens, interval, first, last + interval)
  {
    var end := last + interval;
    GridShift(last, interval);
    DistinctBound(opens);
    forall t | t in Grid(first, end, interval) ensures t in Distinct(opens) {
      GridContains(first, end, interval, t);
      GridStep(t, end, interval);
    }
    AbsentIsEmpty(Grid(first, end, interval), Distinct(opens));
  }

  lemma RepairedRows(klines: seq<Kline>, opens: seq<int>, interval: Interval)
    requires History(opens) && Aligned(opens, interval) && RepairOf(Opens(klines), opens, interval)
    ensures var first, end := opens[0], opens[|opens| - 1] + interval;
      && first < end && SortByOpen(klines) == klines && Scoped(klines, Some(first), end) == klines
      && FloorOpenTime(end, interval) == end && CeilOpenTime(first, interval) == first
      && DirectFull(Opens(klines), interval, first, end)
      && forall t :: t in Opens(klines) ==> OnGrid(t, interval)
  {
    hide Gaps, Fetched, Opens, SortByOpen, Scoped, DirectFull, FloorOpenTime, CeilOpenTime;
    var first, last := opens[0], opens[|opens| - 1];
    RepairLeavesNoGaps(Opens(klines), opens, interval);
    assert first in opens && last in opens && first <= last;
    GridShift(last, interval);
    AlignedBounds(first, interval);
    AlignedBounds(last + interval, interval);
    InRange(klines, first, last + interval);
    SortedStays(klines);
    ScopedKeepsAll(klines, first, last + interval);
    RepairedIsDirectFull(Opens(klines), interval, first, last);
  }

  lemma FloorAtEnd(end: int, now: int)
    requires end <= now
    ensures Earlier(end, now) == end
  {
  }

  lemma CoveredWhenFull(klines: seq<Kline>, interval: Interval, first: int, end: int, now: int)
    requires SortByOpen(klines) == klines && Scoped(klines, Some(first), end) == klines
    requires Earlier(end, now) == end && FloorOpenTime(end, interval) == end && CeilOpenTime(first, interval) == first
    requires first < end && forall t :: t in Opens(klines) ==> OnGrid(t, interval)
    ensures !AnyUnclosed(klines, now) && DirectFull(Opens(klines), interval, first, end) ==>
              && Build(GetRangeCoverage(klines, interval, Some(first), end, now), interval, Some(first), end,
                       now).isFullyCovered
              && Evaluate(klines, interval, Some(first), end, now).isFullyCovered
  {
    FastVerdictRefinesDirect(klines, interval, Some(first), end, now);
    DirectUnfolded(klines, interval, Some(first), end, now);
    hide SortByOpen, Scoped, Opens, Build, Evaluate, GetRangeCoverage, AnyUnclosed, DirectFull, FloorOpenTime,
      CeilOpenTime;
  }

  /**
   * Once repaired and closed, the span from the first stored candle to the last is safe to backtest: both
   * verdicts say so.
   */
  lemma RepairedRangeIsCovered(klines: seq<Kline>, opens: seq<int>, interval: Interval, now: int)
    requires History(opens) && Aligned(opens, interval) && RepairOf(Opens(klines), opens, interval)
    requires !AnyUnclosed(klines, now) && opens[|opens| - 1] + interval <= now
    ensures var start, end := Some(opens[0]), opens[|opens| - 1] + interval;
      && Build(GetRangeCoverage(klines, interval, start, end, now), interval, start, end, now).isFullyCovered
      && Evaluate(klines, interval, start, end, now).isFullyCovered
  {
    var first, end := opens[0], opens[|opens| - 1] + interval;
    hide *;
    RepairedRows(klines, opens, interval);
    FloorAtEnd(end, now);
    CoveredWhenFull(klines, interval, first, end, now);
  }
}
