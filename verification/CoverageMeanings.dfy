/** The two coverage verdicts, told from the stored candles and the request alone. */
module CoverageMeanings {
  import opened Prelude
  import opened OpenTimes
  import opened RangeCoverage
  import opened CoverageProofs

  // ---------------------------------------------------------------- the aligned range

  /** The first open asked for: the first grid point from the start on, or with no start the earliest stored open. */
  ghost predicate StartsAt(klines: seq<Kline>, interval: Interval, start: Option<int>, from: int) {
    if start.Some? then OnGrid(from, interval) && start.value <= from < start.value + interval
    else (exists k :: k in klines && k.openTime == from) && (forall k :: k in klines ==> from <= k.openTime)
  }

  /** The end of what can be asked for: the last grid point neither past `end` nor past `now`. */
  ghost predicate EndsAt(interval: Interval, end: int, now: int, closedEnd: int) {
    && OnGrid(closedEnd, interval) && closedEnd <= end && closedEnd <= now
    && (end < closedEnd + interval || now < closedEnd + interval)
  }

  /** The opens a range asks for: one every interval. */
  predicate Expected(interval: Interval, from: int, closedEnd: int, t: int) {
    from <= t < closedEnd && (t - from) % interval == 0
  }

  lemma FloorIsBelow(t: int, interval: Interval)
    ensures OnGrid(FloorOpenTime(t, interval), interval)
    ensures FloorOpenTime(t, interval) <= t < FloorOpenTime(t, interval) + interval
  {
    MultipleOnGrid(t / interval, interval);
  }

  lemma CeilIsAbove(t: int, interval: Interval)
    ensures OnGrid(CeilOpenTime(t, interval), interval)
    ensures t <= CeilOpenTime(t, interval) < t + interval
  {
    MultipleOnGrid((t + interval - 1) / interval, interval);
  }

  lemma OneGridPoint(p: int, q: int, interval: Interval)
    requires OnGrid(p, interval) && OnGrid(q, interval) && p < q + interval && q < p + interval
    ensures p == q
  {
    if p < q {
      GridStep(p, q, interval);
    } else if q < p {
      GridStep(q, p, interval);
    }
  }

  /** Rounding a request down and up gives exactly these bounds. */
  lemma BoundsAreAligned(interval: Interval, end: int, now: int, closedEnd: int)
    ensures EndsAt(interval, end, now, closedEnd) <==> closedEnd == FloorOpenTime(Earlier(end, now), interval)
  {
    hide FloorOpenTime, OnGrid;
    var end' := FloorOpenTime(Earlier(end, now), interval);
    FloorIsBelow(Earlier(end, now), interval);
    if EndsAt(interval, end, now, closedEnd) {
      OneGridPoint(closedEnd, end', interval);
    }
  }

  // ---------------------------------------------------------------- counting candles

  /** How many candles open at `t`. */
  function CountAt(klines: seq<Kline>, t: int): nat {
    if klines == [] then 0
    else CountAt(klines[..|klines| - 1], t) + if klines[|klines| - 1].openTime == t then 1 else 0
  }

  lemma CountOfLonger(klines: seq<Kline>, k: Kline, t: int)
    ensures CountAt(klines + [k], t) == CountAt(klines, t) + if k.openTime == t then 1 else 0
  {
    assert (klines + [k])[..|klines|] == klines;
  }

  lemma {:induction false} InsertCounts(sorted: seq<Kline>, k: Kline, t: int)
    ensures CountAt(Insert(sorted, k), t) == CountAt(sorted, t) + if k.openTime == t then 1 else 0
  {
    var n := |sorted|;
    if sorted == [] || sorted[n - 1].openTime <= k.openTime {
      CountOfLonger(sorted, k, t);
    } else {
      InsertCounts(sorted[..n - 1], k, t);
      CountOfLonger(Insert(sorted[..n - 1], k), sorted[n - 1], t);
    }
  }

  lemma {:induction false} SortCounts(klines: seq<Kline>, t: int)
    ensures CountAt(SortByOpen(klines), t) == CountAt(klines, t)
  {
    if klines != [] {
      var before := klines[..|klines| - 1];
      SortCounts(before, t);
      InsertCounts(SortByOpen(before), klines[|klines| - 1], t);
      hide Insert;
    }
  }

  /** The candles opening at `t`, in the order listed. */
  function AllAt(klines: seq<Kline>, t: int): seq<Kline> {
    if klines == [] then []
    else
      AllAt(klines[..|klines| - 1], t)
      + if klines[|klines| - 1].openTime == t then [klines[|klines| - 1]] else []
  }

  lemma AllOfLonger(klines: seq<Kline>, k: Kline, t: int)
    ensures AllAt(klines + [k], t) == AllAt(klines, t) + if k.openTime == t then [k] else []
  {
    assert (klines + [k])[..|klines|] == klines;
  }

  lemma {:induction false} InsertKeepsAll(sorted: seq<Kline>, k: Kline, t: int)
    ensures AllAt(Insert(sorted, k), t) == AllAt(sorted, t) + if k.openTime == t then [k] else []
  {
    var n := |sorted|;
    if sorted == [] || sorted[n - 1].openTime <= k.openTime {
      AllOfLonger(sorted, k, t);
    } else {
      InsertKeepsAll(sorted[..n - 1], k, t);
      AllOfLonger(Insert(sorted[..n - 1], k), sorted[n - 1], t);
    }
  }

  /** The sort is stable: candles that open alike stay in the order they were given. */
  lemma {:induction false} SortIsStable(klines: seq<Kline>, t: int)
    ensures AllAt(SortByOpen(klines), t) == AllAt(klines, t)
  {
    if klines != [] {
      var before := klines[..|klines| - 1];
      SortIsStable(before, t);
      InsertKeepsAll(SortByOpen(before), klines[|klines| - 1], t);
      hide Insert;
    }
  }

  predicate Within(lower: Option<int>, upper: int, t: int) {
    (lower.None? || lower.value <= t) && t < upper
  }

  lemma {:induction false} ScopedCounts(klines: seq<Kline>, lower: Option<int>, upper: int, t: int)
    ensures CountAt(Scoped(klines, lower, upper), t) == if Within(lower, upper, t) then CountAt(klines, t) else 0
  {
    if klines != [] {
      var before, last := klines[..|klines| - 1], klines[|klines| - 1];
      ScopedCounts(before, lower, upper, t);
      CountOfLonger(Scoped(before, lower, upper), last, t);
      assert Scoped(before, lower, upper) + [] == Scoped(before, lower, upper);
    }
  }

  lemma {:induction false} ScopedMembers(klines: seq<Kline>, lower: Option<int>, upper: int, k: Kline)
    ensures k in Scoped(klines, lower, upper) <==> k in klines && Within(lower, upper, k.openTime)
  {
    if klines != [] {
      var before, last := klines[..|klines| - 1], klines[|klines| - 1];
      ScopedMembers(before, lower, upper, k);
      assert klines == before + [last];
    }
  }

  lemma {:induction false} CountIsPresence(klines: seq<Kline>, t: int)
    ensures CountAt(klines, t) > 0 <==> t in Opens(klines)
    ensures t in Opens(klines) <==> exists k :: k in klines && k.openTime == t
  {
    if klines != [] {
      var before, last := klines[..|klines| - 1], klines[|klines| - 1];
      CountIsPresence(before, t);
      assert klines == before + [last] && Opens(klines) == Opens(before) + [last.openTime];
    }
  }

  lemma OneMoreDistinct(opens: seq<int>, last: int)
    ensures |Distinct(opens + [last])| == |Distinct(opens)| + if last in opens then 0 else 1
  {
    assert Distinct(opens + [last]) == Distinct(opens) + {last};
    if last in opens {
      assert Distinct(opens) + {last} == Distinct(opens);
    }
  }

  ghost predicate NoRepeat(klines: seq<Kline>) {
    forall t :: CountAt(klines, t) <= 1
  }

  lemma RepeatStep(klines: seq<Kline>, k: Kline)
    ensures NoRepeat(klines + [k]) <==> NoRepeat(klines) && CountAt(klines, k.openTime) == 0
  {
    forall t ensures CountAt(klines + [k], t) == CountAt(klines, t) + if k.openTime == t then 1 else 0 {
      CountOfLonger(klines, k, t);
    }
    hide CountAt;
    if NoRepeat(klines + [k]) {
      assert forall t :: CountAt(klines, t) <= CountAt(klines + [k], t);
      assert CountAt(klines + [k], k.openTime) <= 1;
    }
  }

  lemma NothingRepeats()
    ensures NoRepeat([]) && Distinct([]) == {}
  {
  }

  /** As many distinct opens as candles: no two open alike. */
  lemma {:induction false} NoRepeatCounts(klines: seq<Kline>)
    ensures |Opens(klines)| == |Distinct(Opens(klines))| <==> NoRepeat(klines)
  {
    hide Distinct, NoRepeat, CountAt;
    if klines == [] {
      NothingRepeats();
    } else {
      var before, last := klines[..|klines| - 1], klines[|klines| - 1];
      assert klines == before + [last] && Opens(klines) == Opens(before) + [last.openTime];
      NoRepeatCounts(before);
      DistinctBound(Opens(before));
      OneMoreDistinct(Opens(before), last.openTime);
      CountIsPresence(before, last.openTime);
      RepeatStep(before, last);
    }
  }

  lemma OneIntervalOn(d: int, interval: Interval)
    ensures d % interval == 0 <==> (d - interval) % interval == 0
    ensures 0 <= d < interval ==> (d % interval == 0 <==> d == 0)
  {
    if OnGrid(d, interval) { GridShift(d, interval); }
    if OnGrid(d - interval, interval) { GridShift(d - interval, interval); }
  }

  /** From any start, `range` lists exactly the expected opens. */
  lemma {:induction false} GridIsExpected(from: int, closedEnd: int, interval: Interval, t: int)
    ensures t in Grid(from, closedEnd, interval) <==> Expected(interval, from, closedEnd, t)
    decreases closedEnd - from
  {
    if from < closedEnd {
      GridIsExpected(from + interval, closedEnd, interval, t);
      OneIntervalOn(t - from, interval);
    }
  }

  // ---------------------------------------------------------------- the rows, told from the stored candles

  lemma SortKeepsMembers(klines: seq<Kline>, k: Kline)
    ensures k in SortByOpen(klines) <==> k in klines
  {
    SortIsPermutation(klines);
    assert k in multiset(SortByOpen(klines)) <==> k in multiset(klines);
  }

  lemma EarliestIsFirst(klines: seq<Kline>, from: int)
    requires (exists k :: k in klines && k.openTime == from) && (forall k :: k in klines ==> from <= k.openTime)
    ensures SortByOpen(klines) != [] && SortByOpen(klines)[0].openTime == from
  {
    hide SortByOpen;
    var ordered := SortByOpen(klines);
    SortIsInOrder(klines);
    var k :| k in klines && k.openTime == from;
    SortKeepsMembers(klines, k);
    SortKeepsMembers(klines, ordered[0]);
    var i :| 0 <= i < |ordered| && ordered[i] == k;
  }

  /** Both forms start at the same candle, the one the request names. */
  lemma FromIsStart(klines: seq<Kline>, interval: Interval, start: Option<int>, from: int)
    requires StartsAt(klines, interval, start, from)
    ensures From(SortByOpen(klines), interval, start) == Some(from)
  {
    hide SortByOpen, CeilOpenTime, OnGrid;
    if start.Some? {
      CeilIsAbove(start.value, interval);
      OneGridPoint(CeilOpenTime(start.value, interval), from, interval);
    } else {
      EarliestIsFirst(klines, from);
    }
  }

  predicate InRange(from: int, closedEnd: int, t: int) {
    from <= t < closedEnd
  }

  /** The rows both forms work on are the stored candles in the range, with multiplicity. */
  lemma RowsAreInRange(klines: seq<Kline>, interval: Interval, start: Option<int>, from: int, closedEnd: int)
    requires StartsAt(klines, interval, start, from)
    ensures var rows := Rows(SortByOpen(klines), interval, start, closedEnd);
      && (forall k :: k in rows <==> k in klines && InRange(from, closedEnd, k.openTime))
      && (forall t :: CountAt(rows, t) == if InRange(from, closedEnd, t) then CountAt(klines, t) else 0)
  {
    hide SortByOpen, Scoped, From, CountAt;
    FromIsStart(klines, interval, start, from);
    var ordered, lower := SortByOpen(klines), if start.Some? then Some(from) else None;
    var rows := Scoped(ordered, lower, closedEnd);
    assert Rows(ordered, interval, start, closedEnd) == rows;
    forall k ensures k in rows <==> k in klines && InRange(from, closedEnd, k.openTime) {
      ScopedMembers(ordered, lower, closedEnd, k);
      SortKeepsMembers(klines, k);
    }
    forall t ensures CountAt(rows, t) == if InRange(from, closedEnd, t) then CountAt(klines, t) else 0 {
      ScopedCounts(ordered, lower, closedEnd, t);
      SortCounts(klines, t);
      CountIsPresence(klines, t);
    }
  }

  // ---------------------------------------------------------------- the verdicts

  /** Every expected open is stored, none in the range twice, and every candle of the range has closed. */
  ghost predicate Complete(klines: seq<Kline>, interval: Interval, from: int, closedEnd: int, now: int) {
    && from < closedEnd
    && (forall t :: Expected(interval, from, closedEnd, t) ==> CountAt(klines, t) > 0)
    && (forall t :: InRange(from, closedEnd, t) ==> CountAt(klines, t) <= 1)
    && (forall k :: k in klines && InRange(from, closedEnd, k.openTime) ==> k.closeTime <= now)
  }

  lemma UnclosedInRange(klines: seq<Kline>, rows: seq<Kline>, from: int, closedEnd: int, now: int)
    requires forall k :: k in rows <==> k in klines && InRange(from, closedEnd, k.openTime)
    ensures !AnyUnclosed(rows, now)
       <==> forall k :: k in klines && InRange(from, closedEnd, k.openTime) ==> k.closeTime <= now
  {
    if AnyUnclosed(rows, now) {
      var i :| 0 <= i < |rows| && rows[i].closeTime > now;
      assert rows[i] in rows;
    }
  }

  /** The expected opens are all present, and none twice. */
  lemma DirectFullMeans(klines: seq<Kline>, rows: seq<Kline>, interval: Interval, from: int, closedEnd: int)
    requires forall t :: CountAt(rows, t) == if InRange(from, closedEnd, t) then CountAt(klines, t) else 0
    ensures DirectFull(Opens(rows), interval, from, closedEnd)
       <==> (forall t :: Expected(interval, from, closedEnd, t) ==> CountAt(klines, t) > 0)
            && (forall t :: InRange(from, closedEnd, t) ==> CountAt(klines, t) <= 1)
  {
    var expected := Grid(from, closedEnd, interval);
    AbsentIsEmpty(expected, Distinct(Opens(rows)));
    NoRepeatCounts(rows);
    forall t
      ensures t in expected <==> Expected(interval, from, closedEnd, t)
      ensures t in Distinct(Opens(rows)) <==> CountAt(rows, t) > 0
      ensures Expected(interval, from, closedEnd, t) ==> InRange(from, closedEnd, t)
    {
      GridIsExpected(from, closedEnd, interval, t);
      CountIsPresence(rows, t);
    }
    hide CountAt, Grid, Opens, Distinct, Expected, InRange, Absent;
    if NoRepeat(rows) {
      assert forall t :: InRange(from, closedEnd, t) ==> CountAt(klines, t) == CountAt(rows, t);
    }
  }

  lemma CompleteMeans(klines: seq<Kline>, interval: Interval, from: int, closedEnd: int, now: int)
    ensures Complete(klines, interval, from, closedEnd, now)
       <==> from < closedEnd
            && (forall t :: Expected(interval, from, closedEnd, t) ==> CountAt(klines, t) > 0)
            && (forall t :: InRange(from, closedEnd, t) ==> CountAt(klines, t) <= 1)
            && (forall k :: k in klines && InRange(from, closedEnd, k.openTime) ==> k.closeTime <= now)
  {
  }

  lemma RowsOnGrid(klines: seq<Kline>, rows: seq<Kline>, interval: Interval, from: int, closedEnd: int)
    requires forall k :: k in rows <==> k in klines && InRange(from, closedEnd, k.openTime)
    ensures (forall t :: t in Opens(rows) ==> OnGrid(t, interval))
       <==> forall k :: k in klines && InRange(from, closedEnd, k.openTime) ==> OnGrid(k.openTime, interval)
  {
    forall k | k in rows ensures k.openTime in Opens(rows) {
      var i :| 0 <= i < |rows| && rows[i] == k;
      assert Opens(rows)[i] == k.openTime;
    }
    forall t | t in Opens(rows) ensures exists k :: k in rows && k.openTime == t {
      var k := RowAt(rows, t);
    }
    hide Opens, OnGrid, InRange;
  }

  lemma CandlesOnGridMeans(klines: seq<Kline>, interval: Interval, start: Option<int>, end: int, now: int,
                           closedEnd: int)
    requires closedEnd == FloorOpenTime(Earlier(end, now), interval)
    ensures CandlesOnGrid(klines, interval, start, end, now)
       <==> forall t :: t in Opens(Rows(SortByOpen(klines), interval, start, closedEnd)) ==> OnGrid(t, interval)
  {
  }

  lemma SameGrid(from: int, t: int, interval: Interval)
    requires OnGrid(from, interval)
    ensures (t - from) % interval == 0 <==> OnGrid(t, interval)
  {
    var a := Multiple(from, interval);
    if OnGrid(t, interval) {
      var b := Multiple(t, interval);
      assert t - from == (b - a) * interval;
      MultipleOnGrid(b - a, interval);
    }
    if OnGrid(t - from, interval) {
      var d := Multiple(t - from, interval);
      assert t == (a + d) * interval;
      MultipleOnGrid(a + d, interval);
    }
  }

  /**
   * The direct verdict, from the candles and the request: covered exactly when every expected open is stored, no
   * two candles of the range open alike, and all of them have closed.
   */
  lemma DirectVerdictMeans(klines: seq<Kline>, interval: Interval, start: Option<int>, end: int, now: int, from: int,
                           closedEnd: int)
    requires StartsAt(klines, interval, start, from) && EndsAt(interval, end, now, closedEnd)
    ensures Evaluate(klines, interval, start, end, now).isFullyCovered
       <==> Complete(klines, interval, from, closedEnd, now)
  {
    hide *;
    var rows := Rows(SortByOpen(klines), interval, start, closedEnd);
    BoundsAreAligned(interval, end, now, closedEnd);
    FromIsStart(klines, interval, start, from);
    DirectUnfolded(klines, interval, start, end, now);
    RowsAreInRange(klines, interval, start, from, closedEnd);
    UnclosedInRange(klines, rows, from, closedEnd, now);
    DirectFullMeans(klines, rows, interval, from, closedEnd);
    CompleteMeans(klines, interval, from, closedEnd, now);
  }

  /** The six-aggregate verdict asks for the same, and that every candle of the range opens on the grid. */
  lemma FastVerdictMeans(klines: seq<Kline>, interval: Interval, start: Option<int>, end: int, now: int, from: int,
                         closedEnd: int)
    requires StartsAt(klines, interval, start, from) && EndsAt(interval, end, now, closedEnd)
    ensures Build(GetRangeCoverage(klines, interval, start, end, now), interval, start, end, now).isFullyCovered
       <==> Complete(klines, interval, from, closedEnd, now)
            && forall k :: k in klines && InRange(from, closedEnd, k.openTime) ==> OnGrid(k.openTime, interval)
  {
    hide *;
    var rows := Rows(SortByOpen(klines), interval, start, closedEnd);
    BoundsAreAligned(interval, end, now, closedEnd);
    DirectVerdictMeans(klines, interval, start, end, now, from, closedEnd);
    FastVerdictRefinesDirect(klines, interval, start, end, now);
    RowsAreInRange(klines, interval, start, from, closedEnd);
    RowsOnGrid(klines, rows, interval, from, closedEnd);
    CandlesOnGridMeans(klines, interval, start, end, now, closedEnd);
  }

  /** With no start and nothing stored there is nothing to cover. */
  lemma NothingStoredIsNotCovered(interval: Interval, end: int, now: int)
    ensures !Evaluate([], interval, None, end, now).isFullyCovered
    ensures !Build(GetRangeCoverage([], interval, None, end, now), interval, None, end, now).isFullyCovered
  {
    FastVerdictRefinesDirect([], interval, None, end, now);
  }

  /**
   * Given a start, the candles a range asks for are the grid points from it on whose interval ends by `end`
   * and `now`.
   */
  lemma ExpectedFromStart(klines: seq<Kline>, interval: Interval, start: int, end: int, now: int, from: int,
                          closedEnd: int, t: int)
    requires StartsAt(klines, interval, Some(start), from) && EndsAt(interval, end, now, closedEnd)
    ensures Expected(interval, from, closedEnd, t)
       <==> OnGrid(t, interval) && start <= t && t + interval <= end && t + interval <= now
  {
    SameGrid(from, t, interval);
    if OnGrid(t, interval) {
      GridShift(t, interval);
      if t < from {
        GridStep(t, from, interval);
      }
      if t < closedEnd {
        GridStep(t, closedEnd, interval);
      } else if closedEnd < t {
        GridStep(closedEnd, t, interval);
      }
    }
  }

  // ---------------------------------------------------------------- the diagnostics

  /** `range` has as many entries as intervals begin before its end. */
  lemma {:induction false} GridCount(from: int, closedEnd: int, interval: Interval)
    requires from < closedEnd
    ensures var n := |Grid(from, closedEnd, interval)|;
      n > 0 && from + (n - 1) * interval < closedEnd <= from + n * interval
    decreases closedEnd - from
  {
    var n := |Grid(from, closedEnd, interval)|;
    if from + interval < closedEnd {
      GridCount(from + interval, closedEnd, interval);
      assert (n - 1) * interval == (n - 2) * interval + interval && n * interval == (n - 1) * interval + interval;
    } else {
      assert Grid(from + interval, closedEnd, interval) == [];
      assert n == 1;
    }
  }

  /** The first three of an ascending list of misses: later ones come after three listed. */
  ghost predicate FirstMisses(klines: seq<Kline>, interval: Interval, from: int, closedEnd: int, listed: seq<int>) {
    && StrictlyAscending(listed) && |listed| <= 3
    && (forall t :: t in listed ==> Expected(interval, from, closedEnd, t) && CountAt(klines, t) == 0)
    && (forall t :: Expected(interval, from, closedEnd, t) && CountAt(klines, t) == 0 ==>
          t in listed || (|listed| == 3 && listed[2] < t))
  }

  lemma FirstThreeOf(all: seq<int>)
    requires StrictlyAscending(all)
    ensures var three := FirstThree(all);
      && StrictlyAscending(three) && |three| <= 3 && (forall t :: t in three ==> t in all)
      && forall t :: t in all ==> t in three || (|three| == 3 && three[2] < t)
  {
    forall t | t in all ensures t in FirstThree(all) || (|FirstThree(all)| == 3 && FirstThree(all)[2] < t) {
      var i :| 0 <= i < |all| && all[i] == t;
      if i < 3 {
        assert FirstThree(all)[i] == t;
      }
    }
  }

  lemma MissesOfRows(klines: seq<Kline>, rows: seq<Kline>, interval: Interval, from: int, closedEnd: int)
    requires forall t :: CountAt(rows, t) == if InRange(from, closedEnd, t) then CountAt(klines, t) else 0
    ensures FirstMisses(klines, interval, from, closedEnd,
                        FirstThree(Absent(Grid(from, closedEnd, interval), Distinct(Opens(rows)))))
  {
    var expected, present := Grid(from, closedEnd, interval), Distinct(Opens(rows));
    GridPoints(from, closedEnd, interval);
    AbsentMembers(expected, present);
    FirstThreeOf(Absent(expected, present));
    forall t
      ensures t in expected <==> Expected(interval, from, closedEnd, t)
      ensures Expected(interval, from, closedEnd, t) ==> (t in present <==> CountAt(klines, t) > 0)
    {
      GridIsExpected(from, closedEnd, interval, t);
      CountIsPresence(rows, t);
    }
    hide Absent, Grid, FirstThree, Distinct, Opens, CountAt, Expected, InRange, StrictlyAscending;
  }

  /**
   * What the direct form reports of a range: how many candles it expects, and the first three expected opens that no
   * stored candle has.
   */
  lemma DirectDiagnosticsMean(klines: seq<Kline>, interval: Interval, start: Option<int>, end: int, now: int, from: int,
                              closedEnd: int)
    requires StartsAt(klines, interval, start, from) && EndsAt(interval, end, now, closedEnd)
    ensures var direct := Evaluate(klines, interval, start, end, now);
      && (from >= closedEnd ==> direct.expectedCandles == 0 && direct.missingOpenTimes == [])
      && (from < closedEnd ==>
            && FirstMisses(klines, interval, from, closedEnd, direct.missingOpenTimes)
            && from + (direct.expectedCandles - 1) * interval < closedEnd <= from + direct.expectedCandles * interval)
  {
    hide *;
    BoundsAreAligned(interval, end, now, closedEnd);
    FromIsStart(klines, interval, start, from);
    DirectMissing(klines, interval, start, end, now);
    RowsAreInRange(klines, interval, start, from, closedEnd);
    MissesOfRows(klines, Rows(SortByOpen(klines), interval, start, closedEnd), interval, from, closedEnd);
    if from < closedEnd {
      GridCount(from, closedEnd, interval);
    }
  }
}
