/** Is a historical range safe to backtest? The six-aggregate verdict against the direct one. */
module RangeCoverage {
  import opened Prelude
  import opened OpenTimes

  datatype Kline = Kline(openTime: int, closeTime: int)

  datatype Snapshot = Snapshot(
    firstRecord: Option<int>,
    lastRecord: Option<int>,
    totalCandles: nat,
    distinctCandles: nat,
    firstGapAfter: Option<int>,
    unclosedCandles: nat)

  datatype Coverage = Coverage(
    isFullyCovered: bool,
    firstOpenTime: Option<int>,
    lastOpenTime: Option<int>,
    expectedCandles: int,
    actualCandles: int,
    duplicateCandles: int,
    missingOpenTimes: seq<int>,
    hasUnclosedCandle: bool)

  function FloorOpenTime(t: int, interval: Interval): int {
    t / interval * interval
  }

  function CeilOpenTime(t: int, interval: Interval): int {
    (t + interval - 1) / interval * interval
  }

  function Earlier(a: int, b: int): int {
    if a < b then a else b
  }

  // ---------------------------------------------------------------- ordering and scoping

  function Insert(sorted: seq<Kline>, k: Kline): seq<Kline> {
    if sorted == [] || sorted[|sorted| - 1].openTime <= k.openTime then sorted + [k]
    else Insert(sorted[..|sorted| - 1], k) + [sorted[|sorted| - 1]]
  }

  /** Python's stable `sorted` by open time; also SQL's ORDER BY open_time ASC. */
  function SortByOpen(klines: seq<Kline>): seq<Kline> {
    if klines == [] then [] else Insert(SortByOpen(klines[..|klines| - 1]), klines[|klines| - 1])
  }

  function Scoped(klines: seq<Kline>, lower: Option<int>, upper: int): seq<Kline> {
    if klines == [] then []
    else
      var last := klines[|klines| - 1];
      Scoped(klines[..|klines| - 1], lower, upper)
      + if (lower.None? || lower.value <= last.openTime) && last.openTime < upper then [last] else []
  }

  function Opens(klines: seq<Kline>): seq<int> {
    seq(|klines|, i requires 0 <= i < |klines| => klines[i].openTime)
  }

  // ---------------------------------------------------------------- the SQL aggregates

  /** MIN over the rows, NULL over none. */
  function MinOf(ts: seq<int>): Option<int> {
    if ts == [] then None
    else
      var rest, last := MinOf(ts[..|ts| - 1]), ts[|ts| - 1];
      if rest.None? || last < rest.value then Some(last) else rest
  }

  function MaxOf(ts: seq<int>): Option<int> {
    if ts == [] then None
    else
      var rest, last := MaxOf(ts[..|ts| - 1]), ts[|ts| - 1];
      if rest.None? || last > rest.value then Some(last) else rest
  }

  /** `CASE WHEN the row is more than an interval after its LAG THEN prev_time`. */
  function GapStarts(opens: seq<int>, interval: Interval): seq<int> {
    if |opens| < 2 then []
    else
      var n := |opens|;
      GapStarts(opens[..n - 1], interval) + if GapAt(opens, interval, n - 1) then [opens[n - 2]] else []
  }

  function UnclosedCount(klines: seq<Kline>, now: int): nat {
    if klines == [] then 0
    else UnclosedCount(klines[..|klines| - 1], now) + if klines[|klines| - 1].closeTime > now then 1 else 0
  }

  function RangeSnapshot(rows: seq<Kline>, interval: Interval, now: int): Snapshot {
    var opens := Opens(rows);
    Snapshot(MinOf(opens), MaxOf(opens), |opens|, |Distinct(opens)|, MinOf(GapStarts(opens, interval)),
             UnclosedCount(rows, now))
  }

  /** `get_range_coverage`: the range probe, run over the stored rows in any order. */
  function GetRangeCoverage(stored: seq<Kline>, interval: Interval, start: Option<int>, end: int, now: int): Snapshot {
    var closedEnd := FloorOpenTime(Earlier(end, now), interval);
    var alignedStart := if start.Some? then Some(CeilOpenTime(start.value, interval)) else None;
    RangeSnapshot(Scoped(SortByOpen(stored), alignedStart, closedEnd), interval, now)
  }

  // ---------------------------------------------------------------- the fast verdict

  /** `tuple(dict.fromkeys(ts))`: first occurrences, in order. */
  function Deduplicated(ts: seq<int>): seq<int> {
    if ts == [] then []
    else
      var before, last := Deduplicated(ts[..|ts| - 1]), ts[|ts| - 1];
      if last in before then before else before + [last]
  }

  function FirstThree(ts: seq<int>): seq<int> {
    if |ts| > 3 then ts[..3] else ts
  }

  /** The diagnostics: before the first record, after the first gap, after the last record. */
  function MissingHints(snapshot: Snapshot, interval: Interval, start: int, closedEnd: int): seq<int> {
    (if snapshot.firstRecord.None? || snapshot.firstRecord.value > start then [start] else [])
    + (if snapshot.firstGapAfter.Some? then [snapshot.firstGapAfter.value + interval] else [])
    + (if snapshot.lastRecord.Some? && snapshot.lastRecord.value < closedEnd - interval
       then [snapshot.lastRecord.value + interval] else [])
  }

  predicate FullyCovered(snapshot: Snapshot, interval: Interval, start: int, closedEnd: int) {
    && snapshot.firstRecord == Some(start)
    && snapshot.lastRecord == Some(closedEnd - interval)
    && snapshot.distinctCandles == (closedEnd - start) / interval
    && snapshot.totalCandles - snapshot.distinctCandles == 0
    && snapshot.firstGapAfter.None?
    && snapshot.unclosedCandles == 0
  }

  function Build(snapshot: Snapshot, interval: Interval, start: Option<int>, end: int, now: int): Coverage {
    var closedEnd := FloorOpenTime(Earlier(end, now), interval);
    var from := if start.Some? then Some(CeilOpenTime(start.value, interval)) else snapshot.firstRecord;
    var duplicates := snapshot.totalCandles - snapshot.distinctCandles;
    if from.None? || from.value >= closedEnd then
      Coverage(false, snapshot.firstRecord, snapshot.lastRecord, 0, snapshot.totalCandles, duplicates, [],
               snapshot.unclosedCandles > 0)
    else
      Coverage(FullyCovered(snapshot, interval, from.value, closedEnd), snapshot.firstRecord, snapshot.lastRecord,
               (closedEnd - from.value) / interval, snapshot.totalCandles, duplicates,
               FirstThree(Deduplicated(MissingHints(snapshot, interval, from.value, closedEnd))),
               snapshot.unclosedCandles > 0)
  }

  // ---------------------------------------------------------------- the direct verdict

  function Absent(expected: seq<int>, present: set<int>): seq<int> {
    if expected == [] then []
    else
      var last := expected[|expected| - 1];
      Absent(expected[..|expected| - 1], present) + if last in present then [] else [last]
  }

  predicate AnyUnclosed(klines: seq<Kline>, now: int) {
    exists i :: 0 <= i < |klines| && klines[i].closeTime > now
  }

  function From(ordered: seq<Kline>, interval: Interval, start: Option<int>): Option<int> {
    if start.Some? then Some(CeilOpenTime(start.value, interval))
    else if ordered == [] then None else Some(ordered[0].openTime)
  }

  function Evaluate(klines: seq<Kline>, interval: Interval, start: Option<int>, end: int, now: int): Coverage {
    var closedEnd := FloorOpenTime(Earlier(end, now), interval);
    var ordered := SortByOpen(klines);
    var from := From(ordered, interval, start);
    var scoped := if from.None? then [] else Scoped(ordered, from, closedEnd);
    var opens := Opens(scoped);
    var first := if opens == [] then None else Some(opens[0]);
    var last := if opens == [] then None else Some(opens[|opens| - 1]);
    var duplicates := |opens| - |Distinct(opens)|;
    if from.None? || from.value >= closedEnd then
      Coverage(false, first, last, 0, |opens|, duplicates, [], AnyUnclosed(scoped, now))
    else
      var expected := Grid(from.value, closedEnd, interval);
      var missing := Absent(expected, Distinct(opens));
      Coverage(missing == [] && duplicates == 0 && !AnyUnclosed(scoped, now), first, last, |expected|, |opens|,
               duplicates, FirstThree(missing), AnyUnclosed(scoped, now))
  }
}
