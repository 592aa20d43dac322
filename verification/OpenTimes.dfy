/** Facts about sorted sequences of candle open times on a fixed cadence. */
module OpenTimes {
  import opened Prelude

  /** A candle interval in seconds. */
  type Interval = n: int | n >= 1 witness 60

  predicate OnGrid(t: int, interval: Interval) {
    t % interval == 0
  }

  predicate Ascending(opens: seq<int>) {
    forall i, j :: 0 <= i < j < |opens| ==> opens[i] <= opens[j]
  }

  predicate StrictlyAscending(opens: seq<int>) {
    forall i, j :: 0 <= i < j < |opens| ==> opens[i] < opens[j]
  }

  function Distinct(opens: seq<int>): set<int> {
    set t | t in opens
  }

  /** A row whose LAG is more than one interval back. */
  predicate GapAt(opens: seq<int>, interval: Interval, i: int) {
    0 < i < |opens| && opens[i] - opens[i - 1] > interval
  }

  lemma {:induction false} DistinctBound(opens: seq<int>)
    ensures |Distinct(opens)| <= |opens|
    ensures StrictlyAscending(opens) ==> |Distinct(opens)| == |opens|
  {
    if opens != [] {
      var before, last := opens[..|opens| - 1], opens[|opens| - 1];
      DistinctBound(before);
      assert Distinct(opens) == Distinct(before) + {last};
    }
  }

  lemma LastIsNew(before: seq<int>, last: int)
    requires |Distinct(before + [last])| == |before| + 1
    ensures last !in before && |Distinct(before)| == |before|
  {
    DistinctBound(before);
    assert Distinct(before + [last]) == Distinct(before) + {last};
    assert last in before ==> Distinct(before) + {last} == Distinct(before);
  }

  /** Pigeonhole: as many distinct values as entries leaves no room for a repeat. */
  lemma {:induction false} NoDuplicatesMeansStrict(opens: seq<int>)
    requires Ascending(opens) && |Distinct(opens)| == |opens|
    ensures StrictlyAscending(opens)
  {
    hide Distinct;
    if opens != [] {
      var before, last := opens[..|opens| - 1], opens[|opens| - 1];
      assert opens == before + [last];
      LastIsNew(before, last);
      NoDuplicatesMeansStrict(before);
      forall i, j | 0 <= i < j < |opens| ensures opens[i] < opens[j] {
        assert before[i] in before && before[i] == opens[i];
        assert j < |opens| - 1 ==> before[j] == opens[j];
      }
    }
  }

  lemma Multiple(t: int, interval: Interval) returns (k: int)
    requires OnGrid(t, interval)
    ensures t == k * interval
  {
    k := t / interval;
  }

  lemma AtLeastOne(d: int, interval: Interval)
    requires d >= 1
    ensures d * interval >= interval
  {
  }

  lemma AtLeastTwo(d: int, interval: Interval)
    requires d >= 2
    ensures d * interval >= 2 * interval
  {
  }

  lemma AtMostZero(d: int, interval: Interval)
    requires d <= 0
    ensures d * interval <= 0
  {
  }

  lemma SmallMultipleIsZero(d: int, interval: Interval)
    requires 0 <= d * interval < interval
    ensures d == 0
  {
    assert d * interval == -((-d) * interval);
    if d >= 1 {
      AtLeastOne(d, interval);
    } else if d <= -1 {
      AtLeastOne(-d, interval);
    }
  }

  lemma MultipleOnGrid(k: int, interval: Interval)
    ensures OnGrid(k * interval, interval)
  {
    var q := (k * interval) / interval;
    assert (k - q) * interval == k * interval - q * interval;
    SmallMultipleIsZero(k - q, interval);
  }

  /** Two grid points at most one interval apart are equal or neighbours. */
  lemma GridNeighbours(p: int, q: int, interval: Interval)
    requires OnGrid(p, interval) && OnGrid(q, interval) && p < q <= p + interval
    ensures q == p + interval
  {
    var a := Multiple(p, interval);
    var b := Multiple(q, interval);
    assert (b - a) * interval == b * interval - a * interval;
    if b - a >= 2 {
      AtLeastTwo(b - a, interval);
    } else if b - a <= 0 {
      AtMostZero(b - a, interval);
    }
  }

  /** Distinct grid points are at least one interval apart. */
  lemma GridStep(p: int, q: int, interval: Interval)
    requires OnGrid(p, interval) && OnGrid(q, interval) && p < q
    ensures p + interval <= q
  {
    if q < p + interval {
      GridNeighbours(p, q, interval);
    }
  }

  lemma GridShift(p: int, interval: Interval)
    requires OnGrid(p, interval)
    ensures OnGrid(p + interval, interval) && OnGrid(p - interval, interval)
  {
    var a := Multiple(p, interval);
    assert p + interval == (a + 1) * interval && p - interval == (a - 1) * interval;
    MultipleOnGrid(a + 1, interval);
    MultipleOnGrid(a - 1, interval);
  }

  /** With no gap up to `hi`, every grid point from the first open to open `hi` is present. */
  lemma {:induction false} ContiguousUpTo(opens: seq<int>, interval: Interval, hi: nat, p: int)
    requires Ascending(opens) && hi < |opens| && forall t :: t in opens ==> OnGrid(t, interval)
    requires forall i :: i <= hi ==> !GapAt(opens, interval, i)
    requires OnGrid(p, interval) && opens[0] <= p <= opens[hi]
    ensures p in opens
  {
    if hi > 0 {
      assert !GapAt(opens, interval, hi);
      if p <= opens[hi - 1] {
        ContiguousUpTo(opens, interval, hi - 1, p);
      } else if p < opens[hi] {
        GridNeighbours(opens[hi - 1], p, interval);
      }
    }
  }

  // ---------------------------------------------------------------- the expected grid

  /** `range(start, end, interval)`. */
  function Grid(start: int, end: int, interval: Interval): (points: seq<int>)
    decreases end - start
  {
    if start >= end then [] else [start] + Grid(start + interval, end, interval)
  }

  lemma StepInFront(first: int, rest: seq<int>)
    requires StrictlyAscending(rest) && forall t :: t in rest ==> first < t
    ensures StrictlyAscending([first] + rest)
  {
    forall i, j | 0 <= i < j < |[first] + rest| ensures ([first] + rest)[i] < ([first] + rest)[j] {
      assert ([first] + rest)[j] == rest[j - 1] && rest[j - 1] in rest;
    }
  }

  lemma {:induction false} GridPoints(start: int, end: int, interval: Interval)
    ensures StrictlyAscending(Grid(start, end, interval))
    ensures forall t :: t in Grid(start, end, interval) ==> start <= t < end
    decreases end - start
  {
    if start < end {
      var rest := Grid(start + interval, end, interval);
      GridPoints(start + interval, end, interval);
      StepInFront(start, rest);
      forall t | t in Grid(start, end, interval) ensures start <= t < end {
        assert t == start || t in rest;
      }
    }
  }

  /** From a grid point on, `range` lists exactly the grid points before `end`. */
  lemma {:induction false} GridContains(start: int, end: int, interval: Interval, t: int)
    requires OnGrid(start, interval)
    ensures t in Grid(start, end, interval) <==> start <= t < end && OnGrid(t, interval)
    decreases end - start
  {
    if start < end {
      GridShift(start, interval);
      GridContains(start + interval, end, interval, t);
      if start < t < start + interval && OnGrid(t, interval) {
        GridNeighbours(start, t, interval);
      }
    }
  }

  lemma {:induction false} GridLength(start: int, n: nat, interval: Interval)
    ensures |Grid(start, start + n * interval, interval)| == n
    decreases n
  {
    if n > 0 {
      assert n * interval == (n - 1) * interval + interval;
      assert (n - 1) * interval >= 0;
      GridLength(start + interval, n - 1, interval);
    }
  }

  lemma {:induction false} GridAt(start: int, n: nat, interval: Interval, t: int)
    requires t in Grid(start, start + n * interval, interval)
    ensures exists k :: 0 <= k < n && t == start + k * interval
    decreases n
  {
    if n > 0 {
      assert n * interval == (n - 1) * interval + interval;
      if t == start {
        assert start == start + 0 * interval;
      } else {
        GridAt(start + interval, n - 1, interval, t);
        var k :| 0 <= k < n - 1 && t == start + interval + k * interval;
        assert t == start + (k + 1) * interval;
      }
    }
  }
}
