/** What the indicator readings say of the closes they were fed. */
module IndicatorMeanings {
  import opened Prelude
  import opened RealArithmetic
  import opened Indicators
  import opened IndicatorRanges

  // ---------------------------------------------------------------- EMA

  lemma ShareOfMove(before: real, x: real, multiplier: real, numerator: real, denominator: real)
    requires multiplier * denominator == numerator
    ensures ((x - before) * multiplier + before - before) * denominator == numerator * (x - before)
  {
    var move := x - before;
    assert move * multiplier * denominator == move * (multiplier * denominator);
  }

  lemma {:induction false} EmaFeedKeeps(s: EmaState, xs: seq<real>)
    requires EmaFed(s, 0)
    ensures EmaFed(EmaFeed(s, xs), |xs|)
    ensures EmaFeed(s, xs).period == s.period && EmaFeed(s, xs).multiplier == s.multiplier
  {
    if xs != [] {
      EmaFeedKeeps(s, xs[..|xs| - 1]);
      EmaOneUpdate(EmaFeed(s, xs[..|xs| - 1]), |xs| - 1, xs[|xs| - 1]);
      hide EmaNext;
    }
  }

  lemma ReadyMoves(s: EmaState, x: real, numerator: real, denominator: int)
    requires s.ema.Some? && s.multiplier * denominator as real == numerator
    ensures var after := EmaNext(s, x).ema;
      after.Some? && (after.value - s.ema.value) * denominator as real == numerator * (x - s.ema.value)
  {
    ShareOfMove(s.ema.value, x, s.multiplier, numerator, denominator as real);
  }

  lemma QuotientTimes(a: real, b: real)
    requires b != 0.0
    ensures a / b * b == a
  {
  }

  lemma SeedIsMean(s: EmaState, xs: seq<real>)
    requires EmaFed(s, 0) && |xs| == s.period
    ensures EmaFeed(s, xs).ema.Some? && EmaFeed(s, xs).ema.value * s.period as real == Sum(xs)
  {
    hide EmaFeed, Sum;
    SeedCompletes(s, xs);
    QuotientTimes(Sum(xs), s.period as real);
  }

  /** After its seed, the mean of the first values, an EMA takes in `numerator / denominator` of each move. */
  lemma EmaTakesItsShare(s: EmaState, period: Period, numerator: real, denominator: int, xs: seq<real>, x: real)
    requires Unfed(s, period, numerator, denominator)
    ensures |xs| < period ==> EmaFeed(s, xs).ema.None?
    ensures |xs| == period ==> EmaFeed(s, xs).ema.Some? && EmaFeed(s, xs).ema.value * period as real == Sum(xs)
    ensures |xs| >= period ==>
              var before, after := EmaFeed(s, xs).ema, EmaFeed(s, xs + [x]).ema;
              && before.Some? && after.Some?
              && (after.value - before.value) * denominator as real == numerator * (x - before.value)
  {
    hide EmaFeed, EmaNext, Sum;
    EmaFeedKeeps(s, xs);
    if |xs| == period {
      SeedIsMean(s, xs);
    }
    if |xs| >= period {
      EmaFeedOfLonger(s, xs, x);
      ReadyMoves(EmaFeed(s, xs), x, numerator, denominator);
    }
  }

  /** The EMA a period names, from the period alone; with an `alpha`, from that. */
  lemma EmaOfPeriod(period: int, alpha: Option<real>, xs: seq<real>, x: real)
    requires NewEma(period, alpha).Success? && |xs| >= period
    ensures var e := NewEma(period, alpha).value;
      var before, after := EmaFeed(e, xs).ema, EmaFeed(e, xs + [x]).ema;
      && before.Some? && after.Some?
      && (alpha.None? ==> (after.value - before.value) * (period + 1) as real == 2.0 * (x - before.value))
      && (alpha.Some? ==> after.value - before.value == alpha.value * (x - before.value))
      && (|xs| == period ==> before.value * period as real == Sum(xs))
  {
    hide NewEma, EmaFeed, Sum;
    NewIndicatorsAreUnfed(period, alpha, 0, 0, 0);
    var e := NewEma(period, alpha).value;
    if alpha.Some? {
      EmaTakesItsShare(e, period, alpha.value, 1, xs, x);
    } else {
      EmaTakesItsShare(e, period, 2.0, period + 1, xs, x);
    }
  }

  // ---------------------------------------------------------------- RSI

  lemma ShareOfRatio(gain: real, loss: real)
    requires gain >= 0.0 && loss > 0.0
    ensures 1.0 + gain / loss > 0.0
    ensures (100.0 - 100.0 / (1.0 + gain / loss)) * (gain + loss) == 100.0 * gain
  {
    var ratio := gain / loss;
    assert ratio * loss == gain;
    if ratio < 0.0 {
      ProductNonNegative(-ratio, loss);
    }
    var whole := 1.0 + ratio;
    assert whole * loss == gain + loss;
    var part := 100.0 / whole;
    assert part * whole == 100.0;
    assert part * (whole * loss) == (part * whole) * loss;
  }

  /** RSI is the share of smoothed gains in all smoothed moves, in percent; with no move at all it is 50. */
  lemma RsiIsGainShare(gain: real, loss: real)
    requires gain >= 0.0 && loss >= 0.0
    ensures gain + loss > 0.0 ==> RsiFrom(gain, loss) * (gain + loss) == 100.0 * gain
    ensures gain + loss == 0.0 ==> RsiFrom(gain, loss) == 50.0
  {
    if loss > 0.0 {
      ShareOfRatio(gain, loss);
    }
  }

  /** A reading is taken off the smoothers the update leaves behind. */
  lemma RsiReads(r: RsiState, x: real)
    ensures var (next, reading) := Update(Rsi(r), x);
      && next.Rsi?
      && (reading.Some? ==> next.rsi.gain.ema.Some? && next.rsi.loss.ema.Some?
                            && reading.value == Scalar(RsiFrom(next.rsi.gain.ema.value, next.rsi.loss.ema.value)))
  {
    hide EmaNext, RsiFrom;
  }

  lemma FeedOneMore(s: IndicatorState, xs: seq<real>, x: real)
    ensures Feed(s, xs + [x]) == Update(Feed(s, xs), x).0
  {
    assert (xs + [x])[..|xs|] == xs;
  }

  /**
   * An RSI reading of any history: with the up-moves and the down-moves each smoothed as Wilder does, the gains'
   * share of all moves in percent, and 50 when nothing moved.
   */
  lemma RsiReadingMeans(period: int, xs: seq<real>, x: real)
    requires NewRsi(period).Success?
    ensures var reading, wilder := Update(Feed(Rsi(NewRsi(period).value), xs), x).1,
                                   EmaState(period, 1.0 / period as real, [], None);
      var gain, loss := EmaFeed(wilder, CloseMoves(xs + [x], true)).ema,
                        EmaFeed(wilder, CloseMoves(xs + [x], false)).ema;
      && (reading.Some? <==> |xs| >= period)
      && (reading.Some? ==>
            && gain.Some? && loss.Some? && reading.value.Scalar?
            && (gain.value + loss.value > 0.0 ==>
                  reading.value.value * (gain.value + loss.value) == 100.0 * gain.value)
            && (gain.value + loss.value == 0.0 ==> reading.value.value == 50.0))
  {
    hide RsiFrom, EmaFeed, CloseMoves, EmaNext, Feed, Update;
    var r, all := NewRsi(period).value, xs + [x];
    FeedOneMore(Rsi(r), xs, x);
    NewIndicatorsAreUnfed(period, None, 0, 0, 0);
    RsiSmoothsMoves(r, xs);
    RsiSmoothsMoves(r, all);
    assert all[..|all| - 1] == xs;
    WarmUpIsExact(Rsi(r), xs, x);
    RsiReads(Feed(Rsi(r), xs).rsi, x);
    if |xs| >= period {
      MovesHaveAMaximum(all, true, r.gain);
      MovesHaveAMaximum(all, false, r.loss);
      RsiIsGainShare(EmaFeed(r.gain, CloseMoves(all, true)).ema.value,
                     EmaFeed(r.loss, CloseMoves(all, false)).ema.value);
    }
  }

  // ---------------------------------------------------------------- MACD

  /** The MACD line over a history: fast less slow, from the first close both read. */
  function Line(m: MacdState, xs: seq<real>): seq<real> {
    if xs == [] then []
    else
      var fast, slow := EmaFeed(m.fast, xs).ema, EmaFeed(m.slow, xs).ema;
      Line(m, xs[..|xs| - 1]) + if fast.Some? && slow.Some? then [fast.value - slow.value] else []
  }

  lemma MacdStep(m: MacdState, x: real)
    ensures var fast, slow := EmaNext(m.fast, x), EmaNext(m.slow, x);
      Update(Macd(m), x).0 == Macd(MacdState(fast, slow,
        if fast.ema.Some? && slow.ema.Some? then EmaNext(m.signal, fast.ema.value - slow.ema.value) else m.signal))
  {
    hide EmaNext;
  }

  lemma LineOfLonger(m: MacdState, xs: seq<real>, x: real)
    ensures var fast, slow := EmaFeed(m.fast, xs + [x]).ema, EmaFeed(m.slow, xs + [x]).ema;
      Line(m, xs + [x]) == if fast.Some? && slow.Some? then Line(m, xs) + [fast.value - slow.value] else Line(m, xs)
  {
    hide EmaFeed;
    assert (xs + [x])[..|xs|] == xs;
  }

  /** The three EMAs after a history: two fed every close, the third fed their difference once both read. */
  function Emas(m: MacdState, xs: seq<real>): MacdState {
    MacdState(EmaFeed(m.fast, xs), EmaFeed(m.slow, xs), EmaFeed(m.signal, Line(m, xs)))
  }

  lemma EmasOfLonger(m: MacdState, xs: seq<real>, x: real)
    ensures Update(Macd(Emas(m, xs)), x).0 == Macd(Emas(m, xs + [x]))
  {
    hide EmaNext, EmaFeed, Line, Update;
    MacdStep(Emas(m, xs), x);
    EmaFeedOfLonger(m.fast, xs, x);
    EmaFeedOfLonger(m.slow, xs, x);
    LineOfLonger(m, xs, x);
    var fast, slow := EmaFeed(m.fast, xs + [x]).ema, EmaFeed(m.slow, xs + [x]).ema;
    if fast.Some? && slow.Some? {
      EmaFeedOfLonger(m.signal, Line(m, xs), fast.value - slow.value);
    }
  }

  /** MACD is its three EMAs. */
  lemma {:induction false} MacdIsItsEmas(m: MacdState, xs: seq<real>)
    ensures Feed(Macd(m), xs) == Macd(Emas(m, xs))
  {
    hide Update;
    if xs != [] {
      hide Emas;
      var before, x := xs[..|xs| - 1], xs[|xs| - 1];
      assert xs == before + [x];
      MacdIsItsEmas(m, before);
      EmasOfLonger(m, before, x);
    }
  }

  /** What a MACD reading says of the whole history. */
  ghost predicate MacdMeans(m: MacdState, all: seq<real>, reading: IndicatorValue) {
    var fast, slow, signal := EmaFeed(m.fast, all).ema, EmaFeed(m.slow, all).ema, EmaFeed(m.signal, Line(m, all)).ema;
    && fast.Some? && slow.Some? && signal.Some?
    && reading == MacdValue(fast.value - slow.value, signal.value, fast.value - slow.value - signal.value)
  }

  lemma ReadingIsOfNext(m: MacdState, x: real)
    ensures var (next, reading) := MacdUpdate(m, x);
      reading.Some? ==> next.fast.ema.Some? && next.slow.ema.Some? && next.signal.ema.Some?
                        && reading.value == MacdReading(next.fast.ema.value, next.slow.ema.value, next.signal.ema.value)
  {
    hide EmaNext;
  }

  /** Each reading is fast less slow, the EMA of that line, and their difference. */
  lemma MacdReadingMeans(m: MacdState, xs: seq<real>, x: real)
    ensures var reading := Update(Feed(Macd(m), xs), x).1;
      reading.Some? ==> MacdMeans(m, xs + [x], reading.value)
  {
    var state := Emas(m, xs);
    MacdIsItsEmas(m, xs);
    EmasOfLonger(m, xs, x);
    ReadingIsOfNext(state, x);
    assert Update(Macd(state), x) == (Macd(MacdUpdate(state, x).0), MacdUpdate(state, x).1);
    hide EmaNext, EmaFeed, Line, Feed, MacdUpdate, Update;
  }

  // ---------------------------------------------------------------- rolling windows

  /** The last `n` of a history, or all of a shorter one. */
  function Latest(xs: seq<real>, n: nat): seq<real> {
    if |xs| <= n then xs else xs[|xs| - n..]
  }

  lemma AppendKeepsLatest(period: Period, xs: seq<real>, x: real)
    ensures Append(WindowState(period, Latest(xs, period)), x) == WindowState(period, Latest(xs + [x], period))
  {
  }

  /** A window holds exactly the latest `period` closes, oldest first. */
  lemma {:induction false} WindowHoldsLatest(period: Period, xs: seq<real>)
    ensures Feed(Wma(WindowState(period, [])), xs) == Wma(WindowState(period, Latest(xs, period)))
    ensures Feed(SupportResistance(WindowState(period, [])), xs)
         == SupportResistance(WindowState(period, Latest(xs, period)))
  {
    if xs != [] {
      var before, x := xs[..|xs| - 1], xs[|xs| - 1];
      assert xs == before + [x];
      WindowHoldsLatest(period, before);
      AppendKeepsLatest(period, before, x);
    }
  }

  /** The sums of all the endings of a window: the newest value is in every one of them. */
  function SuffixSums(xs: seq<real>): real {
    if xs == [] then 0.0 else Sum(xs) + SuffixSums(xs[1..])
  }

  lemma {:induction false} SuffixSumsOfLonger(xs: seq<real>, x: real)
    ensures SuffixSums(xs + [x]) == SuffixSums(xs) + x * (|xs| + 1) as real
  {
    assert (xs + [x])[..|xs|] == xs;
    if xs == [] {
      assert (xs + [x])[1..] == [];
      assert Sum([x]) == Sum([x][..0]) + x;
    } else {
      SuffixSumsOfLonger(xs[1..], x);
      assert (xs + [x])[1..] == xs[1..] + [x];
      assert x * (|xs| + 1) as real == x * |xs| as real + x;
    }
  }

  /** Weighting a window by 1, 2, … from its oldest value is adding up the sums of its endings. */
  lemma {:induction false} WeightedIsSuffixSums(xs: seq<real>)
    ensures Weighted(xs) == SuffixSums(xs)
  {
    if xs != [] {
      var before, x := xs[..|xs| - 1], xs[|xs| - 1];
      assert xs == before + [x];
      WeightedIsSuffixSums(before);
      SuffixSumsOfLonger(before, x);
    }
  }

  lemma {:induction false} WeightTotalIsTriangular(n: nat)
    ensures 2 * WeightTotal(n) == n * (n + 1)
  {
    if n > 0 {
      WeightTotalIsTriangular(n - 1);
      assert n * (n + 1) == (n - 1) * n + 2 * n;
    }
  }

  lemma WeightedOfLonger(xs: seq<real>)
    requires xs != []
    ensures Weighted(xs) == Weighted(xs[..|xs| - 1]) + Times(xs[|xs| - 1], |xs| as real)
  {
  }

  lemma TermBetween(lo: real, hi: real, x: real, n: real, total: real)
    requires lo <= x <= hi && n >= 0.0
    ensures Times(lo, total + n) <= Times(lo, total) + Times(x, n)
    ensures Times(hi, total) + Times(x, n) <= Times(hi, total + n)
  {
    ProductNonNegative(x - lo, n);
    ProductNonNegative(hi - x, n);
    assert (x - lo) * n == x * n - lo * n && (hi - x) * n == hi * n - x * n;
    assert lo * (total + n) == lo * total + lo * n && hi * (total + n) == hi * total + hi * n;
  }

  lemma {:induction false} WeightedBetween(xs: seq<real>, lo: real, hi: real)
    requires forall x :: x in xs ==> lo <= x <= hi
    ensures Times(lo, WeightTotal(|xs|) as real) <= Weighted(xs) <= Times(hi, WeightTotal(|xs|) as real)
  {
    if xs != [] {
      var n, before, x := |xs|, xs[..|xs| - 1], xs[|xs| - 1];
      assert xs == before + [x];
      assert forall y :: y in before ==> y in xs;
      assert x in xs;
      WeightedBetween(before, lo, hi);
      WeightedOfLonger(xs);
      TermBetween(lo, hi, x, n as real, WeightTotal(n - 1) as real);
      assert WeightTotal(n) == WeightTotal(n - 1) + n;
      hide Weighted, WeightTotal, Times;
    }
  }

  lemma MeanBetweenBounds(sum: real, total: real, lo: real, hi: real)
    requires total > 0.0 && Times(lo, total) <= sum <= Times(hi, total)
    ensures lo <= sum / total <= hi
  {
    QuotientBetween(sum, total, lo, hi);
  }

  lemma ReadingBetween(period: Period, window: seq<real>, lo: real, hi: real)
    requires |window| == period && forall y :: y in window ==> lo <= y <= hi
    ensures var reading := WmaReading(period, window);
      reading.Some? && reading.value.Scalar? && lo <= reading.value.value <= hi
  {
    hide Weighted, WeightTotal, Times;
    WeightedBetween(window, lo, hi);
    var total := WeightTotal(|window|);
    MeanBetweenBounds(Weighted(window), total as real, lo, hi);
  }

  /** A WMA reading lies between any bounds of the latest closes it weighs. */
  lemma WmaReadingBetween(period: Period, xs: seq<real>, x: real, lo: real, hi: real)
    requires forall y :: y in Latest(xs + [x], period) ==> lo <= y <= hi
    ensures var reading := Update(Feed(Wma(WindowState(period, [])), xs), x).1;
      reading.Some? ==> reading.value.Scalar? && lo <= reading.value.value <= hi
  {
    var window := Latest(xs + [x], period);
    WindowHoldsLatest(period, xs);
    AppendKeepsLatest(period, xs, x);
    assert Update(Feed(Wma(WindowState(period, [])), xs), x).1 == WmaReading(period, window);
    assert |window| <= period;
    if |window| == period {
      ReadingBetween(period, window, lo, hi);
    }
    hide Update, Feed, Latest, Append;
  }

  lemma WeightedMean(sum: real, total: nat, n: nat)
    requires n > 0 && 2 * total == n * (n + 1)
    ensures total > 0 && sum / total as real * (n * (n + 1)) as real == 2.0 * sum
  {
    assert n * (n + 1) >= n;
    assert sum / total as real * (2 * total) as real == 2.0 * (sum / total as real * total as real);
  }

  /** The window weighed by 1, 2, … from its oldest value, over the sum of the weights. */
  ghost predicate IsWeightedMean(reading: IndicatorValue, period: Period, window: seq<real>) {
    reading.Scalar? && reading.value * (period * (period + 1)) as real == 2.0 * SuffixSums(window)
  }

  lemma WmaReadsWindow(period: Period, window: seq<real>)
    ensures var reading := WmaReading(period, window);
      (reading.Some? <==> |window| >= period) && (reading.Some? ==> IsWeightedMean(reading.value, period, window))
  {
    hide SuffixSums, Weighted, WeightTotal;
    WeightedIsSuffixSums(window);
    WeightTotalIsTriangular(period);
    WeightedMean(Weighted(window), WeightTotal(period), period);
  }

  /** A WMA reading weighs the latest closes by 1, 2, … from the oldest, over the sum of those weights. */
  lemma WmaReadingMeans(period: Period, xs: seq<real>, x: real)
    ensures var reading := Update(Feed(Wma(WindowState(period, [])), xs), x).1;
      && (reading.Some? <==> |xs| + 1 >= period)
      && (reading.Some? ==> IsWeightedMean(reading.value, period, Latest(xs + [x], period)))
  {
    hide Feed, WmaReading, IsWeightedMean;
    var window := Latest(xs + [x], period);
    WindowHoldsLatest(period, xs);
    AppendKeepsLatest(period, xs, x);
    assert Update(Feed(Wma(WindowState(period, [])), xs), x).1 == WmaReading(period, window);
    WmaReadsWindow(period, window);
  }

  ghost predicate AreExtremes(levels: IndicatorValue, window: seq<real>) {
    && levels.Levels? && levels.resistance in window && levels.support in window
    && (forall y :: y in window ==> levels.support <= y <= levels.resistance)
    && levels.midline - levels.support == levels.resistance - levels.midline
  }

  /** Support and resistance are attained extremes of the latest closes, the current one among them. */
  lemma LevelsAreExtremes(period: Period, xs: seq<real>, x: real)
    ensures var reading := Update(Feed(SupportResistance(WindowState(period, [])), xs), x).1;
      reading.Some? ==> AreExtremes(reading.value, Latest(xs + [x], period))
  {
    var window := Latest(xs + [x], period);
    WindowHoldsLatest(period, xs);
    AppendKeepsLatest(period, xs, x);
    MaxBounds(window);
    hide Max, Min;
  }
}
