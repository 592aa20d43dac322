/** An EMA is a weighted average of everything it was fed; hence RSI stays between 0 and 100. */
module IndicatorRanges {
  import opened Prelude
  import opened RealArithmetic
  import opened Indicators

  function Pow(base: real, exponent: nat): real {
    if exponent == 0 then 1.0 else base * Pow(base, exponent - 1)
  }

  /** The weight value `j` carries after `n >= period` values: each later value scales it by 1 - multiplier. */
  function Weight(period: Period, multiplier: real, n: nat, j: nat): real
    requires period <= n && j < n
  {
    if n == period then 1.0 / period as real
    else if j == n - 1 then multiplier
    else (1.0 - multiplier) * Weight(period, multiplier, n - 1, j)
  }

  /** The weighted sum of the first `k` of `n` values. */
  function WeightedSum(period: Period, multiplier: real, n: nat, xs: seq<real>, k: nat): real
    requires period <= n && k <= n && k <= |xs|
  {
    if k == 0 then 0.0
    else WeightedSum(period, multiplier, n, xs, k - 1) + Weight(period, multiplier, n, k - 1) * xs[k - 1]
  }

  lemma {:induction false} WeightNonNegative(period: Period, multiplier: real, n: nat, j: nat)
    requires period <= n && j < n && 0.0 < multiplier <= 1.0
    ensures Weight(period, multiplier, n, j) >= 0.0
  {
    if n > period && j < n - 1 {
      WeightNonNegative(period, multiplier, n - 1, j);
    }
  }

  lemma Associate(a: real, b: real, c: real)
    ensures a * (b * c) == (a * b) * c
  {
  }

  /** In closed form: seed values share one decaying weight, later ones decay from `multiplier`. */
  lemma {:induction false} WeightClosedForm(period: Period, multiplier: real, n: nat, j: nat)
    requires period <= n && j < n
    ensures Weight(period, multiplier, n, j)
         == if j < period then Pow(1.0 - multiplier, n - period) * (1.0 / period as real)
            else Pow(1.0 - multiplier, n - 1 - j) * multiplier
  {
    if n > period && j < n - 1 {
      WeightClosedForm(period, multiplier, n - 1, j);
      var d := 1.0 - multiplier;
      if j < period {
        Associate(d, Pow(d, n - 1 - period), 1.0 / period as real);
      } else {
        Associate(d, Pow(d, n - 2 - j), multiplier);
      }
    }
  }

  /** One more term keeps a scaled sum scaled. */
  lemma Scale(d: real, s: real, w: real, x: real)
    ensures Times(d, s) + Times(Times(d, w), x) == Times(d, s + Times(w, x))
  {
    assert d * (s + w * x) == d * s + (d * w) * x;
  }

  lemma DecayedWeight(period: Period, multiplier: real, n: nat, j: nat)
    requires period < n && j < n - 1
    ensures Weight(period, multiplier, n, j) == Times(1.0 - multiplier, Weight(period, multiplier, n - 1, j))
  {
  }

  lemma TermOf(period: Period, multiplier: real, n: nat, xs: seq<real>, k: nat)
    requires period <= n && 0 < k <= n && k <= |xs|
    ensures WeightedSum(period, multiplier, n, xs, k)
         == WeightedSum(period, multiplier, n, xs, k - 1) + Times(Weight(period, multiplier, n, k - 1), xs[k - 1])
  {
  }

  lemma {:induction false} SumDecays(period: Period, multiplier: real, n: nat, xs: seq<real>, ys: seq<real>, k: nat)
    requires period < n && k <= n - 1 && k <= |xs| && k <= |ys|
    requires forall j :: 0 <= j < k ==> xs[j] == ys[j]
    ensures WeightedSum(period, multiplier, n, xs, k)
         == Times(1.0 - multiplier, WeightedSum(period, multiplier, n - 1, ys, k))
  {
    if k > 0 {
      SumDecays(period, multiplier, n, xs, ys, k - 1);
      DecayedWeight(period, multiplier, n, k - 1);
      TermOf(period, multiplier, n, xs, k);
      TermOf(period, multiplier, n - 1, ys, k);
      hide WeightedSum, Weight, Times;
      Scale(1.0 - multiplier, WeightedSum(period, multiplier, n - 1, ys, k - 1),
            Weight(period, multiplier, n - 1, k - 1), xs[k - 1]);
    }
  }

  lemma Mean(s: real, x: real, p: real)
    requires p > 0.0
    ensures s / p + (1.0 / p) * x == (s + x) / p
  {
  }

  /** The seed is a plain mean: every weight is 1 / period. */
  lemma {:induction false} SeedSum(period: Period, multiplier: real, xs: seq<real>, k: nat)
    requires k <= period == |xs|
    ensures WeightedSum(period, multiplier, period, xs, k) == Sum(xs[..k]) / period as real
  {
    if k > 0 {
      SeedSum(period, multiplier, xs, k - 1);
      assert xs[..k][..k - 1] == xs[..k - 1];
      var s, x, p := Sum(xs[..k - 1]), xs[k - 1], period as real;
      Mean(s, x, p);
    }
  }

  lemma {:induction false} SeedBuffers(s: EmaState, xs: seq<real>)
    requires s.ema.None? && s.seed == [] && |xs| < s.period
    ensures EmaFeed(s, xs) == s.(seed := xs)
  {
    if xs != [] {
      SeedBuffers(s, xs[..|xs| - 1]);
      assert xs[..|xs| - 1] + [xs[|xs| - 1]] == xs;
    }
  }

  lemma SeedCompletes(s: EmaState, xs: seq<real>)
    requires s.ema.None? && s.seed == [] && |xs| == s.period
    ensures EmaFeed(s, xs) == s.(ema := Some(Sum(xs) / s.period as real))
  {
    SeedBuffers(s, xs[..|xs| - 1]);
    assert xs[..|xs| - 1] + [xs[|xs| - 1]] == xs;
  }

  lemma LastTerm(period: Period, multiplier: real, n: nat, xs: seq<real>)
    requires period < n == |xs|
    ensures WeightedSum(period, multiplier, n, xs, n)
         == WeightedSum(period, multiplier, n, xs, n - 1) + Times(multiplier, xs[n - 1])
  {
    hide WeightedSum, Times;
    TermOf(period, multiplier, n, xs, n);
    assert Weight(period, multiplier, n, n - 1) == multiplier;
  }

  lemma SmoothedIsBlend(s: EmaState, x: real)
    requires s.ema.Some?
    ensures Smoothed(s, x) == Times(1.0 - s.multiplier, s.ema.value) + Times(s.multiplier, x)
  {
  }

  lemma WeightedStep(s: EmaState, xs: seq<real>)
    requires |xs| > s.period && s.ema.Some?
    requires s.ema.value == WeightedSum(s.period, s.multiplier, |xs| - 1, xs[..|xs| - 1], |xs| - 1)
    ensures Smoothed(s, xs[|xs| - 1]) == WeightedSum(s.period, s.multiplier, |xs|, xs, |xs|)
  {
    hide *;
    var n := |xs|;
    SumDecays(s.period, s.multiplier, n, xs, xs[..n - 1], n - 1);
    LastTerm(s.period, s.multiplier, n, xs);
    SmoothedIsBlend(s, xs[n - 1]);
  }

  /** A ready EMA is the weighted sum of every value fed. */
  lemma {:induction false} EmaIsWeightedSum(s: EmaState, xs: seq<real>)
    requires s.ema.None? && s.seed == [] && |xs| >= s.period
    ensures EmaFeed(s, xs).period == s.period && EmaFeed(s, xs).multiplier == s.multiplier
    ensures EmaFeed(s, xs).ema == Some(WeightedSum(s.period, s.multiplier, |xs|, xs, |xs|))
  {
    if |xs| == s.period {
      SeedCompletes(s, xs);
      SeedSum(s.period, s.multiplier, xs, |xs|);
      assert xs[..|xs|] == xs;
    } else {
      EmaIsWeightedSum(s, xs[..|xs| - 1]);
      WeightedStep(EmaFeed(s, xs[..|xs| - 1]), xs);
    }
  }

  function Ones(n: nat): seq<real> {
    seq(n, _ => 1.0)
  }

  lemma {:induction false} SumOfOnes(k: nat)
    ensures Sum(Ones(k)) == k as real
  {
    if k > 0 {
      assert Ones(k)[..k - 1] == Ones(k - 1);
      SumOfOnes(k - 1);
    }
  }

  /** The weights sum to one: an EMA fed ones reads one. */
  lemma {:induction false} WeightsSumToOne(period: Period, multiplier: real, n: nat)
    requires period <= n
    ensures WeightedSum(period, multiplier, n, Ones(n), n) == 1.0
  {
    if n == period {
      SeedSum(period, multiplier, Ones(n), n);
      assert Ones(n)[..n] == Ones(n);
      SumOfOnes(n);
    } else {
      WeightsSumToOne(period, multiplier, n - 1);
      SumDecays(period, multiplier, n, Ones(n), Ones(n - 1), n - 1);
    }
  }

  lemma BetweenStep(n: real, sum: real, x: real, lo: real, hi: real)
    requires lo * n <= sum <= hi * n && lo <= x <= hi
    ensures lo * (n + 1.0) <= sum + x <= hi * (n + 1.0)
  {
  }

  lemma {:induction false} SumBetween(xs: seq<real>, lo: real, hi: real, n: real)
    requires n == |xs| as real && forall j :: 0 <= j < |xs| ==> lo <= xs[j] <= hi
    ensures lo * n <= Sum(xs) <= hi * n
  {
    if xs != [] {
      SumBetween(xs[..|xs| - 1], lo, hi, n - 1.0);
      BetweenStep(n - 1.0, Sum(xs[..|xs| - 1]), xs[|xs| - 1], lo, hi);
    }
  }

  lemma MeanBetween(xs: seq<real>, n: real, lo: real, hi: real)
    requires xs != [] && n == |xs| as real && forall j :: 0 <= j < |xs| ==> lo <= xs[j] <= hi
    ensures lo <= Sum(xs) / n <= hi
  {
    SumBetween(xs, lo, hi, n);
    QuotientBetween(Sum(xs), n, lo, hi);
  }

  lemma BlendBetween(s: EmaState, x: real, lo: real, hi: real)
    requires 0.0 < s.multiplier <= 1.0 && s.ema.Some? && lo <= s.ema.value <= hi && lo <= x <= hi
    ensures lo <= Smoothed(s, x) <= hi
  {
    var e, m := s.ema.value, s.multiplier;
    ProductNonNegative(1.0 - m, e - lo);
    ProductNonNegative(m, x - lo);
    ProductNonNegative(1.0 - m, hi - e);
    ProductNonNegative(m, hi - x);
    assert (x - e) * m + e - lo == (1.0 - m) * (e - lo) + m * (x - lo);
    assert hi - ((x - e) * m + e) == (1.0 - m) * (hi - e) + m * (hi - x);
  }

  /** A ready EMA lies between the smallest and the largest value it was fed. */
  lemma {:induction false} EmaBetweenMinAndMax(s: EmaState, xs: seq<real>, lo: real, hi: real)
    requires s.ema.None? && s.seed == [] && |xs| >= s.period && 0.0 < s.multiplier <= 1.0
    requires forall j :: 0 <= j < |xs| ==> lo <= xs[j] <= hi
    ensures EmaFeed(s, xs).ema.Some? && lo <= EmaFeed(s, xs).ema.value <= hi
    ensures EmaFeed(s, xs).multiplier == s.multiplier
  {
    if |xs| == s.period {
      SeedCompletes(s, xs);
      MeanBetween(xs, s.period as real, lo, hi);
    } else {
      EmaBetweenMinAndMax(s, xs[..|xs| - 1], lo, hi);
      BlendBetween(EmaFeed(s, xs[..|xs| - 1]), xs[|xs| - 1], lo, hi);
    }
  }

  // ---------------------------------------------------------------- RSI

  /** The up-moves (`up`) or down-moves between consecutive closes. */
  function CloseMoves(xs: seq<real>, up: bool): (r: seq<real>)
    ensures |r| == if |xs| == 0 then 0 else |xs| - 1
    ensures forall x :: x in r ==> x >= 0.0
  {
    if |xs| < 2 then []
    else
      var change := xs[|xs| - 1] - xs[|xs| - 2];
      CloseMoves(xs[..|xs| - 1], up)
      + [if up then (if change > 0.0 then change else 0.0) else if change < 0.0 then -change else 0.0]
  }

  lemma RsiStep(r: RsiState, x: real)
    requires r.previousClose.Some?
    ensures var change := x - r.previousClose.value;
      RsiUpdate(r, x).0 == RsiState(Some(x), EmaNext(r.gain, Positive(change)), EmaNext(r.loss, Positive(-change)))
  {
  }

  /** RSI's state after a history: the EMAs of its up-moves and of its down-moves. */
  function Smoothers(s: RsiState, xs: seq<real>): RsiState {
    RsiState(if xs == [] then s.previousClose else Some(xs[|xs| - 1]),
             EmaFeed(s.gain, CloseMoves(xs, true)), EmaFeed(s.loss, CloseMoves(xs, false)))
  }

  lemma MovesOfLonger(xs: seq<real>, x: real, up: bool)
    requires xs != []
    ensures CloseMoves(xs + [x], up)
         == CloseMoves(xs, up) + [Positive(if up then x - xs[|xs| - 1] else -(x - xs[|xs| - 1]))]
  {
    assert (xs + [x])[..|xs|] == xs;
  }

  lemma EmaFeedOfLonger(s: EmaState, xs: seq<real>, x: real)
    ensures EmaFeed(s, xs + [x]) == EmaNext(EmaFeed(s, xs), x)
  {
    assert (xs + [x])[..|xs|] == xs;
  }

  lemma RsiUpdates(r: RsiState, x: real)
    ensures Update(Rsi(r), x) == (Rsi(RsiUpdate(r, x).0), RsiUpdate(r, x).1)
  {
  }

  lemma SmoothersOfLonger(s: RsiState, xs: seq<real>, x: real)
    requires s.previousClose.None?
    ensures Update(Rsi(Smoothers(s, xs)), x).0 == Rsi(Smoothers(s, xs + [x]))
  {
    hide EmaNext, Positive, EmaFeed, Update;
    var r := Smoothers(s, xs);
    assert Update(Rsi(r), x).0 == Rsi(RsiUpdate(r, x).0) by { RsiUpdates(r, x); }
    if xs == [] {
      assert CloseMoves([x], true) == [] == CloseMoves([x], false);
    } else {
      hide CloseMoves;
      RsiStep(r, x);
      MovesOfLonger(xs, x, true);
      MovesOfLonger(xs, x, false);
      var change := x - xs[|xs| - 1];
      EmaFeedOfLonger(s.gain, CloseMoves(xs, true), Positive(change));
      EmaFeedOfLonger(s.loss, CloseMoves(xs, false), Positive(-change));
    }
  }

  lemma {:induction false} RsiSmoothsMoves(s: RsiState, xs: seq<real>)
    requires s.previousClose.None?
    ensures Feed(Rsi(s), xs) == Rsi(Smoothers(s, xs))
  {
    hide Update;
    if xs == [] {
      assert CloseMoves(xs, true) == [] == CloseMoves(xs, false);
    } else {
      var before, x := xs[..|xs| - 1], xs[|xs| - 1];
      assert xs == before + [x];
      hide Smoothers;
      RsiSmoothsMoves(s, before);
      SmoothersOfLonger(s, before, x);
    }
  }

  lemma QuotientBounds(a: real, b: real)
    requires a >= 0.0 && b > 0.0
    ensures a / b >= 0.0
    ensures b >= 1.0 ==> a / b <= a
  {
  }

  lemma RsiFromInRange(gain: real, loss: real)
    requires gain >= 0.0 && loss >= 0.0
    ensures 0.0 <= RsiFrom(gain, loss) <= 100.0
    ensures loss > 0.0 ==> 1.0 + gain / loss >= 1.0
  {
    if loss > 0.0 {
      QuotientBounds(gain, loss);
      QuotientBounds(100.0, 1.0 + gain / loss);
    }
  }

  ghost predicate FreshEma(s: EmaState) {
    s.ema.None? && s.seed == [] && 0.0 < s.multiplier <= 1.0
  }

  /** `Max` and `Min` are attained bounds, so SupportResistance reports the window's extremes. */
  lemma {:induction false} MaxBounds(xs: seq<real>)
    requires xs != []
    ensures Max(xs) in xs && Min(xs) in xs
    ensures forall x :: x in xs ==> Min(xs) <= x <= Max(xs)
  {
    if |xs| > 1 {
      MaxBounds(xs[..|xs| - 1]);
      assert xs == xs[..|xs| - 1] + [xs[|xs| - 1]];
    }
  }

  lemma MovesHaveAMaximum(xs: seq<real>, up: bool, s: EmaState)
    requires FreshEma(s) && |xs| > s.period
    ensures EmaFeed(s, CloseMoves(xs, up)).ema.Some? && EmaFeed(s, CloseMoves(xs, up)).ema.value >= 0.0
  {
    var moves := CloseMoves(xs, up);
    MaxBounds(moves);
    assert forall j :: 0 <= j < |moves| ==> moves[j] in moves;
    EmaBetweenMinAndMax(s, moves, 0.0, Max(moves));
  }

  /** Every RSI reading lies in [0, 100], and no division by zero can arise on the way to it. */
  lemma RsiReadingInRange(s: RsiState, xs: seq<real>, value: real)
    requires s.previousClose.None? && FreshEma(s.gain) && FreshEma(s.loss) && s.gain.period == s.loss.period
    ensures var reading := Update(Feed(Rsi(s), xs), value).1;
      && (reading.Some? <==> |xs| >= s.gain.period)
      && (reading.Some? ==> reading.value.Scalar? && 0.0 <= reading.value.value <= 100.0)
  {
    var all := xs + [value];
    assert all[..|all| - 1] == xs;
    RsiSmoothsMoves(s, xs);
    RsiSmoothsMoves(s, all);
    WarmUpIsExact(Rsi(s), xs, value);
    if |xs| >= s.gain.period {
      MovesHaveAMaximum(all, true, s.gain);
      MovesHaveAMaximum(all, false, s.loss);
      var after := Feed(Rsi(s), all).rsi;
      RsiFromInRange(after.gain.ema.value, after.loss.ema.value);
    }
  }
}
