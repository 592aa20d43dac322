/** The five indicators as values: what one committed value does, and what a tentative one would read. */
module Indicators {
  import opened Prelude

  type Period = n: int | n >= 1 witness 1

  datatype EmaState = EmaState(period: Period, multiplier: real, seed: seq<real>, ema: Option<real>)

  datatype MacdState = MacdState(fast: EmaState, slow: EmaState, signal: EmaState)

  datatype RsiState = RsiState(previousClose: Option<real>, gain: EmaState, loss: EmaState)

  /** WMA and SupportResistance both keep the last `period` values, oldest first. */
  datatype WindowState = WindowState(period: Period, values: seq<real>)

  datatype IndicatorState =
    | Ema(ema: EmaState)
    | Macd(macd: MacdState)
    | Rsi(rsi: RsiState)
    | Wma(window: WindowState)
    | SupportResistance(window: WindowState)

  datatype IndicatorValue =
    | Scalar(value: real)
    | MacdValue(macd: real, signal: real, histogram: real)
    | Levels(resistance: real, support: real, midline: real)

  // ---------------------------------------------------------------- construction

  function NewEma(period: int, alpha: Option<real>): Result<EmaState> {
    if period <= 0 then Failure("ValueError")
    else if alpha.Some? && !(0.0 < alpha.value <= 1.0) then Failure("ValueError")
    else
      var multiplier := if alpha.Some? then alpha.value else 2.0 / (period + 1) as real;
      Success(EmaState(period, multiplier, [], None))
  }

  function NewMacd(fastPeriod: int, slowPeriod: int, signalPeriod: int): Result<MacdState> {
    if fastPeriod >= slowPeriod then Failure("ValueError")
    else
      var fast, slow, signal := NewEma(fastPeriod, None), NewEma(slowPeriod, None), NewEma(signalPeriod, None);
      if fast.Failure? || slow.Failure? || signal.Failure? then Failure("ValueError")
      else Success(MacdState(fast.value, slow.value, signal.value))
  }

  function NewRsi(period: int): Result<RsiState> {
    if period <= 0 then Failure("ValueError")
    else Success(RsiState(None, EmaState(period, 1.0 / period as real, [], None),
                                EmaState(period, 1.0 / period as real, [], None)))
  }

  function NewWindow(period: int): Result<WindowState> {
    if period <= 0 then Failure("ValueError") else Success(WindowState(period, []))
  }

  // ---------------------------------------------------------------- EMA

  function Sum(xs: seq<real>): real {
    if xs == [] then 0.0 else Sum(xs[..|xs| - 1]) + xs[|xs| - 1]
  }

  function Smoothed(s: EmaState, value: real): real
    requires s.ema.Some?
  {
    (value - s.ema.value) * s.multiplier + s.ema.value
  }

  /** The state after committing `value`; its `ema` is the reading `update` returns. */
  function EmaNext(s: EmaState, value: real): EmaState {
    if s.ema.None? then
      var seed := s.seed + [value];
      if |seed| < s.period then s.(seed := seed)
      else s.(seed := [], ema := Some(Sum(seed) / s.period as real))
    else s.(ema := Some(Smoothed(s, value)))
  }

  function EmaPeek(s: EmaState, value: real): Option<real> {
    if s.ema.None? then None
    else Some(Smoothed(s, value))
  }

  // ---------------------------------------------------------------- MACD

  function MacdReading(fast: real, slow: real, signal: real): IndicatorValue {
    MacdValue(fast - slow, signal, fast - slow - signal)
  }

  function MacdUpdate(s: MacdState, value: real): (MacdState, Option<IndicatorValue>) {
    var fast, slow := EmaNext(s.fast, value), EmaNext(s.slow, value);
    if fast.ema.None? || slow.ema.None? then (s.(fast := fast, slow := slow), None)
    else
      var signal := EmaNext(s.signal, fast.ema.value - slow.ema.value);
      (MacdState(fast, slow, signal),
       if signal.ema.None? then None
       else Some(MacdReading(fast.ema.value, slow.ema.value, signal.ema.value)))
  }

  function MacdPeek(s: MacdState, value: real): Option<IndicatorValue> {
    var fast, slow := EmaPeek(s.fast, value), EmaPeek(s.slow, value);
    if fast.None? || slow.None? then None
    else
      var signal := EmaPeek(s.signal, fast.value - slow.value);
      if signal.None? then None else Some(MacdReading(fast.value, slow.value, signal.value))
  }

  // ---------------------------------------------------------------- RSI

  function Positive(x: real): real {
    if x > 0.0 then x else 0.0
  }

  function RsiFrom(avgGain: real, avgLoss: real): real {
    if avgLoss == 0.0 then (if avgGain > 0.0 then 100.0 else 50.0)
    else
      var relativeStrength := avgGain / avgLoss;
      if 1.0 + relativeStrength == 0.0 then 0.0  // ZeroDivisionError; see RsiReadingInRange
      else 100.0 - 100.0 / (1.0 + relativeStrength)
  }

  function RsiUpdate(s: RsiState, value: real): (RsiState, Option<IndicatorValue>) {
    if s.previousClose.None? then (s.(previousClose := Some(value)), None)
    else
      var change := value - s.previousClose.value;
      var gain, loss := EmaNext(s.gain, Positive(change)), EmaNext(s.loss, Positive(-change));
      (RsiState(Some(value), gain, loss),
       if gain.ema.None? || loss.ema.None? then None else Some(Scalar(RsiFrom(gain.ema.value, loss.ema.value))))
  }

  function RsiPeek(s: RsiState, value: real): Option<IndicatorValue> {
    if s.previousClose.None? then None
    else
      var change := value - s.previousClose.value;
      var gain, loss := EmaPeek(s.gain, Positive(change)), EmaPeek(s.loss, Positive(-change));
      if gain.None? || loss.None? then None else Some(Scalar(RsiFrom(gain.value, loss.value)))
  }

  // ---------------------------------------------------------------- rolling windows

  /** `deque(maxlen=period).append`. */
  function Append(s: WindowState, value: real): WindowState {
    var grown := s.values + [value];
    s.(values := if |grown| > s.period then grown[1..] else grown)
  }

  function PeekWindow(s: WindowState, value: real): seq<real> {
    if |s.values| == s.period then s.values[1..] + [value] else s.values + [value]
  }

  function Weighted(xs: seq<real>): real {
    if xs == [] then 0.0 else Weighted(xs[..|xs| - 1]) + xs[|xs| - 1] * |xs| as real
  }

  function WeightTotal(n: nat): nat
    ensures n > 0 ==> WeightTotal(n) > 0
  {
    if n == 0 then 0 else WeightTotal(n - 1) + n
  }

  function Max(xs: seq<real>): real
    requires xs != []
  {
    if |xs| == 1 then xs[0]
    else var rest := Max(xs[..|xs| - 1]); if xs[|xs| - 1] > rest then xs[|xs| - 1] else rest
  }

  function Min(xs: seq<real>): real
    requires xs != []
  {
    if |xs| == 1 then xs[0]
    else var rest := Min(xs[..|xs| - 1]); if xs[|xs| - 1] < rest then xs[|xs| - 1] else rest
  }

  function WmaReading(period: Period, window: seq<real>): Option<IndicatorValue> {
    if |window| < period then None else Some(Scalar(Weighted(window) / WeightTotal(period) as real))
  }

  function LevelsReading(period: Period, window: seq<real>): Option<IndicatorValue> {
    if |window| < period then None
    else Some(Levels(Max(window), Min(window), (Max(window) + Min(window)) / 2.0))
  }

  // ---------------------------------------------------------------- the IIndicator interface

  function ScalarOf(x: Option<real>): Option<IndicatorValue> {
    if x.None? then None else Some(Scalar(x.value))
  }

  function Update(s: IndicatorState, value: real): (IndicatorState, Option<IndicatorValue>) {
    match s
    case Ema(e) => (Ema(EmaNext(e, value)), ScalarOf(EmaNext(e, value).ema))
    case Macd(m) => var (next, reading) := MacdUpdate(m, value); (Macd(next), reading)
    case Rsi(r) => var (next, reading) := RsiUpdate(r, value); (Rsi(next), reading)
    case Wma(w) => (Wma(Append(w, value)), WmaReading(w.period, Append(w, value).values))
    case SupportResistance(w) =>
      (SupportResistance(Append(w, value)), LevelsReading(w.period, Append(w, value).values))
  }

  function Peek(s: IndicatorState, value: real): Option<IndicatorValue> {
    match s
    case Ema(e) => ScalarOf(EmaPeek(e, value))
    case Macd(m) => MacdPeek(m, value)
    case Rsi(r) => RsiPeek(r, value)
    case Wma(w) => WmaReading(w.period, PeekWindow(w, value))
    case SupportResistance(w) => LevelsReading(w.period, PeekWindow(w, value))
  }

  function Feed(s: IndicatorState, xs: seq<real>): IndicatorState {
    if xs == [] then s else Update(Feed(s, xs[..|xs| - 1]), xs[|xs| - 1]).0
  }

  function EmaFeed(s: EmaState, xs: seq<real>): EmaState {
    if xs == [] then s else EmaNext(EmaFeed(s, xs[..|xs| - 1]), xs[|xs| - 1])
  }

  // ---------------------------------------------------------------- warm-up

  ghost predicate EmaFed(s: EmaState, n: nat) {
    if n < s.period then s.ema.None? && |s.seed| == n else s.ema.Some? && s.seed == []
  }

  /** `s` is what `n` committed values leave behind. */
  ghost predicate Fed(s: IndicatorState, n: nat) {
    match s
    case Ema(e) => EmaFed(e, n)
    case Macd(m) =>
      && m.fast.period < m.slow.period && EmaFed(m.fast, n) && EmaFed(m.slow, n)
      && EmaFed(m.signal, if n < m.slow.period then 0 else n - m.slow.period + 1)
    case Rsi(r) =>
      && (r.previousClose.Some? <==> n > 0) && r.gain.period == r.loss.period
      && EmaFed(r.gain, if n == 0 then 0 else n - 1) && EmaFed(r.loss, if n == 0 then 0 else n - 1)
    case Wma(w) => |w.values| == if n < w.period then n else w.period
    case SupportResistance(w) => |w.values| == if n < w.period then n else w.period
  }

  /** The number of committed values the first reading needs. */
  function WarmUp(s: IndicatorState): nat {
    match s
    case Ema(e) => e.period
    case Macd(m) => m.slow.period + m.signal.period - 1
    case Rsi(r) => r.gain.period + 1
    case Wma(w) => w.period
    case SupportResistance(w) => w.period
  }

  /** An EMA that has been fed nothing and takes in `numerator / denominator` of each move. */
  ghost predicate Unfed(s: EmaState, period: int, numerator: real, denominator: int) {
    s.period == period && s.seed == [] && s.ema.None? && s.multiplier * denominator as real == numerator
  }

  /**
   * What each constructor accepts, and that it starts unfed: an EMA takes in 2 / (period + 1) of a move or `alpha`,
   * MACD's three are such EMAs over its three periods, and RSI smooths as Wilder does, by 1 / period.
   */
  lemma NewIndicatorsAreUnfed(period: int, alpha: Option<real>, fast: int, slow: int, signal: int)
    ensures NewEma(period, alpha).Success? <==> period >= 1 && (alpha.Some? ==> 0.0 < alpha.value <= 1.0)
    ensures NewEma(period, alpha).Success? ==>
      var e := NewEma(period, alpha).value;
      && Fed(Ema(e), 0) && WarmUp(Ema(e)) == period && 0.0 < e.multiplier <= 1.0
      && (if alpha.Some? then Unfed(e, period, alpha.value, 1) else Unfed(e, period, 2.0, period + 1))
    ensures NewMacd(fast, slow, signal).Success? <==> 1 <= fast < slow && 1 <= signal
    ensures NewMacd(fast, slow, signal).Success? ==>
      var m := NewMacd(fast, slow, signal).value;
      && Fed(Macd(m), 0) && WarmUp(Macd(m)) == slow + signal - 1
      && Unfed(m.fast, fast, 2.0, fast + 1) && Unfed(m.slow, slow, 2.0, slow + 1)
      && Unfed(m.signal, signal, 2.0, signal + 1)
    ensures NewRsi(period).Success? <==> period >= 1
    ensures NewRsi(period).Success? ==>
      var r := NewRsi(period).value;
      && Fed(Rsi(r), 0) && WarmUp(Rsi(r)) == period + 1 && r.gain.multiplier == r.loss.multiplier
      && 0.0 < r.gain.multiplier <= 1.0 && r.previousClose.None?
      && Unfed(r.gain, period, 1.0, period) && Unfed(r.loss, period, 1.0, period)
    ensures NewWindow(period).Success? <==> period >= 1
    ensures NewWindow(period).Success? ==>
      var w := NewWindow(period).value;
      Fed(Wma(w), 0) && Fed(SupportResistance(w), 0) && WarmUp(Wma(w)) == WarmUp(SupportResistance(w)) == period
  {
  }

  lemma EmaOneUpdate(s: EmaState, n: nat, value: real)
    requires EmaFed(s, n)
    ensures EmaFed(EmaNext(s, value), n + 1)
    ensures EmaNext(s, value).period == s.period && EmaNext(s, value).multiplier == s.multiplier
  {
  }

  lemma MacdOneUpdate(m: MacdState, n: nat, value: real)
    requires Fed(Macd(m), n)
    ensures var (next, reading) := MacdUpdate(m, value);
      Fed(Macd(next), n + 1) && WarmUp(Macd(next)) == WarmUp(Macd(m)) && (reading.Some? <==> n + 1 >= WarmUp(Macd(m)))
  {
    EmaOneUpdate(m.fast, n, value);
    EmaOneUpdate(m.slow, n, value);
    if n + 1 >= m.slow.period {
      var line := EmaNext(m.fast, value).ema.value - EmaNext(m.slow, value).ema.value;
      EmaOneUpdate(m.signal, n + 1 - m.slow.period, line);
    }
    hide EmaNext;
  }

  lemma RsiOneUpdate(r: RsiState, n: nat, value: real)
    requires Fed(Rsi(r), n)
    ensures var (next, reading) := RsiUpdate(r, value);
      Fed(Rsi(next), n + 1) && WarmUp(Rsi(next)) == WarmUp(Rsi(r)) && (reading.Some? <==> n + 1 >= WarmUp(Rsi(r)))
  {
    if n > 0 {
      EmaOneUpdate(r.gain, n - 1, Positive(value - r.previousClose.value));
      EmaOneUpdate(r.loss, n - 1, Positive(-(value - r.previousClose.value)));
    }
    hide EmaNext;
  }

  /** One committed value: a reading appears exactly at the warm-up count and never goes away. */
  lemma OneUpdate(s: IndicatorState, n: nat, value: real)
    requires Fed(s, n)
    ensures var (next, reading) := Update(s, value);
      Fed(next, n + 1) && WarmUp(next) == WarmUp(s) && (reading.Some? <==> n + 1 >= WarmUp(s))
  {
    hide EmaNext, MacdUpdate, RsiUpdate;
    match s
    case Ema(e) => EmaOneUpdate(e, n, value);
    case Macd(m) => MacdOneUpdate(m, n, value);
    case Rsi(r) => RsiOneUpdate(r, n, value);
    case Wma(w) =>
    case SupportResistance(w) =>
  }

  lemma {:induction false} FeedCounts(s: IndicatorState, xs: seq<real>)
    requires Fed(s, 0)
    ensures Fed(Feed(s, xs), |xs|) && WarmUp(Feed(s, xs)) == WarmUp(s)
  {
    if xs != [] {
      FeedCounts(s, xs[..|xs| - 1]);
      OneUpdate(Feed(s, xs[..|xs| - 1]), |xs| - 1, xs[|xs| - 1]);
    }
  }

  /** EMA(p), WMA(p) and SupportResistance(p) first read at update p, RSI(p) at p + 1, MACD at slow + signal - 1. */
  lemma WarmUpIsExact(s: IndicatorState, xs: seq<real>, value: real)
    requires Fed(s, 0)
    ensures Update(Feed(s, xs), value).1.Some? <==> |xs| + 1 >= WarmUp(s)
  {
    FeedCounts(s, xs);
    OneUpdate(Feed(s, xs), |xs|, value);
  }

  lemma EmaPeekPredicts(s: EmaState, n: nat, value: real)
    requires EmaFed(s, n)
    ensures EmaPeek(s, value).Some? <==> n >= s.period
    ensures EmaNext(s, value).ema.Some? <==> n + 1 >= s.period
    ensures EmaPeek(s, value).Some? ==> EmaPeek(s, value) == EmaNext(s, value).ema
  {
  }

  lemma MacdPeekPredicts(s: MacdState, n: nat, value: real)
    requires Fed(Macd(s), n)
    ensures MacdPeek(s, value).Some? <==> n >= s.slow.period + s.signal.period - 1
    ensures MacdPeek(s, value).Some? ==> MacdPeek(s, value) == MacdUpdate(s, value).1
  {
    EmaPeekPredicts(s.fast, n, value);
    EmaPeekPredicts(s.slow, n, value);
    if n >= s.slow.period {
      var line := EmaPeek(s.fast, value).value - EmaPeek(s.slow, value).value;
      EmaPeekPredicts(s.signal, n + 1 - s.slow.period, line);
    }
  }

  lemma RsiPeekPredicts(s: RsiState, n: nat, value: real)
    requires Fed(Rsi(s), n)
    ensures RsiPeek(s, value).Some? <==> n >= s.gain.period + 1
    ensures RsiPeek(s, value).Some? ==> RsiPeek(s, value) == RsiUpdate(s, value).1
  {
    if n > 0 {
      EmaPeekPredicts(s.gain, n - 1, Positive(value - s.previousClose.value));
      EmaPeekPredicts(s.loss, n - 1, Positive(-(value - s.previousClose.value)));
    }
  }

  /**
   * A tentative reading is the reading the same value would commit, with one exception:
   * the update that completes a seed reads a value nothing could peek.
   */
  lemma PeekPredictsUpdate(s: IndicatorState, n: nat, value: real)
    requires Fed(s, n)
    ensures Peek(s, value).Some? ==> Peek(s, value) == Update(s, value).1
    ensures Peek(s, value) == Update(s, value).1
       <==> n + 1 != WarmUp(s) || s.Wma? || s.SupportResistance?
  {
    OneUpdate(s, n, value);
    match s
    case Ema(e) => EmaPeekPredicts(e, n, value);
    case Macd(m) => MacdPeekPredicts(m, n, value);
    case Rsi(r) => RsiPeekPredicts(r, n, value);
    case Wma(w) => assert PeekWindow(w, value) == Append(w, value).values;
    case SupportResistance(w) => assert PeekWindow(w, value) == Append(w, value).values;
  }
}
