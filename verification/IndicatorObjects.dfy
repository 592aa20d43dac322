/** The indicator classes: each method is tied to the value-level step of module Indicators. */
module IndicatorObjects {
  import opened Prelude
  import opened Indicators

  class EMA {
    const period: Period
    const multiplier: real
    var seedValues: seq<real>
    var ema: Option<real>

    function View(): EmaState
      reads this
    {
      EmaState(period, multiplier, seedValues, ema)
    }

    constructor (start: EmaState)
      ensures View() == start
    {
      period, multiplier, seedValues, ema := start.period, start.multiplier, start.seed, start.ema;
    }

    static method Make(period: int, alpha: Option<real>) returns (r: Result<EMA>)
      ensures r.Success? <==> NewEma(period, alpha).Success?
      ensures r.Success? ==> fresh(r.value) && r.value.View() == NewEma(period, alpha).value
      ensures r.Success? ==> r.value.period == period && r.value.seedValues == [] && r.value.ema == None
      ensures r.Success? && alpha.None? ==> r.value.multiplier * (period + 1) as real == 2.0
      ensures r.Success? && alpha.Some? ==> r.value.multiplier == alpha.value
    {
      match NewEma(period, alpha)
      case Failure(error) => return Failure(error);
      case Success(start) =>
        var e := new EMA(start);
        return Success(e);
    }

    method Update(value: real) returns (reading: Option<real>)
      modifies this
      ensures View() == EmaNext(old(View()), value) && reading == View().ema
      ensures old(ema).Some? ==>
                reading.Some? && reading.value - old(ema).value == multiplier * (value - old(ema).value)
      ensures old(ema).None? ==> (reading.Some? <==> |old(seedValues)| + 1 >= period)
      ensures old(ema).None? && reading.Some? ==> reading.value * period as real == Sum(old(seedValues) + [value])
    {
      if ema.None? {
        seedValues := seedValues + [value];
        if |seedValues| < period {
          return None;
        }
        ema := Some(Sum(seedValues) / period as real);
        seedValues := [];
        return ema;
      }
      ema := Some(Smoothed(View(), value));
      return ema;
    }

    method PeekProvisional(value: real) returns (reading: Option<real>)
      ensures reading == EmaPeek(View(), value)
    {
      if ema.None? {
        return None;
      }
      return Some(Smoothed(View(), value));
    }
  }

  class MACD {
    const fastEma: EMA
    const slowEma: EMA
    const signalEma: EMA

    ghost const Repr: set<object> := {this, fastEma, slowEma, signalEma}

    ghost predicate Valid() {
      fastEma != slowEma && slowEma != signalEma && fastEma != signalEma
    }

    function View(): MacdState
      reads fastEma, slowEma, signalEma
    {
      MacdState(fastEma.View(), slowEma.View(), signalEma.View())
    }

    constructor (start: MacdState)
      ensures Valid() && View() == start && fresh(Repr)
    {
      fastEma := new EMA(start.fast);
      slowEma := new EMA(start.slow);
      signalEma := new EMA(start.signal);
    }

    static method Make(fastPeriod: int, slowPeriod: int, signalPeriod: int) returns (r: Result<MACD>)
      ensures r.Success? <==> NewMacd(fastPeriod, slowPeriod, signalPeriod).Success?
      ensures r.Success? ==> fresh(r.value.Repr) && r.value.Valid()
      ensures r.Success? ==> r.value.View() == NewMacd(fastPeriod, slowPeriod, signalPeriod).value
    {
      match NewMacd(fastPeriod, slowPeriod, signalPeriod)
      case Failure(error) => return Failure(error);
      case Success(start) =>
        var m := new MACD(start);
        return Success(m);
    }

    method Update(value: real) returns (reading: Option<IndicatorValue>)
      requires Valid()
      modifies fastEma, slowEma, signalEma
      ensures (View(), reading) == MacdUpdate(old(View()), value)
    {
      var fast := fastEma.Update(value);
      var slow := slowEma.Update(value);
      if fast.None? || slow.None? {
        return None;
      }
      var signal := signalEma.Update(fast.value - slow.value);
      if signal.None? {
        return None;
      }
      return Some(MacdReading(fast.value, slow.value, signal.value));
    }

    method PeekProvisional(value: real) returns (reading: Option<IndicatorValue>)
      ensures reading == MacdPeek(View(), value)
    {
      var fast := fastEma.PeekProvisional(value);
      var slow := slowEma.PeekProvisional(value);
      if fast.None? || slow.None? {
        return None;
      }
      var signal := signalEma.PeekProvisional(fast.value - slow.value);
      if signal.None? {
        return None;
      }
      return Some(MacdReading(fast.value, slow.value, signal.value));
    }
  }

  class RSI {
    var previousClose: Option<real>
    const gainSmoother: EMA
    const lossSmoother: EMA

    ghost const Repr: set<object> := {this, gainSmoother, lossSmoother}

    ghost predicate Valid() {
      gainSmoother != lossSmoother
    }

    function View(): RsiState
      reads this, gainSmoother, lossSmoother
    {
      RsiState(previousClose, gainSmoother.View(), lossSmoother.View())
    }

    constructor (start: RsiState)
      ensures Valid() && View() == start && fresh(Repr)
    {
      previousClose := start.previousClose;
      gainSmoother := new EMA(start.gain);
      lossSmoother := new EMA(start.loss);
    }

    static method Make(period: int) returns (r: Result<RSI>)
      ensures r.Success? <==> NewRsi(period).Success?
      ensures r.Success? ==> fresh(r.value.Repr) && r.value.Valid() && r.value.View() == NewRsi(period).value
    {
      match NewRsi(period)
      case Failure(error) => return Failure(error);
      case Success(start) =>
        var rsi := new RSI(start);
        return Success(rsi);
    }

    method Update(value: real) returns (reading: Option<IndicatorValue>)
      requires Valid()
      modifies this, gainSmoother, lossSmoother
      ensures (View(), reading) == RsiUpdate(old(View()), value)
    {
      if previousClose.None? {
        previousClose := Some(value);
        return None;
      }
      var change := value - previousClose.value;
      previousClose := Some(value);
      var avgGain := gainSmoother.Update(Positive(change));
      var avgLoss := lossSmoother.Update(Positive(-change));
      if avgGain.None? || avgLoss.None? {
        return None;
      }
      return Some(Scalar(RsiFrom(avgGain.value, avgLoss.value)));
    }

    method PeekProvisional(value: real) returns (reading: Option<IndicatorValue>)
      ensures reading == RsiPeek(View(), value)
    {
      if previousClose.None? {
        return None;
      }
      var change := value - previousClose.value;
      var avgGain := gainSmoother.PeekProvisional(Positive(change));
      var avgLoss := lossSmoother.PeekProvisional(Positive(-change));
      if avgGain.None? || avgLoss.None? {
        return None;
      }
      return Some(Scalar(RsiFrom(avgGain.value, avgLoss.value)));
    }
  }

  /** The `deque(maxlen=period)` both WMA and SupportResistance own. */
  class RollingWindow {
    const period: Period
    var values: seq<real>

    function View(): WindowState
      reads this
    {
      WindowState(period, values)
    }

    constructor (start: WindowState)
      ensures View() == start
    {
      period, values := start.period, start.values;
    }

    static method Make(period: int) returns (r: Result<RollingWindow>)
      ensures r.Success? <==> NewWindow(period).Success?
      ensures r.Success? ==> fresh(r.value) && r.value.View() == NewWindow(period).value
    {
      match NewWindow(period)
      case Failure(error) => return Failure(error);
      case Success(start) =>
        var w := new RollingWindow(start);
        return Success(w);
    }

    method Push(value: real)
      modifies this`values
      ensures View() == Append(old(View()), value)
    {
      values := values + [value];
      if |values| > period {
        values := values[1..];
      }
    }
  }

  /** An `IIndicator`: dynamic dispatch over the concrete classes. */
  datatype IndicatorRef =
    | EmaRef(ema: EMA)
    | MacdRef(macd: MACD)
    | RsiRef(rsi: RSI)
    | WmaRef(wma: RollingWindow)
    | SupportResistanceRef(levels: RollingWindow)
  {
    ghost function Repr(): set<object> {
      match this
      case EmaRef(e) => {e}
      case MacdRef(m) => m.Repr
      case RsiRef(r) => r.Repr
      case WmaRef(w) => {w}
      case SupportResistanceRef(w) => {w}
    }

    ghost predicate Valid() {
      match this
      case MacdRef(m) => m.Valid()
      case RsiRef(r) => r.Valid()
      case _ => true
    }

    ghost function View(): IndicatorState
      reads Repr()
    {
      match this
      case EmaRef(e) => Ema(e.View())
      case MacdRef(m) => Macd(m.View())
      case RsiRef(r) => Rsi(r.View())
      case WmaRef(w) => Wma(w.View())
      case SupportResistanceRef(w) => SupportResistance(w.View())
    }

    method Update(value: real) returns (reading: Option<IndicatorValue>)
      requires Valid()
      modifies Repr()
      ensures (View(), reading) == Indicators.Update(old(View()), value)
    {
      match this
      case EmaRef(e) =>
        var r := e.Update(value);
        reading := ScalarOf(r);
      case MacdRef(m) => reading := m.Update(value);
      case RsiRef(r) => reading := r.Update(value);
      case WmaRef(w) =>
        w.Push(value);
        reading := WmaReading(w.period, w.values);
      case SupportResistanceRef(w) =>
        w.Push(value);
        reading := LevelsReading(w.period, w.values);
    }

    method PeekProvisional(value: real) returns (reading: Option<IndicatorValue>)
      ensures reading == Peek(View(), value)
    {
      match this
      case EmaRef(e) =>
        var r := e.PeekProvisional(value);
        reading := ScalarOf(r);
      case MacdRef(m) => reading := m.PeekProvisional(value);
      case RsiRef(r) => reading := r.PeekProvisional(value);
      case WmaRef(w) => reading := WmaReading(w.period, PeekWindow(w.View(), value));
      case SupportResistanceRef(w) => reading := LevelsReading(w.period, PeekWindow(w.View(), value));
    }
  }
}
