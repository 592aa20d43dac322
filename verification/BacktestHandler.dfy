/** The static backtest's loop over its engine and exchange objects. */
module BacktestHandler {
  import opened Prelude
  import opened Market
  import opened Engine
  import opened StrategyEngines
  import opened BrokerPolicies
  import opened PaperExchange
  import Exchange = PaperExchange
  import opened PaperLedger
  import opened BacktestMetrics
  import opened BacktestRun

  datatype BacktestResult = BacktestResult(
    initialBalance: real,
    finalBalance: real,
    trades: seq<Trade>,
    equityCurve: seq<EquityPoint>,
    metrics: Metrics)

  /** How a run ends: its result, a cancellation before some bar, or the error of a stream without bars. */
  datatype Outcome =
    | Completed(result: BacktestResult)
    | BacktestCancelled(processedBars: nat)
    | NoBars

  function Equities(curve: seq<EquityPoint>): seq<real> {
    seq(|curve|, i requires 0 <= i < |curve| => curve[i].equity)
  }

  /** A fresh engine and exchange, before the first bar. */
  ghost function StartOf(engine: StrategyEngine, exchange: PaperExchange): Backtest
    requires engine.Separate()
    reads engine, engine.strategy, engine.IndicatorRepr, exchange
  {
    Backtest(engine.View(), exchange.View(), None, [])
  }

  /** The exchange shares no object with the engine. */
  ghost predicate Apart(engine: StrategyEngine, exchange: PaperExchange) {
    && exchange as object !in engine.IndicatorRepr && exchange as object != engine.strategy as object
    && exchange as object != engine as object
  }

  /** A result reports the final close of a run, the run's curve, and the metrics of exactly those. */
  ghost predicate ReportsEnd(ran: Backtest, last: Candle, r: BacktestResult)
    requires ran.Ready()
  {
    var end := Finished(ran, last);
    && r.initialBalance == end.initialBalance && r.finalBalance == end.balance
    && r.trades == end.trades && r.equityCurve == ran.curve
    && r.metrics.netProfit == Pnls(end.trades) && r.metrics.totalFeesPaid == Fees(end.trades)
    && IsMaxDrawdown(Equities(ran.curve), r.metrics.maxDrawdownPercent)
    && IsLongestRun(BelowPeak(Equities(ran.curve)), r.metrics.maxDrawdownDurationBars)
    && IsLongestRun(Wins(end.trades), r.metrics.maxConsecutiveWins)
    && IsLongestRun(Losses(end.trades), r.metrics.maxConsecutiveLosses)
  }

  /** A completed run reports all of its bars. */
  ghost predicate Reports(start: Backtest, candles: seq<Candle>, r: BacktestResult)
    requires start.Ready()
  {
    candles != [] && ReportsEnd(Simulated(start, candles), candles[|candles| - 1], r)
  }

  lemma ReportsOf(start: Backtest, candles: seq<Candle>, r: BacktestResult)
    requires start.Ready() && candles != [] && ReportsEnd(Simulated(start, candles), candles[|candles| - 1], r)
    ensures Reports(start, candles, r)
  {
    hide ReportsEnd, Simulated;
  }

  /** The first bar before which a cancellation was seen. */
  ghost predicate FirstCancelled(cancelled: nat -> bool, i: nat) {
    cancelled(i) && forall j: nat :: j < i ==> !cancelled(j)
  }

  /**
   * A run stops at the first cancellation, with the account as of that bar; else it reports every bar, if
   * there is one.
   */
  ghost predicate Ended(start: Backtest, candles: seq<Candle>, cancelled: nat -> bool, outcome: Outcome,
                        account: Account)
    requires start.Ready()
  {
    match outcome
    case BacktestCancelled(i) =>
      i < |candles| && FirstCancelled(cancelled, i) && account == Simulated(start, candles[..i]).account
    case NoBars => candles == []
    case Completed(r) => (forall i: nat :: i < |candles| ==> !cancelled(i)) && Reports(start, candles, r)
  }

  /** The loop's body: pending signal at the open, stops in the range, the strategy on the close, one equity point. */
  method SimulateBar(engine: StrategyEngine, exchange: PaperExchange, pending: Option<Signal>, candle: Candle,
                     ghost b: Backtest)
    returns (signal: Option<Signal>, point: EquityPoint)
    requires engine.Valid() && ValidConfig(exchange.config) && Apart(engine, exchange)
    requires b.Ready() && b.engine == engine.View() && b.account == exchange.View() && b.pending == pending
    modifies engine`published, engine.strategy, engine.IndicatorRepr
    modifies exchange`balance, exchange`positions, exchange`trades
    ensures engine.Valid()
    ensures Backtest(engine.View(), exchange.View(), signal, b.curve + [point]) == AfterBar(b, candle)
  {
    hide OnTick, Exchange.Next, AfterBar, Equity;
    BarInParts(b, candle);
    if pending.Some? {
      var trade := exchange.Fill(pending.value, candle.open, candle.openTime);
    }
    assert exchange.View() == FilledAtOpen(b, candle);
    var stopped := exchange.CheckIntrabarStops(candle.high, candle.low, candle.closeTime);
    assert exchange.View() == StoppedInBar(b, candle);
    var side := if exchange.positions == [] then None else Some(exchange.positions[0].side);
    signal := engine.OnTick(candle, side);
    var equity := exchange.CalculateEquity(candle.close);
    point := EquityPoint(candle.closeTime, equity);
  }

  /** The final close and the result. */
  method Finish(exchange: PaperExchange, last: Candle, curve: seq<EquityPoint>, ghost ran: Backtest)
    returns (r: BacktestResult)
    requires ValidConfig(exchange.config) && ran.Ready() && ran.account == exchange.View() && ran.curve == curve
    modifies exchange`balance, exchange`positions, exchange`trades
    ensures exchange.View() == Finished(ran, last)
    ensures ReportsEnd(ran, last, r)
  {
    hide Exchange.Next, IsMaxDrawdown, IsLongestRun, BelowPeak, Wins, Losses, Pnls, Fees;
    var closed := exchange.ForceClose(last.close, last.closeTime);
    var metrics := Compute(exchange.trades, Equities(curve), exchange.initialBalance);
    r := BacktestResult(exchange.initialBalance, exchange.balance, exchange.trades, curve, metrics);
  }

  /** `_simulate`, over an engine and an exchange just built; `cancelled` answers the check before each bar. */
  method Simulate(engine: StrategyEngine, exchange: PaperExchange, candles: seq<Candle>, cancelled: nat -> bool)
    returns (outcome: Outcome)
    requires engine.Valid() && ValidConfig(exchange.config) && Apart(engine, exchange)
    requires StartOf(engine, exchange).Ready()
    modifies engine`published, engine.strategy, engine.IndicatorRepr
    modifies exchange`balance, exchange`positions, exchange`trades
    ensures Ended(old(StartOf(engine, exchange)), candles, cancelled, outcome, exchange.View())
  {
    hide AfterBar, Simulated, OnTick, Exchange.Next, Reports;
    ghost var start := StartOf(engine, exchange);
    var pending: Option<Signal>, curve: seq<EquityPoint> := None, [];
    NothingSimulated(start, candles[..0]);
    for i := 0 to |candles|
      invariant engine.Valid()
      invariant Backtest(engine.View(), exchange.View(), pending, curve) == Simulated(start, candles[..i])
      invariant forall j: nat :: j < i ==> !cancelled(j)
    {
      if cancelled(i) {
        return BacktestCancelled(i);
      }
      SimulatedLonger(start, candles, i);
      var point;
      pending, point := SimulateBar(engine, exchange, pending, candles[i], Simulated(start, candles[..i]));
      curve := curve + [point];
    }
    assert candles[..|candles|] == candles;
    if candles == [] {
      return NoBars;
    }
    var result := Finish(exchange, candles[|candles| - 1], curve, Simulated(start, candles));
    ReportsOf(start, candles, result);
    return Completed(result);
  }

  /**
   * A completed backtest reports one equity point per bar, the account after it marked at its close, measures exactly
   * those equities, and as net profit reports exactly the cash it ended with more.
   */
  lemma ReportedProfitIsCash(start: Backtest, candles: seq<Candle>, r: BacktestResult)
    requires start.Ready() && Ledger(start.account) && start.curve == [] && Reports(start, candles, r)
    ensures |r.equityCurve| == |candles| == |Equities(r.equityCurve)|
    ensures forall i :: 0 <= i < |candles| ==> PointOf(start, candles, i) == r.equityCurve[i]
    ensures forall i :: 0 <= i < |candles| ==> PointOf(start, candles, i).equity == Equities(r.equityCurve)[i]
    ensures r.metrics.netProfit == r.finalBalance - r.initialBalance
  {
    hide Simulated, IsMaxDrawdown, IsLongestRun, Ledger, PointOf;
    OneEquityPointPerBar(start, candles);
    FinishedBooks(start, candles);
    var last := candles[|candles| - 1];
    NextAppends(Simulated(start, candles).account, ForceClose(last.close, last.closeTime));
    hide Exchange.Next;
  }
}
