/** A static backtest: the engine and the exchange, coupled bar by bar. */
module BacktestRun {
  import opened Prelude
  import opened Market
  import opened Indicators
  import opened Strategies
  import opened StrategyProofs
  import opened Engine
  import opened EngineReadings
  import opened HistorySignals
  import opened BrokerPolicies
  import opened PaperExchange
  import Exchange = PaperExchange
  import opened PaperLedger
  import opened EntrySizing

  datatype EquityPoint = EquityPoint(time: int, equity: real)

  /** The state between two bars; `pending` waits for the next bar's open. */
  datatype Backtest = Backtest(engine: EngineState, account: Account, pending: Option<Signal>,
                               curve: seq<EquityPoint>) {
    ghost predicate Ready() {
      Wired(engine.params, engine.indicators) && account.config.commissionValue >= 0.0
    }
  }

  /** The side every open position shares, or None when flat. */
  function CurrentSide(a: Account): Option<PositionSide> {
    if a.positions == [] then None else Some(a.positions[0].side)
  }

  // ---------------------------------------------------------------- one bar

  /** The pending signal is filled at this bar's open. */
  function FilledAtOpen(b: Backtest, candle: Candle): (a: Account)
    requires b.Ready()
    ensures a.config == b.account.config
  {
    if b.pending.None? then b.account
    else
      var step := Exchange.Step.Fill(b.pending.value, candle.open, candle.openTime);
      NextKeepsConfig(b.account, step);
      Exchange.Next(b.account, step)
  }

  /** Then the stops are held against the bar's range. */
  function StoppedInBar(b: Backtest, candle: Candle): (a: Account)
    requires b.Ready()
    ensures a.config == b.account.config
  {
    var step := CheckStops(candle.high, candle.low, candle.closeTime);
    NextKeepsConfig(FilledAtOpen(b, candle), step);
    Exchange.Next(FilledAtOpen(b, candle), step)
  }

  /** Then the strategy sees the closed bar and the side it holds; its signal waits for the next open. */
  function AfterBar(b: Backtest, candle: Candle): (after: Backtest)
    requires b.Ready()
    ensures after.Ready() && after.account.config == b.account.config && after.engine.params == b.engine.params
  {
    var account := StoppedInBar(b, candle);
    var (engine, signal) := OnTick(b.engine, candle, CurrentSide(account));
    StaysWired(b.engine.params, b.engine.indicators, candle.close);
    Backtest(engine, account, signal, b.curve + [EquityPoint(candle.closeTime, Equity(account, candle.close))])
  }

  function Simulated(b: Backtest, candles: seq<Candle>): (after: Backtest)
    requires b.Ready()
    ensures after.Ready() && after.account.config == b.account.config && after.engine.params == b.engine.params
  {
    if candles == [] then b else AfterBar(Simulated(b, candles[..|candles| - 1]), candles[|candles| - 1])
  }

  /** What `on_tick` returned on bar `i`. */
  function SignalAt(b: Backtest, candles: seq<Candle>, i: nat): Option<Signal>
    requires b.Ready() && i < |candles|
  {
    Simulated(b, candles[..i + 1]).pending
  }

  lemma SimulatedLonger(b: Backtest, candles: seq<Candle>, i: nat)
    requires b.Ready() && i < |candles|
    ensures Simulated(b, candles[..i + 1]) == AfterBar(Simulated(b, candles[..i]), candles[i])
  {
    hide AfterBar;
    assert candles[..i + 1][..i] == candles[..i];
  }

  // ---------------------------------------------------------------- no look-ahead

  lemma OpeningAppends(a: Account, side: PositionSide, price: real, time: int, reason: string)
    requires a.config.commissionValue >= 0.0
    ensures Opened(a, side, price, time, reason).trades == a.trades
  {
    hide EntryCapital, Equity;
  }

  lemma RetiringAppends(a: Account, rule: ExitRule, time: int)
    ensures a.trades <= Retired(a, rule, time).trades
  {
    hide Triggered, StillOpen;
    SettledKeeps(a.(positions := StillOpen(a.positions, rule)), Triggered(a.positions, rule), time);
    hide Settled;
  }

  /** No call of the exchange takes back a trade. */
  lemma NextAppends(a: Account, step: Exchange.Step)
    requires Ledger(a) && a.config.commissionValue >= 0.0
    ensures var next := Exchange.Next(a, step);
      Ledger(next) && next.initialBalance == a.initialBalance && a.trades <= next.trades
  {
    hide Ledger, Opened, Retired;
    NextKeepsLedger(a, step);
    match step
    case Fill(signal, price, time) =>
      OpeningAppends(a, Long, price, time, signal.reason);
      OpeningAppends(a, Short, price, time, signal.reason);
      RetiringAppends(a, SideRule(Long, ExitPrice(a.config, Long, price), StrategySignal), time);
      RetiringAppends(a, SideRule(Short, ExitPrice(a.config, Short, price), StrategySignal), time);
    case CheckStops(high, low, time) =>
      RetiringAppends(a, StopRule(high, low), time);
    case ForceClose(price, time) =>
      RetiringAppends(a, SideRule(Long, ExitPrice(a.config, Long, price), EndOfBacktest), time);
      var b := Closed(a, Long, price, time, EndOfBacktest);
      RetiringAppends(b, SideRule(Short, ExitPrice(b.config, Short, price), EndOfBacktest), time);
  }

  lemma BarAppends(b: Backtest, candle: Candle)
    requires b.Ready() && Ledger(b.account)
    ensures var after := AfterBar(b, candle);
      && Ledger(after.account) && b.account.trades <= after.account.trades
      && after.account.initialBalance == b.account.initialBalance
      && after.curve == b.curve + [EquityPoint(candle.closeTime, Equity(after.account, candle.close))]
  {
    hide Ledger, OnTick, Wired;
    if b.pending.Some? {
      NextAppends(b.account, Exchange.Step.Fill(b.pending.value, candle.open, candle.openTime));
    }
    NextAppends(FilledAtOpen(b, candle), CheckStops(candle.high, candle.low, candle.closeTime));
    hide Exchange.Next;
  }

  lemma NothingSimulated(b: Backtest, candles: seq<Candle>)
    requires b.Ready()
    ensures candles == [] ==> Simulated(b, candles) == b
  {
  }

  lemma SimulatedStep(b: Backtest, candles: seq<Candle>)
    requires b.Ready() && candles != []
    ensures Simulated(b, candles) == AfterBar(Simulated(b, candles[..|candles| - 1]), candles[|candles| - 1])
  {
    hide AfterBar;
  }

  /** The account after bar `i`, marked at that bar's close. */
  function PointOf(b: Backtest, candles: seq<Candle>, i: nat): EquityPoint
    requires b.Ready() && i < |candles|
  {
    EquityPoint(candles[i].closeTime, Equity(Simulated(b, candles[..i + 1]).account, candles[i].close))
  }

  lemma EarlierPoint(b: Backtest, candles: seq<Candle>, i: nat)
    requires b.Ready() && i < |candles| - 1
    ensures PointOf(b, candles, i) == PointOf(b, candles[..|candles| - 1], i)
  {
    hide Simulated;
    assert candles[..|candles| - 1][..i + 1] == candles[..i + 1];
  }

  lemma NewestPoint(b: Backtest, candles: seq<Candle>)
    requires b.Ready() && candles != []
    ensures var last := candles[|candles| - 1];
      PointOf(b, candles, |candles| - 1)
        == EquityPoint(last.closeTime, Equity(Simulated(b, candles).account, last.close))
  {
    hide Simulated;
    assert candles[..|candles| - 1 + 1] == candles;
  }

  /** Bar after bar the ledger holds, and each bar adds exactly one equity point: its own close's. */
  lemma {:induction false} OneEquityPointPerBar(b: Backtest, candles: seq<Candle>)
    requires b.Ready() && Ledger(b.account)
    ensures var after := Simulated(b, candles);
      && Ledger(after.account) && after.account.initialBalance == b.account.initialBalance
      && |after.curve| == |b.curve| + |candles| && b.curve <= after.curve
      && forall i :: 0 <= i < |candles| ==> PointOf(b, candles, i) == after.curve[|b.curve| + i]
  {
    hide AfterBar, Ledger, Equity, PointOf, Simulated;
    if candles == [] {
      NothingSimulated(b, candles);
    } else {
      var before := candles[..|candles| - 1];
      OneEquityPointPerBar(b, before);
      SimulatedStep(b, candles);
      BarAppends(Simulated(b, before), candles[|candles| - 1]);
      NewestPoint(b, candles);
      forall i | 0 <= i < |candles| ensures PointOf(b, candles, i) == Simulated(b, candles).curve[|b.curve| + i] {
        if i < |before| {
          EarlierPoint(b, candles, i);
          assert PointOf(b, before, i) == Simulated(b, before).curve[|b.curve| + i];
        }
      }
    }
  }

  /** Later bars only add: the curve and the trades after `n` bars are the beginning of those after more. */
  lemma {:induction false} LaterBarsOnlyAdd(b: Backtest, candles: seq<Candle>, n: nat)
    requires b.Ready() && Ledger(b.account) && n <= |candles|
    ensures Simulated(b, candles[..n]).curve <= Simulated(b, candles).curve
    ensures Simulated(b, candles[..n]).account.trades <= Simulated(b, candles).account.trades
  {
    hide AfterBar, Ledger, Equity, Simulated;
    if n == |candles| {
      assert candles[..n] == candles;
    } else {
      var before := candles[..|candles| - 1];
      LaterBarsOnlyAdd(b, before, n);
      assert before[..n] == candles[..n];
      OneEquityPointPerBar(b, before);
      SimulatedStep(b, candles);
      BarAppends(Simulated(b, before), candles[|candles| - 1]);
    }
  }

  /**
   * No look-ahead: two histories that agree on their first `n` bars have the same account, pending signal and
   * curve after them, and whatever comes later, the same first `n` equity points and the same trades booked by then.
   */
  lemma NoLookAhead(b: Backtest, candles: seq<Candle>, others: seq<Candle>, n: nat)
    requires b.Ready() && Ledger(b.account) && n <= |candles| && n <= |others| && candles[..n] == others[..n]
    ensures var now, one, other := Simulated(b, candles[..n]), Simulated(b, candles), Simulated(b, others);
      && now == Simulated(b, others[..n])
      && |now.curve| == |b.curve| + n && now.curve <= one.curve && now.curve <= other.curve
      && now.account.trades <= one.account.trades && now.account.trades <= other.account.trades
  {
    OneEquityPointPerBar(b, candles[..n]);
    LaterBarsOnlyAdd(b, candles, n);
    LaterBarsOnlyAdd(b, others, n);
    hide Simulated, Ledger;
  }

  // ---------------------------------------------------------------- entries follow their signals

  /** The side a signal opens. */
  predicate OpensSide(action: SignalAction, side: PositionSide) {
    (action == Buy && side == Long) || (action == OpenShort && side == Short)
  }

  /** The entry was made at bar `i`'s open, slipped, on the signal of the bar before. */
  ghost predicate EnteredAt(b: Backtest, candles: seq<Candle>, i: nat, ticket: Ticket)
    requires b.Ready()
  {
    0 < i < |candles| &&
    var signal := SignalAt(b, candles, i - 1);
    && signal.Some? && OpensSide(signal.value.action, ticket.side) && ticket.reason == signal.value.reason
    && ticket.time == candles[i].openTime
    && ticket.price == Slipped(b.account.config, candles[i].open, ticket.side.Long?)
  }

  lemma FillOpensItsSignal(a: Account, signal: Signal, price: real, time: int, ticket: Ticket)
    requires Ledger(a) && a.config.commissionValue >= 0.0
    ensures var step := Exchange.Step.Fill(signal, price, time);
      Opens(a, step, Exchange.Next(a, step), ticket) ==>
        && OpensSide(signal.action, ticket.side) && ticket.reason == signal.reason && ticket.time == time
        && ticket.price == Slipped(a.config, price, ticket.side.Long?)
  {
    hide Ledger, Opened, Retired, EntryPrice, Slipped;
    PricesAreSlipped(a.config, Long, price);
    PricesAreSlipped(a.config, Short, price);
    OpeningKeepsLedger(a, Long, price, time, signal.reason);
    OpeningKeepsLedger(a, Short, price, time, signal.reason);
    RetiringMovesTickets(a, SideRule(Long, ExitPrice(a.config, Long, price), StrategySignal), time, ticket);
    RetiringMovesTickets(a, SideRule(Short, ExitPrice(a.config, Short, price), StrategySignal), time, ticket);
  }

  lemma StopsOpenNothing(a: Account, candle: Candle, ticket: Ticket)
    requires a.config.commissionValue >= 0.0
    ensures var step := CheckStops(candle.high, candle.low, candle.closeTime);
      !Opens(a, step, Exchange.Next(a, step), ticket)
  {
  }

  /** A bar makes at most the entry its pending signal asked for. */
  lemma BarEntersItsPending(b: Backtest, candle: Candle, ticket: Ticket)
    requires b.Ready() && Ledger(b.account)
    requires Count(AfterBar(b, candle).account, ticket) > Count(b.account, ticket)
    ensures b.pending.Some? && OpensSide(b.pending.value.action, ticket.side) && ticket.reason == b.pending.value.reason
    ensures ticket.time == candle.openTime
    ensures ticket.price == Slipped(b.account.config, candle.open, ticket.side.Long?)
  {
    hide Ledger, OnTick, Wired, Count, Opens, Slipped;
    var filled := FilledAtOpen(b, candle);
    if b.pending.Some? {
      var step := Exchange.Step.Fill(b.pending.value, candle.open, candle.openTime);
      NextAppends(b.account, step);
      StepMovesTickets(b.account, step, ticket);
      FillOpensItsSignal(b.account, b.pending.value, candle.open, candle.openTime, ticket);
    }
    StepMovesTickets(filled, CheckStops(candle.high, candle.low, candle.closeTime), ticket);
    StopsOpenNothing(filled, candle, ticket);
    hide Exchange.Next;
  }

  lemma EnteredEarlier(b: Backtest, candles: seq<Candle>, i: nat, ticket: Ticket)
    requires b.Ready() && candles != [] && EnteredAt(b, candles[..|candles| - 1], i, ticket)
    ensures EnteredAt(b, candles, i, ticket)
  {
    hide Simulated;
    assert candles[..|candles| - 1][..i] == candles[..i];
  }

  lemma EnteredNow(b: Backtest, candles: seq<Candle>, ticket: Ticket)
    requires b.Ready() && b.pending.None? && candles != []
    requires var pending, last := Simulated(b, candles[..|candles| - 1]).pending, candles[|candles| - 1];
      && pending.Some? && OpensSide(pending.value.action, ticket.side) && ticket.reason == pending.value.reason
      && ticket.time == last.openTime && ticket.price == Slipped(b.account.config, last.open, ticket.side.Long?)
    ensures EnteredAt(b, candles, |candles| - 1, ticket)
  {
    var n := |candles| - 1;
    NothingSimulated(b, candles[..n]);
    hide Simulated;
    assert n > 0 ==> candles[..n - 1 + 1] == candles[..n];
  }

  /**
   * Every entry of a backtest, still open or already a trade, was made at the open of the bar after the one that
   * signalled it, at that open slipped, on that signal's side and with its reason.
   */
  lemma {:induction false} EntriesFollowTheirSignals(b: Backtest, candles: seq<Candle>, ticket: Ticket)
    requires b.Ready() && Ledger(b.account) && b.pending.None? && Count(b.account, ticket) == 0
    requires Count(Simulated(b, candles).account, ticket) > 0
    ensures exists i :: EnteredAt(b, candles, i, ticket)
  {
    hide Count, AfterBar, Ledger, EnteredAt, Simulated;
    if candles == [] {
      NothingSimulated(b, candles);
    } else {
      var before, last := candles[..|candles| - 1], candles[|candles| - 1];
      SimulatedStep(b, candles);
      OneEquityPointPerBar(b, before);
      if Count(Simulated(b, before).account, ticket) > 0 {
        EntriesFollowTheirSignals(b, before, ticket);
        var i :| EnteredAt(b, before, i, ticket);
        EnteredEarlier(b, candles, i, ticket);
      } else {
        BarEntersItsPending(Simulated(b, before), last, ticket);
        EnteredNow(b, candles, ticket);
      }
    }
  }

  // ---------------------------------------------------------------- exits are explained

  predicate ClosesSide(action: SignalAction, side: PositionSide) {
    (action == Sell && side == Long) || (action == Cover && side == Short)
  }

  /** A signal's exit, at an open slipped. */
  predicate ExitsOnSignal(c: Config, signal: Signal, candle: Candle, t: Trade) {
    && t.exitReason == StrategySignal && ClosesSide(signal.action, t.side)
    && t.exitTime == candle.openTime && t.exitPrice == Slipped(c, candle.open, t.side.Short?)
  }

  /** A stop or a target's exit, at a level the bar reached. */
  predicate ExitsInRange(candle: Candle, t: Trade) {
    && t.exitTime == candle.closeTime
    && match t.exitReason
       case StopLoss => if t.side.Long? then candle.low <= t.exitPrice else candle.high >= t.exitPrice
       case TakeProfit => if t.side.Long? then candle.high >= t.exitPrice else candle.low <= t.exitPrice
       case _ => false
  }

  lemma {:induction false} TradeOfClosing(c: Config, closings: seq<Closing>, time: int, t: Trade)
    requires t in TradesOf(c, closings, time)
    ensures exists closing :: closing in closings && t == TradeOf(c, closing, time)
  {
    hide TradeOf;
    var last := closings[|closings| - 1];
    if t != TradeOf(c, last, time) {
      TradeOfClosing(c, closings[..|closings| - 1], time, t);
    } else {
      assert last in closings;
    }
  }

  /** What retiring by a rule books, besides what was booked before. */
  lemma RetiredTrade(a: Account, rule: ExitRule, time: int, t: Trade)
    requires Ledger(a) && t in Retired(a, rule, time).trades && t !in a.trades
    ensures exists p :: p in a.positions && rule(p).Some? && t == TradeOf(a.config, Closing(p, rule(p).value), time)
  {
    hide Ledger, Retired, Triggered, TradesOf, TradeOf;
    RetiringKeepsLedger(a, rule, time);
    TradeOfClosing(a.config, Triggered(a.positions, rule), time, t);
    SplitFollowsRule(a.positions, rule);
    var closing :| closing in Triggered(a.positions, rule) && t == TradeOf(a.config, closing, time);
    assert closing == Closing(closing.position, rule(closing.position).value);
  }

  lemma FillBooks(a: Account, signal: Signal, candle: Candle, t: Trade)
    requires Ledger(a) && a.config.commissionValue >= 0.0
    requires t in Exchange.Next(a, Exchange.Step.Fill(signal, candle.open, candle.openTime)).trades && t !in a.trades
    ensures ExitsOnSignal(a.config, signal, candle, t)
  {
    hide Ledger, Opened, Retired, ExitPrice, Slipped, RealizedAt, FeeAt;
    PricesAreSlipped(a.config, Long, candle.open);
    PricesAreSlipped(a.config, Short, candle.open);
    OpeningAppends(a, Long, candle.open, candle.openTime, signal.reason);
    OpeningAppends(a, Short, candle.open, candle.openTime, signal.reason);
    var side := if signal.action == Sell then Long else Short;
    var rule := SideRule(side, ExitPrice(a.config, side, candle.open), StrategySignal);
    if signal.action == Sell || signal.action == Cover {
      RetiredTrade(a, rule, candle.openTime, t);
    }
  }

  lemma StopsBook(a: Account, candle: Candle, t: Trade)
    requires Ledger(a) && a.config.commissionValue >= 0.0
    requires t in Exchange.Next(a, CheckStops(candle.high, candle.low, candle.closeTime)).trades && t !in a.trades
    ensures ExitsInRange(candle, t)
  {
    hide Ledger, Retired, RealizedAt, FeeAt;
    RetiredTrade(a, StopRule(candle.high, candle.low), candle.closeTime, t);
  }

  /** A bar books only what its pending signal closed at the open and what its range stopped out. */
  lemma BarBooks(b: Backtest, candle: Candle, t: Trade)
    requires b.Ready() && Ledger(b.account)
    requires t in AfterBar(b, candle).account.trades && t !in b.account.trades
    ensures (b.pending.Some? && ExitsOnSignal(b.account.config, b.pending.value, candle, t)) || ExitsInRange(candle, t)
  {
    hide Ledger, OnTick, Wired, ExitsOnSignal, ExitsInRange;
    var filled := FilledAtOpen(b, candle);
    if b.pending.Some? {
      NextAppends(b.account, Exchange.Step.Fill(b.pending.value, candle.open, candle.openTime));
    }
    if t in filled.trades {
      FillBooks(b.account, b.pending.value, candle, t);
    } else {
      StopsBook(filled, candle, t);
    }
  }

  ghost predicate ExitedAt(b: Backtest, candles: seq<Candle>, i: nat, t: Trade)
    requires b.Ready()
  {
    && i < |candles|
    && (ExitsInRange(candles[i], t)
        || (i > 0 && SignalAt(b, candles, i - 1).Some?
            && ExitsOnSignal(b.account.config, SignalAt(b, candles, i - 1).value, candles[i], t)))
  }

  lemma ExitedEarlier(b: Backtest, candles: seq<Candle>, i: nat, t: Trade)
    requires b.Ready() && candles != [] && ExitedAt(b, candles[..|candles| - 1], i, t)
    ensures ExitedAt(b, candles, i, t)
  {
    hide Simulated, ExitsInRange, ExitsOnSignal;
    assert candles[..|candles| - 1][..i] == candles[..i];
  }

  lemma ExitedNow(b: Backtest, candles: seq<Candle>, t: Trade)
    requires b.Ready() && b.pending.None? && candles != []
    requires var pending, last := Simulated(b, candles[..|candles| - 1]).pending, candles[|candles| - 1];
      (pending.Some? && ExitsOnSignal(b.account.config, pending.value, last, t)) || ExitsInRange(last, t)
    ensures ExitedAt(b, candles, |candles| - 1, t)
  {
    var n := |candles| - 1;
    NothingSimulated(b, candles[..n]);
    hide Simulated, ExitsInRange, ExitsOnSignal;
    assert n > 0 ==> candles[..n - 1 + 1] == candles[..n];
  }

  /**
   * Every trade of a backtest closed either at the open of the bar after a signal to close its side, slipped, or
   * inside a bar that reached its stop or its target, at that level.
   */
  lemma {:induction false} ExitsAreExplained(b: Backtest, candles: seq<Candle>, t: Trade)
    requires b.Ready() && Ledger(b.account) && b.pending.None?
    requires t in Simulated(b, candles).account.trades && t !in b.account.trades
    ensures exists i :: ExitedAt(b, candles, i, t)
  {
    hide AfterBar, Ledger, ExitedAt, Simulated;
    if candles == [] {
      NothingSimulated(b, candles);
    } else {
      var before, last := candles[..|candles| - 1], candles[|candles| - 1];
      SimulatedStep(b, candles);
      OneEquityPointPerBar(b, before);
      if t in Simulated(b, before).account.trades {
        ExitsAreExplained(b, before, t);
        var i :| ExitedAt(b, before, i, t);
        ExitedEarlier(b, candles, i, t);
      } else {
        BarBooks(Simulated(b, before), last, t);
        ExitedNow(b, candles, t);
      }
    }
  }

  // ---------------------------------------------------------------- the engine's part

  /** The closed bars as the engine received them, each with the side held once it was over. */
  function BarEvents(b: Backtest, candles: seq<Candle>): seq<Event>
    requires b.Ready()
  {
    if candles == [] then []
    else
      BarEvents(b, candles[..|candles| - 1])
      + [Tick(candles[|candles| - 1], CurrentSide(Simulated(b, candles).account))]
  }

  function ClosesOf(candles: seq<Candle>): seq<real> {
    if candles == [] then [] else ClosesOf(candles[..|candles| - 1]) + [candles[|candles| - 1].close]
  }

  predicate AllCandlesClosed(candles: seq<Candle>) {
    forall i :: 0 <= i < |candles| ==> candles[i].isClosed
  }

  lemma BarInParts(b: Backtest, candle: Candle)
    requires b.Ready()
    ensures var account := StoppedInBar(b, candle);
      var (engine, signal) := OnTick(b.engine, candle, CurrentSide(account));
      AfterBar(b, candle)
      == Backtest(engine, account, signal, b.curve + [EquityPoint(candle.closeTime, Equity(account, candle.close))])
  {
    hide OnTick, StoppedInBar;
  }

  lemma BarIsATick(b: Backtest, candle: Candle)
    requires b.Ready()
    ensures var tick := OnTick(b.engine, candle, CurrentSide(StoppedInBar(b, candle)));
      AfterBar(b, candle).engine == tick.0 && AfterBar(b, candle).pending == tick.1
      && AfterBar(b, candle).account == StoppedInBar(b, candle)
  {
    hide OnTick, StoppedInBar;
  }

  lemma RunOfLonger(e: EngineState, events: seq<Event>, candle: Candle, side: Option<PositionSide>)
    requires Wired(e.params, e.indicators)
    ensures Run(e, events + [Tick(candle, side)]) == OnTick(Run(e, events), candle, side).0
  {
    assert (events + [Tick(candle, side)])[..|events|] == events;
    hide OnTick;
  }

  lemma NoRun(e: EngineState)
    requires Wired(e.params, e.indicators)
    ensures Run(e, []) == e
  {
  }

  /** The engine of a backtest is the engine run over its bars, and saw exactly their closes. */
  lemma {:induction false} EngineSeesTheBars(b: Backtest, candles: seq<Candle>)
    requires b.Ready()
    ensures Simulated(b, candles).engine == Run(b.engine, BarEvents(b, candles))
    ensures Closes(BarEvents(b, candles)) == ClosesOf(candles) && |ClosesOf(candles)| == |candles|
    ensures AllCandlesClosed(candles) ==> ClosedTicks(BarEvents(b, candles))
  {
    hide AfterBar, StoppedInBar, OnTick, Run, Wired, Simulated;
    if candles == [] {
      NothingSimulated(b, candles);
      NoRun(b.engine);
    } else {
      var before, last := candles[..|candles| - 1], candles[|candles| - 1];
      var side := CurrentSide(Simulated(b, candles).account);
      EngineSeesTheBars(b, before);
      SimulatedStep(b, candles);
      BarIsATick(Simulated(b, before), last);
      RunOfLonger(b.engine, BarEvents(b, before), last, side);
      ClosesOfLonger(BarEvents(b, before), last, side);
      assert BarEvents(b, candles) == BarEvents(b, before) + [Tick(last, side)];
    }
  }

  /** The signal of bar `i` is `on_tick`'s, after the closed bars before it. */
  lemma SignalOfBar(b: Backtest, candles: seq<Candle>, i: nat)
    requires b.Ready() && i < |candles|
    ensures var side := CurrentSide(Simulated(b, candles[..i + 1]).account);
      SignalAt(b, candles, i) == OnTick(Run(b.engine, BarEvents(b, candles[..i])), candles[i], side).1
  {
    SimulatedLonger(b, candles, i);
    BarIsATick(Simulated(b, candles[..i]), candles[i]);
    EngineSeesTheBars(b, candles[..i]);
    hide AfterBar, StoppedInBar, OnTick, Run, Simulated, BarEvents;
  }

  lemma ClosesOfPrefix(candles: seq<Candle>, i: nat)
    requires i < |candles|
    ensures ClosesOf(candles[..i + 1]) == ClosesOf(candles[..i]) + [candles[i].close]
  {
    assert candles[..i + 1][..i] == candles[..i];
  }

  /** In a crossover backtest the signal of a bar is a cross of the EMAs of the closes up to it. */
  lemma CrossoverSignalOfBar(b: Backtest, candles: seq<Candle>, i: nat)
    requires b.Ready() && AsBuilt(b.engine) && b.engine.params.EmaCrossover? && AllCandlesClosed(candles)
          && i < |candles|
    ensures var e, before, now := b.engine, ClosesOf(candles[..i]), ClosesOf(candles[..i + 1]);
      && (Acts(SignalAt(b, candles, i), Buy) <==> FastBelowSlow(e, before) && FastAboveSlow(e, now))
      && (Acts(SignalAt(b, candles, i), Sell) <==> FastAboveSlow(e, before) && FastBelowSlow(e, now))
  {
    hide AsBuilt, OnTick, Run, Simulated, BarEvents, StoppedInBar, FastBelowSlow, FastAboveSlow, Acts;
    var side := CurrentSide(Simulated(b, candles[..i + 1]).account);
    SignalOfBar(b, candles, i);
    EngineSeesTheBars(b, candles[..i]);
    CrossoverEndToEnd(b.engine, BarEvents(b, candles[..i]), candles[i], side);
    ClosesOfPrefix(candles, i);
  }

  /** A long entry at bar `i`'s open, slipped, on a cross upwards of the EMAs of the closes up to the bar before. */
  ghost predicate CrossedInto(b: Backtest, candles: seq<Candle>, i: nat, ticket: Ticket)
    requires b.Ready() && AsBuilt(b.engine) && b.engine.params.EmaCrossover?
  {
    && 0 < i < |candles| && ticket.side == Long && ticket.time == candles[i].openTime
    && ticket.price == Slipped(b.account.config, candles[i].open, true)
    && FastBelowSlow(b.engine, ClosesOf(candles[..i - 1])) && FastAboveSlow(b.engine, ClosesOf(candles[..i]))
  }

  /** The crossover strategy never signals a short entry. */
  lemma CrossoverOpensLong(b: Backtest, candles: seq<Candle>, i: nat)
    requires b.Ready() && AsBuilt(b.engine) && b.engine.params.EmaCrossover? && AllCandlesClosed(candles)
          && i < |candles|
    ensures !Acts(SignalAt(b, candles, i), OpenShort)
  {
    hide AsBuilt, OnTick, Run, Simulated, BarEvents, StoppedInBar, Acts;
    var side := CurrentSide(Simulated(b, candles[..i + 1]).account);
    SignalOfBar(b, candles, i);
    EngineSeesTheBars(b, candles[..i]);
    CrossoverNeverShorts(b.engine, BarEvents(b, candles[..i]), candles[i], side);
  }

  lemma EntryActs(b: Backtest, candles: seq<Candle>, i: nat, ticket: Ticket)
    requires b.Ready() && EnteredAt(b, candles, i, ticket)
    ensures 0 < i < |candles| && ticket.time == candles[i].openTime
    ensures ticket.price == Slipped(b.account.config, candles[i].open, ticket.side.Long?)
    ensures ticket.side == Long ==> Acts(SignalAt(b, candles, i - 1), Buy)
    ensures ticket.side == Short ==> Acts(SignalAt(b, candles, i - 1), OpenShort)
  {
    hide SignalAt, Slipped;
  }

  /**
   * A crossover backtest from end to end: every position it ever entered is long, and was entered at the open after
   * a bar whose close took the fast EMA of all closes so far from strictly below the slow one to strictly above it.
   */
  lemma CrossoverEntriesAreCrosses(b: Backtest, candles: seq<Candle>, ticket: Ticket)
    requires b.Ready() && Ledger(b.account) && b.pending.None? && Count(b.account, ticket) == 0
    requires AsBuilt(b.engine) && b.engine.params.EmaCrossover? && AllCandlesClosed(candles)
    requires Count(Simulated(b, candles).account, ticket) > 0
    ensures exists i :: CrossedInto(b, candles, i, ticket)
  {
    hide Ledger, AsBuilt, Count, Simulated, FastBelowSlow, FastAboveSlow, Slipped, SignalAt, ClosesOf, EnteredAt, Acts;
    EntriesFollowTheirSignals(b, candles, ticket);
    var i: nat :| EnteredAt(b, candles, i, ticket);
    EntryActs(b, candles, i, ticket);
    CrossoverSignalOfBar(b, candles, i - 1);
    CrossoverOpensLong(b, candles, i - 1);
    assert CrossedInto(b, candles, i, ticket);
  }

  // ---------------------------------------------------------------- the end of a backtest

  /** Whatever is still open is closed at the last bar's close. */
  function Finished(b: Backtest, last: Candle): Account
    requires b.Ready()
  {
    Exchange.Next(b.account, ForceClose(last.close, last.closeTime))
  }

  /** A finished backtest is flat, and its cash is the initial balance plus the profit of every trade it reports. */
  lemma FinishedBooks(b: Backtest, candles: seq<Candle>)
    requires b.Ready() && Ledger(b.account) && candles != []
    ensures var end := Finished(Simulated(b, candles), candles[|candles| - 1]);
      && end.positions == [] && end.balance == b.account.initialBalance + Pnls(end.trades)
      && Pnls(end.trades) == end.balance - b.account.initialBalance
      && Simulated(b, candles).account.trades <= end.trades
  {
    hide Simulated;
    var ran, last := Simulated(b, candles), candles[|candles| - 1];
    OneEquityPointPerBar(b, candles);
    NextAppends(ran.account, ForceClose(last.close, last.closeTime));
    ForceCloseFlattens(ran.account, last.close, last.closeTime);
    hide Exchange.Next, Sound, Honest;
  }
}
