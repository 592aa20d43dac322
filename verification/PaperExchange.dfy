/** The simulated broker: opening, closing and stopping positions, and the cash they move. */
module PaperExchange {
  import opened Prelude
  import opened Market
  import opened BrokerPolicies

  datatype Position = Position(
    quantity: real,
    entryPrice: real,
    entryTime: int,
    margin: real,
    entryFee: real,
    entryReason: string,
    stopLossPrice: Option<real>,
    takeProfitPrice: Option<real>,
    side: PositionSide,
    leverage: real)

  datatype Trade = Trade(
    entryTime: int,
    entryPrice: real,
    exitTime: int,
    exitPrice: real,
    quantity: real,
    pnl: real,
    pnlPercent: real,
    feesPaid: real,
    entryReason: string,
    exitReason: ExitReason,
    side: PositionSide)

  datatype Account = Account(
    config: Config,
    sizing: Sizing,
    initialBalance: real,
    balance: real,
    positions: seq<Position>,
    trades: seq<Trade>)

  datatype Step =
    | Fill(signal: Signal, price: real, time: int)
    | CheckStops(high: real, low: real, time: int)
    | ForceClose(price: real, time: int)

  // ---------------------------------------------------------------- valuing

  function ValueAt(p: Position, mark: real): real {
    MarkToMarket(p.side, p.leverage, p.quantity, p.entryPrice, p.margin, mark)
  }

  function OpenValue(positions: seq<Position>, mark: real): real {
    if positions == [] then 0.0
    else OpenValue(positions[..|positions| - 1], mark) + ValueAt(positions[|positions| - 1], mark)
  }

  function Equity(a: Account, mark: real): real {
    if a.positions == [] then a.balance else a.balance + OpenValue(a.positions, mark)
  }

  // ---------------------------------------------------------------- opening

  datatype Entry = Entry(margin: real, quantity: real, fee: real)

  const NO_ENTRY := Entry(0.0, 0.0, 0.0)

  function EntryPrice(c: Config, side: PositionSide, price: real): real {
    EntryEffectivePrice(side, price, SlippageDelta(c))
  }

  /** `_calculate_entry_capital`. */
  function EntryCapital(a: Account, side: PositionSide, price: real, equity: real): Entry
    requires a.config.commissionValue >= 0.0
  {
    var c, effective := a.config, EntryPrice(a.config, side, price);
    if effective <= 0.0 then NO_ENTRY
    else
      var capital := MarginAndNotional(effective, equity, a.balance, a.sizing, LeverageFor(side, c), c.stopLossPct);
      if capital.margin <= 0.0 || capital.notional <= 0.0 then NO_ENTRY
      else
        var fill := EntryFeeAndQuantity(capital.notional, effective, c.commissionType, c.commissionValue);
        if fill.quantity <= 0.0 then NO_ENTRY else Entry(capital.margin, fill.quantity, fill.fee)
  }

  function NewPosition(c: Config, side: PositionSide, price: real, time: int, reason: string, entry: Entry): Position {
    var effective := EntryPrice(c, side, price);
    Position(entry.quantity, effective, time, entry.margin, entry.fee, reason,
             StopLossPrice(side, effective, c.stopLossPct), TakeProfitPrice(side, effective, c.takeProfitPct),
             side, LeverageFor(side, c))
  }

  predicate AnyOn(positions: seq<Position>, side: PositionSide) {
    exists i :: 0 <= i < |positions| && positions[i].side == side
  }

  function Opened(a: Account, side: PositionSide, price: real, time: int, reason: string): Account
    requires a.config.commissionValue >= 0.0
  {
    if AnyOn(a.positions, Opposite(side)) || |a.positions| >= a.config.pyramiding then a
    else
      var entry := EntryCapital(a, side, price, Equity(a, price));
      if entry.quantity <= 0.0 || entry.margin <= 0.0 then a
      else a.(balance := a.balance - entry.margin,
              positions := a.positions + [NewPosition(a.config, side, price, time, reason, entry)])
  }

  // ---------------------------------------------------------------- closing

  datatype Exit = Exit(price: real, reason: ExitReason)
  datatype Closing = Closing(position: Position, exit: Exit)

  /** Which positions a step closes, and at what price and for what reason. */
  type ExitRule = Position -> Option<Exit>

  function SideRule(side: PositionSide, price: real, reason: ExitReason): ExitRule {
    (p: Position) => if p.side == side then Some(Exit(price, reason)) else None
  }

  /** One position against a bar's range; when both levels are touched the stop-loss wins. */
  function StopRule(high: real, low: real): ExitRule {
    (p: Position) =>
      var stopHit := p.stopLossPrice.Some?
                       && if p.side.Long? then low <= p.stopLossPrice.value else high >= p.stopLossPrice.value;
      var targetHit := p.takeProfitPrice.Some?
                         && if p.side.Long? then high >= p.takeProfitPrice.value else low <= p.takeProfitPrice.value;
      if stopHit then Some(Exit(p.stopLossPrice.value, StopLoss))
      else if targetHit then Some(Exit(p.takeProfitPrice.value, TakeProfit)) else None
  }

  function Triggered(positions: seq<Position>, rule: ExitRule): seq<Closing> {
    if positions == [] then []
    else
      var last := positions[|positions| - 1];
      Triggered(positions[..|positions| - 1], rule) + if rule(last).Some? then [Closing(last, rule(last).value)] else []
  }

  function StillOpen(positions: seq<Position>, rule: ExitRule): seq<Position> {
    if positions == [] then []
    else
      var last := positions[|positions| - 1];
      StillOpen(positions[..|positions| - 1], rule) + if rule(last).Some? then [] else [last]
  }

  function FeeAt(c: Config, p: Position, exitPrice: real): real {
    ExitFee(p.quantity, exitPrice, c.commissionType, c.commissionValue)
  }

  function RealizedAt(c: Config, p: Position, exitPrice: real): Realized {
    RealizedPnl(p.side, p.leverage, p.quantity, p.entryPrice, exitPrice, p.margin, p.entryFee, FeeAt(c, p, exitPrice))
  }

  function TradeOf(c: Config, closing: Closing, time: int): Trade {
    var p, realized := closing.position, RealizedAt(c, closing.position, closing.exit.price);
    Trade(p.entryTime, p.entryPrice, time, closing.exit.price, p.quantity, realized.pnl, realized.pnlPercent,
          p.entryFee + FeeAt(c, p, closing.exit.price), p.entryReason, closing.exit.reason, p.side)
  }

  /** `_close_one_position`. */
  function ClosedOne(a: Account, closing: Closing, time: int): Account {
    a.(balance := a.balance + RealizedAt(a.config, closing.position, closing.exit.price).release,
       trades := a.trades + [TradeOf(a.config, closing, time)])
  }

  function Settled(a: Account, closings: seq<Closing>, time: int): Account {
    if closings == [] then a
    else ClosedOne(Settled(a, closings[..|closings| - 1], time), closings[|closings| - 1], time)
  }

  /** Every position the rule names is settled, in order, and leaves the list. */
  function Retired(a: Account, rule: ExitRule, time: int): Account {
    Settled(a.(positions := StillOpen(a.positions, rule)), Triggered(a.positions, rule), time)
  }

  function ExitPrice(c: Config, side: PositionSide, price: real): real {
    ExitEffectivePrice(side, price, SlippageDelta(c))
  }

  function Closed(a: Account, side: PositionSide, price: real, time: int, reason: ExitReason): Account {
    Retired(a, SideRule(side, ExitPrice(a.config, side, price), reason), time)
  }

  // ---------------------------------------------------------------- the exchange's calls

  function Next(a: Account, step: Step): Account
    requires a.config.commissionValue >= 0.0
  {
    match step
    case Fill(signal, price, time) =>
      (match signal.action
       case Buy => Opened(a, Long, price, time, signal.reason)
       case Sell => Closed(a, Long, price, time, StrategySignal)
       case OpenShort => Opened(a, Short, price, time, signal.reason)
       case Cover => Closed(a, Short, price, time, StrategySignal)
       case Hold => a)
    case CheckStops(high, low, time) => Retired(a, StopRule(high, low), time)
    case ForceClose(price, time) =>
      Closed(Closed(a, Long, price, time, EndOfBacktest), Short, price, time, EndOfBacktest)
  }

  lemma {:induction false} SettledKeeps(a: Account, closings: seq<Closing>, time: int)
    ensures var b := Settled(a, closings, time);
      && b.config == a.config && b.sizing == a.sizing && b.initialBalance == a.initialBalance
      && b.positions == a.positions
      && |b.trades| == |a.trades| + |closings| && a.trades <= b.trades
  {
    if closings != [] { SettledKeeps(a, closings[..|closings| - 1], time); }
  }

  lemma OpenedKeepsConfig(a: Account, side: PositionSide, price: real, time: int, reason: string)
    requires a.config.commissionValue >= 0.0
    ensures Opened(a, side, price, time, reason).config == a.config
  {
  }

  lemma RetiredKeepsConfig(a: Account, rule: ExitRule, time: int)
    ensures Retired(a, rule, time).config == a.config
  {
    SettledKeeps(a.(positions := StillOpen(a.positions, rule)), Triggered(a.positions, rule), time);
  }

  lemma NextKeepsConfig(a: Account, step: Step)
    requires a.config.commissionValue >= 0.0
    ensures Next(a, step).config == a.config
  {
    hide Opened, Settled, Triggered, StillOpen;
    match step
    case Fill(signal, price, time) =>
      OpenedKeepsConfig(a, Long, price, time, signal.reason);
      OpenedKeepsConfig(a, Short, price, time, signal.reason);
      RetiredKeepsConfig(a, SideRule(Long, ExitPrice(a.config, Long, price), StrategySignal), time);
      RetiredKeepsConfig(a, SideRule(Short, ExitPrice(a.config, Short, price), StrategySignal), time);
    case CheckStops(high, low, time) => RetiredKeepsConfig(a, StopRule(high, low), time);
    case ForceClose(price, time) =>
      RetiredKeepsConfig(a, SideRule(Long, ExitPrice(a.config, Long, price), EndOfBacktest), time);
      var b := Closed(a, Long, price, time, EndOfBacktest);
      RetiredKeepsConfig(b, SideRule(Short, ExitPrice(b.config, Short, price), EndOfBacktest), time);
  }

  // ---------------------------------------------------------------- the object

  /** The loop of `evaluate_intrabar_stops` and the comprehensions of `_close`: two lists, in order. */
  method SplitByRule(positions: seq<Position>, rule: ExitRule)
    returns (triggered: seq<Closing>, stillOpen: seq<Position>)
    ensures triggered == Triggered(positions, rule) && stillOpen == StillOpen(positions, rule)
  {
    triggered, stillOpen := [], [];
    for i := 0 to |positions|
      invariant triggered == Triggered(positions[..i], rule) && stillOpen == StillOpen(positions[..i], rule)
    {
      assert positions[..i + 1][..i] == positions[..i];
      var exit := rule(positions[i]);
      if exit.Some? {
        triggered := triggered + [Closing(positions[i], exit.value)];
      } else {
        stillOpen := stillOpen + [positions[i]];
      }
    }
    assert positions[..|positions|] == positions;
  }

  class PaperExchange {
    const config: Config
    const sizing: Sizing
    const initialBalance: real
    var balance: real
    var positions: seq<Position>
    var trades: seq<Trade>

    ghost function View(): Account
      reads this
    {
      Account(config, sizing, initialBalance, balance, positions, trades)
    }

    constructor (initialBalance: real, config: Config, sizing: Sizing)
      requires initialBalance > 0.0 && ValidConfig(config) && ValidSizing(sizing)
      ensures View() == Account(config, sizing, initialBalance, initialBalance, [], [])
    {
      this.config, this.sizing, this.initialBalance := config, sizing, initialBalance;
      balance, positions, trades := initialBalance, [], [];
    }

    /** The source's constructor, with its two errors and its defaults. */
    static method Create(initialBalance: real, feePercent: real, sizing: Option<Sizing>, broker: Option<Config>)
      returns (r: Result<PaperExchange>)
      requires (broker.Some? ==> ValidConfig(broker.value)) && (sizing.Some? ==> ValidSizing(sizing.value))
      ensures r.Failure? <==> initialBalance <= 0.0 || feePercent < 0.0
      ensures r.Success? ==> fresh(r.value) && ValidConfig(r.value.config) && ValidSizing(r.value.sizing)
      ensures r.Success? ==> r.value.balance == initialBalance && r.value.positions == [] && r.value.trades == []
      ensures r.Success? ==>
                r.value.config == (if broker.Some? then broker.value
                                   else Config(0, 0.01, Percent, feePercent, 1, 1.0, 1.0, None, None))
      ensures r.Success? ==> r.value.sizing == (if sizing.Some? then sizing.value else Sizing(PercentOfEquity, 100.0))
    {
      if initialBalance <= 0.0 {
        return Failure("initial_balance must be positive");
      }
      if feePercent < 0.0 {
        return Failure("fee_percent must be >= 0");
      }
      var c := if broker.Some? then broker.value else Config(0, 0.01, Percent, feePercent, 1, 1.0, 1.0, None, None);
      var s := if sizing.Some? then sizing.value else Sizing(PercentOfEquity, 100.0);
      var exchange := new PaperExchange(initialBalance, c, s);
      return Success(exchange);
    }

    method CalculateEquity(mark: real) returns (equity: real)
      ensures equity == Equity(View(), mark)
    {
      if positions == [] {
        return balance;
      }
      var total := 0.0;
      for i := 0 to |positions|
        invariant total == OpenValue(positions[..i], mark)
      {
        assert positions[..i + 1][..i] == positions[..i];
        total := total + MarkToMarket(positions[i].side, positions[i].leverage, positions[i].quantity,
                                      positions[i].entryPrice, positions[i].margin, mark);
      }
      assert positions[..|positions|] == positions;
      return balance + total;
    }

    /** Executes a signal; the last trade of a SELL or COVER that closed anything. */
    method Fill(signal: Signal, price: real, time: int) returns (trade: Option<Trade>)
      requires ValidConfig(config)
      modifies this`balance, this`positions, this`trades
      ensures View() == Next(old(View()), Step.Fill(signal, price, time))
      ensures trade == if trades == old(trades) then None else Some(trades[|trades| - 1])
    {
      trade := None;
      match signal.action {
        case Buy => Open(Long, price, time, signal.reason);
        case Sell => trade := Close(Long, price, time, StrategySignal);
        case OpenShort => Open(Short, price, time, signal.reason);
        case Cover => trade := Close(Short, price, time, StrategySignal);
        case Hold =>
      }
    }

    method ForceClose(price: real, time: int) returns (trade: Option<Trade>)
      requires ValidConfig(config)
      modifies this`balance, this`positions, this`trades
      ensures View() == Next(old(View()), Step.ForceClose(price, time))
      ensures trade == if trades == old(trades) then None else Some(trades[|trades| - 1])
    {
      var longs := Close(Long, price, time, EndOfBacktest);
      var shorts := Close(Short, price, time, EndOfBacktest);
      return if shorts.Some? then shorts else longs;
    }

    method Open(side: PositionSide, price: real, time: int, reason: string)
      requires ValidConfig(config)
      modifies this`balance, this`positions
      ensures View() == Opened(old(View()), side, price, time, reason)
    {
      if AnyOn(positions, Opposite(side)) || |positions| >= config.pyramiding {
        return;
      }
      var equity := CalculateEquity(price);
      var entry := EntryCapital(Account(config, sizing, initialBalance, balance, positions, trades), side, price,
                                equity);
      if entry.quantity <= 0.0 || entry.margin <= 0.0 {
        return;
      }
      balance := balance - entry.margin;
      positions := positions + [NewPosition(config, side, price, time, reason, entry)];
    }

    method CloseOnePosition(closing: Closing, time: int) returns (trade: Trade)
      modifies this`balance, this`trades
      ensures View() == ClosedOne(old(View()), closing, time)
      ensures trade == trades[|trades| - 1]
    {
      var realized := RealizedAt(config, closing.position, closing.exit.price);
      balance := balance + realized.release;
      trade := TradeOf(config, closing, time);
      trades := trades + [trade];
    }

    method Close(side: PositionSide, price: real, time: int, reason: ExitReason) returns (last: Option<Trade>)
      modifies this`balance, this`positions, this`trades
      ensures View() == Closed(old(View()), side, price, time, reason)
      ensures old(trades) <= trades
      ensures last == if trades == old(trades) then None else Some(trades[|trades| - 1])
    {
      last := Retire(SideRule(side, ExitPrice(config, side, price), reason), time);
    }

    method CheckIntrabarStops(high: real, low: real, time: int) returns (closed: seq<Trade>)
      requires ValidConfig(config)
      modifies this`balance, this`positions, this`trades
      ensures View() == Next(old(View()), Step.CheckStops(high, low, time))
      ensures trades == old(trades) + closed
    {
      var count := |trades|;
      var last := Retire(StopRule(high, low), time);
      closed := trades[count..];
    }

    /** The two closing loops: split the positions, settle the ones the rule names in order, keep the rest. */
    method Retire(rule: ExitRule, time: int) returns (last: Option<Trade>)
      modifies this`balance, this`positions, this`trades
      ensures View() == Retired(old(View()), rule, time)
      ensures old(trades) <= trades
      ensures last == if trades == old(trades) then None else Some(trades[|trades| - 1])
    {
      var triggered, stillOpen := SplitByRule(positions, rule);
      positions := stillOpen;
      last := None;
      ghost var start := View();
      for i := 0 to |triggered|
        invariant View() == Settled(start, triggered[..i], time)
        invariant |trades| == |start.trades| + i && start.trades <= trades
        invariant last == if i == 0 then None else Some(trades[|trades| - 1])
      {
        assert triggered[..i + 1][..i] == triggered[..i];
        var trade := CloseOnePosition(triggered[i], time);
        last := Some(trade);
      }
      assert triggered[..|triggered|] == triggered;
    }
  }
}
