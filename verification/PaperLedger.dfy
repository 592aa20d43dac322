/** The ledger of the simulated broker: what every run of it keeps. */
module PaperLedger {
  import opened Prelude
  import opened RealArithmetic
  import opened Market
  import opened BrokerPolicies
  import opened PaperExchange

  function Margins(positions: seq<Position>): real {
    if positions == [] then 0.0 else Margins(positions[..|positions| - 1]) + positions[|positions| - 1].margin
  }

  function Pnls(trades: seq<Trade>): real {
    if trades == [] then 0.0 else Pnls(trades[..|trades| - 1]) + trades[|trades| - 1].pnl
  }

  // ---------------------------------------------------------------- what is always true

  /** A position was paid for in full: its leveraged margin is its quantity at the entry price plus the entry fee. */
  ghost predicate Sound(c: Config, p: Position) {
    && p.quantity > 0.0 && p.margin > 0.0 && p.entryPrice > 0.0 && p.entryFee >= 0.0
    && p.leverage == LeverageFor(p.side, c)
    && Leveraged(p.margin, p.leverage) == Spent(p.quantity, p.entryPrice, p.entryFee)
    && p.stopLossPrice == StopLossPrice(p.side, p.entryPrice, c.stopLossPct)
    && p.takeProfitPrice == TakeProfitPrice(p.side, p.entryPrice, c.takeProfitPct)
  }

  /** A trade earned its price move times its quantity, less every fee, whatever its side and leverage. */
  ghost predicate Honest(t: Trade) {
    t.pnl == Gross(t.side, t.quantity, t.entryPrice, t.exitPrice) - t.feesPaid
  }

  ghost predicate OneSided(positions: seq<Position>) {
    forall i, j :: 0 <= i < |positions| && 0 <= j < |positions| ==> positions[i].side == positions[j].side
  }

  ghost predicate Ledger(a: Account) {
    && ValidConfig(a.config)
    && (forall p :: p in a.positions ==> Sound(a.config, p))
    && OneSided(a.positions) && |a.positions| <= a.config.pyramiding
    && (forall t :: t in a.trades ==> Honest(t))
    // cash is the initial balance, less the margin deployed, plus the profit realized
    && a.balance == a.initialBalance + Pnls(a.trades) - Margins(a.positions)
  }

  // ---------------------------------------------------------------- opening

  lemma EntryIsFunded(a: Account, side: PositionSide, price: real, equity: real)
    requires ValidConfig(a.config)
    ensures var entry := EntryCapital(a, side, price, equity);
      entry.quantity > 0.0 && entry.margin > 0.0 ==>
        && EntryPrice(a.config, side, price) > 0.0 && entry.margin <= a.balance && entry.fee >= 0.0
        && (entry.fee == 0.0 <==> a.config.commissionValue == 0.0)
        && Leveraged(entry.margin, LeverageFor(side, a.config))
             == Spent(entry.quantity, EntryPrice(a.config, side, price), entry.fee)
  {
    var c, effective := a.config, EntryPrice(a.config, side, price);
    hide EntryEffectivePrice, EntryPrice, MarginAndNotional, EntryFeeAndQuantity, Leveraged, Spent;
    if effective > 0.0 {
      NotionalIsLeveragedMargin(effective, equity, a.balance, a.sizing, LeverageFor(side, c), c.stopLossPct);
      var capital := MarginAndNotional(effective, equity, a.balance, a.sizing, LeverageFor(side, c), c.stopLossPct);
      NotionalIsSpent(capital.notional, effective, c.commissionType, c.commissionValue);
      if EntryFeeAndQuantity(capital.notional, effective, c.commissionType, c.commissionValue).quantity > 0.0 {
        FeesArePositive(capital.notional, effective, effective, c.commissionType, c.commissionValue);
      }
    }
  }

  lemma MarginsOfLonger(positions: seq<Position>, p: Position)
    ensures Margins(positions + [p]) == Margins(positions) + p.margin
  {
    assert (positions + [p])[..|positions|] == positions;
  }

  lemma PnlsOfLonger(trades: seq<Trade>, t: Trade)
    ensures Pnls(trades + [t]) == Pnls(trades) + t.pnl
  {
    assert (trades + [t])[..|trades|] == trades;
  }

  lemma OneMoreOnSide(positions: seq<Position>, p: Position)
    requires OneSided(positions) && !AnyOn(positions, Opposite(p.side))
    ensures OneSided(positions + [p])
  {
    assert forall i :: 0 <= i < |positions| ==> positions[i].side == p.side;
  }

  /** Opening keeps the ledger and never overdraws the cash; a rejected entry changes nothing. */
  lemma OpeningKeepsLedger(a: Account, side: PositionSide, price: real, time: int, reason: string)
    requires Ledger(a)
    ensures var b := Opened(a, side, price, time, reason);
      && Ledger(b) && b.trades == a.trades && b.initialBalance == a.initialBalance
      && (b == a || (b.balance >= 0.0 && |b.positions| == |a.positions| + 1 && a.positions <= b.positions
                     && b.positions[|a.positions|].side == side && b.positions[|a.positions|].entryTime == time
                     && b.positions[|a.positions|].entryReason == reason
                     && b.positions[|a.positions|].entryPrice == EntryPrice(a.config, side, price)))
  {
    hide EntryCapital, EntryPrice, Equity, Leveraged, Spent, Margins, Pnls, Honest, StopLossPrice, TakeProfitPrice;
    var equity := Equity(a, price);
    var entry := EntryCapital(a, side, price, equity);
    EntryIsFunded(a, side, price, equity);
    var p := NewPosition(a.config, side, price, time, reason, entry);
    MarginsOfLonger(a.positions, p);
    if !(AnyOn(a.positions, Opposite(side)) || |a.positions| >= a.config.pyramiding) {
      OneMoreOnSide(a.positions, p);
    }
  }

  // ---------------------------------------------------------------- closing

  function PositionsOf(closings: seq<Closing>): seq<Position> {
    if closings == [] then [] else PositionsOf(closings[..|closings| - 1]) + [closings[|closings| - 1].position]
  }

  lemma SplitOfLonger(positions: seq<Position>, p: Position, rule: ExitRule)
    ensures rule(p).Some? ==>
              && PositionsOf(Triggered(positions + [p], rule)) == PositionsOf(Triggered(positions, rule)) + [p]
              && StillOpen(positions + [p], rule) == StillOpen(positions, rule)
    ensures rule(p).None? ==>
              && Triggered(positions + [p], rule) == Triggered(positions, rule)
              && StillOpen(positions + [p], rule) == StillOpen(positions, rule) + [p]
  {
    assert (positions + [p])[..|positions|] == positions;
    if rule(p).Some? {
      var closing := Closing(p, rule(p).value);
      assert Triggered(positions + [p], rule) == Triggered(positions, rule) + [closing];
      assert (Triggered(positions, rule) + [closing])[..|Triggered(positions, rule)|] == Triggered(positions, rule);
    }
  }

  lemma NothingToSplit(rule: ExitRule)
    ensures Triggered([], rule) == [] && StillOpen([], rule) == [] && PositionsOf([]) == []
    ensures Margins([]) == 0.0
  {
  }

  lemma {:induction false} SplitKeepsMargins(positions: seq<Position>, rule: ExitRule)
    ensures Margins(positions) == Margins(PositionsOf(Triggered(positions, rule))) + Margins(StillOpen(positions, rule))
  {
    hide Margins, Triggered, StillOpen, PositionsOf;
    if positions == [] {
      NothingToSplit(rule);
    } else {
      var before, last := positions[..|positions| - 1], positions[|positions| - 1];
      SplitKeepsMargins(before, rule);
      SplitOfLonger(before, last, rule);
      assert before + [last] == positions;
      MarginsOfLonger(before, last);
      if rule(last).Some? {
        MarginsOfLonger(PositionsOf(Triggered(before, rule)), last);
      } else {
        MarginsOfLonger(StillOpen(before, rule), last);
      }
    }
  }

  /** The rule decides: exactly the positions it names are settled, at its price and reason, in order. */
  lemma {:induction false} SplitFollowsRule(positions: seq<Position>, rule: ExitRule)
    ensures forall c :: c in Triggered(positions, rule) <==> c.position in positions && rule(c.position) == Some(c.exit)
    ensures forall p :: p in StillOpen(positions, rule) <==> p in positions && rule(p).None?
    ensures |StillOpen(positions, rule)| <= |positions|
  {
    if positions != [] {
      SplitFollowsRule(positions[..|positions| - 1], rule);
      assert positions == positions[..|positions| - 1] + [positions[|positions| - 1]];
    }
  }

  lemma ClosedTradeIsHonest(c: Config, closing: Closing, time: int)
    requires Sound(c, closing.position)
    ensures Honest(TradeOf(c, closing, time))
    ensures RealizedAt(c, closing.position, closing.exit.price).release
         == closing.position.margin + TradeOf(c, closing, time).pnl
    ensures TradeOf(c, closing, time).pnlPercent == TradeOf(c, closing, time).pnl / closing.position.margin * 100.0
  {
    var p, exitPrice := closing.position, closing.exit.price;
    var exitFee := FeeAt(c, p, exitPrice);
    PnlIsPriceMoveLessFees(p.side, p.leverage, p.quantity, p.entryPrice, exitPrice, p.margin, p.entryFee, exitFee);
    ReleaseIsMarginPlusPnl(p.side, p.leverage, p.quantity, p.entryPrice, exitPrice, p.margin, p.entryFee, exitFee);
    hide Gross, Leveraged, Spent, RealizedPnl, FeeAt;
  }

  lemma TradePnl(c: Config, p: Position, exit: Exit, time: int)
    requires Sound(c, p)
    ensures TradeOf(c, Closing(p, exit), time).pnl
         == Gross(p.side, p.quantity, p.entryPrice, exit.price) - p.entryFee - FeeAt(c, p, exit.price)
  {
    ClosedTradeIsHonest(c, Closing(p, exit), time);
    hide Gross, FeeAt, RealizedPnl;
  }

  function TradesOf(c: Config, closings: seq<Closing>, time: int): seq<Trade> {
    if closings == [] then []
    else TradesOf(c, closings[..|closings| - 1], time) + [TradeOf(c, closings[|closings| - 1], time)]
  }

  /** Settling returns each position's margin and its profit to the cash, and books one trade for it. */
  lemma {:induction false} SettlingPaysOut(a: Account, closings: seq<Closing>, time: int)
    requires forall c :: c in closings ==> Sound(a.config, c.position)
    requires forall t :: t in a.trades ==> Honest(t)
    ensures var b := Settled(a, closings, time);
      && b.balance - Pnls(b.trades) == a.balance - Pnls(a.trades) + Margins(PositionsOf(closings))
      && (forall t :: t in b.trades ==> Honest(t))
      && b.trades == a.trades + TradesOf(a.config, closings, time)
  {
    if closings != [] {
      var before, last := closings[..|closings| - 1], closings[|closings| - 1];
      SettlingPaysOut(a, before, time);
      SettledKeeps(a, before, time);
      assert last in closings;
      ClosedTradeIsHonest(a.config, last, time);
      PnlsOfLonger(Settled(a, before, time).trades, TradeOf(a.config, last, time));
      MarginsOfLonger(PositionsOf(before), last.position);
      assert a.trades + TradesOf(a.config, closings, time)
          == a.trades + TradesOf(a.config, before, time) + [TradeOf(a.config, last, time)];
      hide TradeOf, RealizedAt, Honest, Pnls, Margins, Sound;
    }
  }

  lemma {:induction false} StillOneSided(positions: seq<Position>, rule: ExitRule)
    requires OneSided(positions)
    ensures OneSided(StillOpen(positions, rule))
  {
    SplitFollowsRule(positions, rule);
    var kept := StillOpen(positions, rule);
    assert forall i :: 0 <= i < |kept| ==> kept[i] in positions;
    hide StillOpen;
  }

  /** Retiring positions by any rule keeps the ledger. */
  lemma RetiringKeepsLedger(a: Account, rule: ExitRule, time: int)
    requires Ledger(a)
    ensures var b := Retired(a, rule, time);
      && Ledger(b) && b.positions == StillOpen(a.positions, rule) && b.initialBalance == a.initialBalance
      && b.trades == a.trades + TradesOf(a.config, Triggered(a.positions, rule), time)
  {
    var kept := a.(positions := StillOpen(a.positions, rule));
    SplitFollowsRule(a.positions, rule);
    SplitKeepsMargins(a.positions, rule);
    SettlingPaysOut(kept, Triggered(a.positions, rule), time);
    SettledKeeps(kept, Triggered(a.positions, rule), time);
    StillOneSided(a.positions, rule);
    hide Triggered, StillOpen, Settled, Sound, Honest, Margins, Pnls, OneSided;
  }

  // ---------------------------------------------------------------- runs

  /** The account after a run of calls. */
  ghost function After(a: Account, steps: seq<Step>): Account
    requires a.config.commissionValue >= 0.0
    ensures After(a, steps).config == a.config
  {
    if steps == [] then a
    else
      var before := After(a, steps[..|steps| - 1]);
      NextKeepsConfig(before, steps[|steps| - 1]);
      Next(before, steps[|steps| - 1])
  }

  function NewAccount(initialBalance: real, config: Config, sizing: Sizing): Account {
    Account(config, sizing, initialBalance, initialBalance, [], [])
  }

  lemma LedgerIsValid(a: Account)
    requires Ledger(a)
    ensures ValidConfig(a.config)
  {
  }

  lemma NextKeepsLedger(a: Account, step: Step)
    requires Ledger(a)
    ensures Ledger(Next(a, step)) && Next(a, step).initialBalance == a.initialBalance
  {
    hide Ledger, Opened, Retired;
    assert ValidConfig(a.config) by { LedgerIsValid(a); }
    match step
    case Fill(signal, price, time) =>
      OpeningKeepsLedger(a, Long, price, time, signal.reason);
      OpeningKeepsLedger(a, Short, price, time, signal.reason);
      RetiringKeepsLedger(a, SideRule(Long, ExitPrice(a.config, Long, price), StrategySignal), time);
      RetiringKeepsLedger(a, SideRule(Short, ExitPrice(a.config, Short, price), StrategySignal), time);
    case CheckStops(high, low, time) =>
      RetiringKeepsLedger(a, StopRule(high, low), time);
    case ForceClose(price, time) =>
      RetiringKeepsLedger(a, SideRule(Long, ExitPrice(a.config, Long, price), EndOfBacktest), time);
      var b := Closed(a, Long, price, time, EndOfBacktest);
      RetiringKeepsLedger(b, SideRule(Short, ExitPrice(b.config, Short, price), EndOfBacktest), time);
  }

  /**
   * In every reachable state the open positions share one side and number at most `pyramiding`, each was paid
   * for in full, every trade's profit is its price move less its fees, and the cash adds up.
   */
  lemma {:induction false} RunKeepsLedger(initialBalance: real, config: Config, sizing: Sizing, steps: seq<Step>)
    requires ValidConfig(config)
    ensures var a := After(NewAccount(initialBalance, config, sizing), steps);
      Ledger(a) && a.initialBalance == initialBalance
  {
    if steps != [] {
      RunKeepsLedger(initialBalance, config, sizing, steps[..|steps| - 1]);
      NextKeepsLedger(After(NewAccount(initialBalance, config, sizing), steps[..|steps| - 1]), steps[|steps| - 1]);
      hide Ledger, Next;
    }
  }

  // ---------------------------------------------------------------- every position is accounted for

  /** What identifies an entry, in the position and in the trade it becomes. */
  datatype Ticket = Ticket(time: int, price: real, quantity: real, reason: string, side: PositionSide)

  function TicketOf(p: Position): Ticket {
    Ticket(p.entryTime, p.entryPrice, p.quantity, p.entryReason, p.side)
  }

  function TicketOfTrade(t: Trade): Ticket {
    Ticket(t.entryTime, t.entryPrice, t.quantity, t.entryReason, t.side)
  }

  /** How many open positions, and how many trades, carry a ticket. */
  function OpenCount(positions: seq<Position>, ticket: Ticket): nat {
    if positions == [] then 0
    else
      OpenCount(positions[..|positions| - 1], ticket)
      + if TicketOf(positions[|positions| - 1]) == ticket then 1 else 0
  }

  function TradeCount(trades: seq<Trade>, ticket: Ticket): nat {
    if trades == [] then 0
    else TradeCount(trades[..|trades| - 1], ticket) + if TicketOfTrade(trades[|trades| - 1]) == ticket then 1 else 0
  }

  /** A step opened a position, and this is its ticket. */
  ghost predicate Opens(before: Account, step: Step, after: Account, ticket: Ticket) {
    && step.Fill? && |after.positions| > |before.positions|
    && TicketOf(after.positions[|after.positions| - 1]) == ticket
  }

  /** How many times a run opened a position with this ticket. */
  ghost function OpenedCount(a: Account, steps: seq<Step>, ticket: Ticket): nat
    requires a.config.commissionValue >= 0.0
  {
    if steps == [] then 0
    else
      var n := |steps| - 1;
      OpenedCount(a, steps[..n], ticket)
      + if Opens(After(a, steps[..n]), steps[n], After(a, steps), ticket) then 1 else 0
  }

  lemma OpenCountOfLonger(positions: seq<Position>, p: Position, ticket: Ticket)
    ensures OpenCount(positions + [p], ticket) == OpenCount(positions, ticket) + if TicketOf(p) == ticket then 1 else 0
  {
    assert (positions + [p])[..|positions|] == positions;
  }

  lemma TradeCountOfLonger(trades: seq<Trade>, t: Trade, ticket: Ticket)
    ensures TradeCount(trades + [t], ticket) == TradeCount(trades, ticket) + if TicketOfTrade(t) == ticket then 1 else 0
  {
    assert (trades + [t])[..|trades|] == trades;
  }

  lemma NothingToCount(ticket: Ticket)
    ensures OpenCount([], ticket) == 0
  {
  }

  lemma {:induction false} SplitKeepsTickets(positions: seq<Position>, rule: ExitRule, ticket: Ticket)
    ensures OpenCount(positions, ticket)
         == OpenCount(PositionsOf(Triggered(positions, rule)), ticket) + OpenCount(StillOpen(positions, rule), ticket)
  {
    hide *;
    if positions == [] {
      NothingToSplit(rule);
      NothingToCount(ticket);
    } else {
      var before, last := positions[..|positions| - 1], positions[|positions| - 1];
      SplitKeepsTickets(before, rule, ticket);
      SplitOfLonger(before, last, rule);
      assert before + [last] == positions;
      OpenCountOfLonger(before, last, ticket);
      if rule(last).Some? {
        OpenCountOfLonger(PositionsOf(Triggered(before, rule)), last, ticket);
      } else {
        OpenCountOfLonger(StillOpen(before, rule), last, ticket);
      }
    }
  }

  lemma {:induction false} TradesCarryTickets(c: Config, trades: seq<Trade>, closings: seq<Closing>, time: int,
                                              ticket: Ticket)
    ensures TradeCount(trades + TradesOf(c, closings, time), ticket)
         == TradeCount(trades, ticket) + OpenCount(PositionsOf(closings), ticket)
  {
    if closings == [] {
      assert trades + TradesOf(c, closings, time) == trades;
    } else {
      var before, last := closings[..|closings| - 1], closings[|closings| - 1];
      TradesCarryTickets(c, trades, before, time, ticket);
      var earlier, t := trades + TradesOf(c, before, time), TradeOf(c, last, time);
      assert trades + TradesOf(c, closings, time) == earlier + [t];
      assert TicketOfTrade(t) == TicketOf(last.position);
      TradeCountOfLonger(earlier, t, ticket);
      OpenCountOfLonger(PositionsOf(before), last.position, ticket);
      hide OpenCount, TradeCount, TradesOf, TradeOf, TicketOf, TicketOfTrade;
    }
  }

  /** Open and booked together: what closing conserves. */
  function Count(a: Account, ticket: Ticket): nat {
    OpenCount(a.positions, ticket) + TradeCount(a.trades, ticket)
  }

  lemma RetiringMovesTickets(a: Account, rule: ExitRule, time: int, ticket: Ticket)
    requires Ledger(a)
    ensures Count(Retired(a, rule, time), ticket) == Count(a, ticket)
    ensures |Retired(a, rule, time).positions| <= |a.positions|
  {
    hide Ledger, Retired, Triggered, StillOpen, PositionsOf, OpenCount, TradeCount, TradesOf;
    RetiringKeepsLedger(a, rule, time);
    SplitFollowsRule(a.positions, rule);
    SplitKeepsTickets(a.positions, rule, ticket);
    TradesCarryTickets(a.config, a.trades, Triggered(a.positions, rule), time, ticket);
  }

  lemma OpeningAddsItsTicket(a: Account, signal: Signal, side: PositionSide, price: real, time: int, ticket: Ticket)
    requires Ledger(a)
    ensures var b := Opened(a, side, price, time, signal.reason);
      Count(b, ticket) == Count(a, ticket) + if Opens(a, Step.Fill(signal, price, time), b, ticket) then 1 else 0
  {
    var b := Opened(a, side, price, time, signal.reason);
    OpeningKeepsLedger(a, side, price, time, signal.reason);
    hide Opened, Ledger, OpenCount, TradeCount, TicketOf;
    if b != a {
      var p := b.positions[|a.positions|];
      assert b.positions == a.positions + [p];
      OpenCountOfLonger(a.positions, p, ticket);
    }
  }

  lemma StepMovesTickets(a: Account, step: Step, ticket: Ticket)
    requires Ledger(a)
    ensures Count(Next(a, step), ticket) == Count(a, ticket) + if Opens(a, step, Next(a, step), ticket) then 1 else 0
  {
    hide Ledger, Opened, Retired, Count, TicketOf;
    assert ValidConfig(a.config) by { LedgerIsValid(a); }
    match step
    case Fill(signal, price, time) =>
      OpeningAddsItsTicket(a, signal, Long, price, time, ticket);
      OpeningAddsItsTicket(a, signal, Short, price, time, ticket);
      RetiringMovesTickets(a, SideRule(Long, ExitPrice(a.config, Long, price), StrategySignal), time, ticket);
      RetiringMovesTickets(a, SideRule(Short, ExitPrice(a.config, Short, price), StrategySignal), time, ticket);
    case CheckStops(high, low, time) =>
      RetiringMovesTickets(a, StopRule(high, low), time, ticket);
    case ForceClose(price, time) =>
      RetiringMovesTickets(a, SideRule(Long, ExitPrice(a.config, Long, price), EndOfBacktest), time, ticket);
      var b := Closed(a, Long, price, time, EndOfBacktest);
      RetiringKeepsLedger(a, SideRule(Long, ExitPrice(a.config, Long, price), EndOfBacktest), time);
      RetiringMovesTickets(b, SideRule(Short, ExitPrice(b.config, Short, price), EndOfBacktest), time, ticket);
  }

  /** Every position a run ever opened is either still open or booked as exactly one trade, with its entry data. */
  lemma {:induction false} EveryPositionIsAccountedFor(initialBalance: real, config: Config, sizing: Sizing,
                                                       steps: seq<Step>, ticket: Ticket)
    requires ValidConfig(config)
    ensures var a := NewAccount(initialBalance, config, sizing);
      Count(After(a, steps), ticket) == OpenedCount(a, steps, ticket)
  {
    var a := NewAccount(initialBalance, config, sizing);
    if steps != [] {
      var n := |steps| - 1;
      EveryPositionIsAccountedFor(initialBalance, config, sizing, steps[..n], ticket);
      RunKeepsLedger(initialBalance, config, sizing, steps[..n]);
      StepMovesTickets(After(a, steps[..n]), steps[n], ticket);
      assert After(a, steps) == Next(After(a, steps[..n]), steps[n]);
      hide Ledger, Next, Count, TicketOf, After, Opens;
    }
  }

  // ---------------------------------------------------------------- equity

  /** What an open position has earned at a price, as equity counts it: a spot long has already borne its entry fee. */
  function OpenProfit(p: Position, mark: real): real {
    Gross(p.side, p.quantity, p.entryPrice, mark) - if p.side.Long? && p.leverage == 1.0 then p.entryFee else 0.0
  }

  function OpenProfits(positions: seq<Position>, mark: real): real {
    if positions == [] then 0.0
    else OpenProfits(positions[..|positions| - 1], mark) + OpenProfit(positions[|positions| - 1], mark)
  }

  lemma ValueIsMarginPlusProfit(c: Config, p: Position, mark: real)
    requires Sound(c, p)
    ensures ValueAt(p, mark) == p.margin + OpenProfit(p, mark)
  {
    assert (mark - p.entryPrice) * p.quantity == p.quantity * mark - p.quantity * p.entryPrice;
  }

  lemma {:induction false} OpenValueIsMarginsPlusProfits(c: Config, positions: seq<Position>, mark: real)
    requires forall p :: p in positions ==> Sound(c, p)
    ensures OpenValue(positions, mark) == Margins(positions) + OpenProfits(positions, mark)
  {
    if positions != [] {
      OpenValueIsMarginsPlusProfits(c, positions[..|positions| - 1], mark);
      ValueIsMarginPlusProfit(c, positions[|positions| - 1], mark);
      hide Sound, ValueAt, OpenProfit;
    }
  }

  /** In every reachable state equity is the initial balance, plus the profit of every trade, plus the open profit. */
  lemma EquityAddsUp(initialBalance: real, config: Config, sizing: Sizing, steps: seq<Step>, mark: real)
    requires ValidConfig(config)
    ensures var a := After(NewAccount(initialBalance, config, sizing), steps);
      Equity(a, mark) == initialBalance + Pnls(a.trades) + OpenProfits(a.positions, mark)
  {
    var a := After(NewAccount(initialBalance, config, sizing), steps);
    RunKeepsLedger(initialBalance, config, sizing, steps);
    OpenValueIsMarginsPlusProfits(config, a.positions, mark);
    hide After, Sound, Honest;
  }

  lemma HasMember(positions: seq<Position>)
    ensures positions != [] ==> exists p :: p in positions
  {
    if positions != [] {
      assert positions[0] in positions;
    }
  }

  lemma {:induction false} BothSidesRetired(positions: seq<Position>, long: ExitRule, short: ExitRule)
    requires forall p: Position :: (p.side.Long? ==> long(p).Some?) && (p.side.Short? ==> short(p).Some?)
    ensures StillOpen(StillOpen(positions, long), short) == []
  {
    SplitFollowsRule(positions, long);
    SplitFollowsRule(StillOpen(positions, long), short);
    HasMember(StillOpen(StillOpen(positions, long), short));
  }

  lemma ForceCloseFlattens(a: Account, price: real, time: int)
    requires Ledger(a)
    ensures Next(a, ForceClose(price, time)).positions == []
  {
    var long := SideRule(Long, ExitPrice(a.config, Long, price), EndOfBacktest);
    var b := Closed(a, Long, price, time, EndOfBacktest);
    var short := SideRule(Short, ExitPrice(b.config, Short, price), EndOfBacktest);
    assert b == Retired(a, long, time);
    assert Next(a, ForceClose(price, time)) == Retired(b, short, time);
    hide Ledger, Next, Retired, StillOpen, Closed;
    RetiringKeepsLedger(a, long, time);
    RetiringKeepsLedger(b, short, time);
    BothSidesRetired(a.positions, long, short);
  }

  /** After `force_close` the account is flat: equity at any price is the cash, and the cash is all profit realized. */
  lemma ForceCloseLeavesCash(initialBalance: real, config: Config, sizing: Sizing, steps: seq<Step>, price: real,
                             time: int, mark: real)
    requires ValidConfig(config)
    ensures var a := After(NewAccount(initialBalance, config, sizing), steps + [ForceClose(price, time)]);
      && a.positions == [] && Equity(a, mark) == a.balance && a.balance == initialBalance + Pnls(a.trades)
  {
    var start := NewAccount(initialBalance, config, sizing);
    var longer := steps + [ForceClose(price, time)];
    assert longer[..|steps|] == steps;
    assert After(start, longer) == Next(After(start, steps), ForceClose(price, time));
    RunKeepsLedger(initialBalance, config, sizing, steps);
    RunKeepsLedger(initialBalance, config, sizing, longer);
    ForceCloseFlattens(After(start, steps), price, time);
    hide After, Next, Sound, Honest;
  }

  // ---------------------------------------------------------------- intrabar stops

  /** A bar's range reaches a level: from above for a long's stop or a short's target, from below otherwise. */
  predicate Reaches(level: Option<real>, fromAbove: bool, high: real, low: real) {
    level.Some? && if fromAbove then low <= level.value else high >= level.value
  }

  /** One bar closes exactly the positions it reached, each at its own level; the stop wins when both are reached. */
  lemma StopsCloseWhatTheBarReached(positions: seq<Position>, high: real, low: real)
    ensures forall p :: p in StillOpen(positions, StopRule(high, low)) <==>
              p in positions && !Reaches(p.stopLossPrice, p.side.Long?, high, low)
                && !Reaches(p.takeProfitPrice, p.side.Short?, high, low)
    ensures forall c :: c in Triggered(positions, StopRule(high, low)) <==>
              && c.position in positions
              && (if Reaches(c.position.stopLossPrice, c.position.side.Long?, high, low)
                  then c.exit == Exit(c.position.stopLossPrice.value, StopLoss)
                  else Reaches(c.position.takeProfitPrice, c.position.side.Short?, high, low)
                       && c.exit == Exit(c.position.takeProfitPrice.value, TakeProfit))
  {
    SplitFollowsRule(positions, StopRule(high, low));
  }

  lemma ExitFeeIsNotNegative(c: Config, p: Position, price: real)
    requires ValidConfig(c) && Sound(c, p)
    ensures FeeAt(c, p, price) >= 0.0
  {
    hide Spent, Leveraged;
    if price > 0.0 {
      ProductPositive(p.quantity, price);
      ProductNonNegative(p.quantity * price, c.commissionValue / 100.0);
      ProductNonNegative(p.quantity, c.commissionValue);
    }
  }

  lemma NegativeMove(side: PositionSide, quantity: real, entryPrice: real, exitPrice: real, distance: real)
    requires PriceMove(side, entryPrice, exitPrice) == -distance && distance * quantity > 0.0
    ensures Gross(side, quantity, entryPrice, exitPrice) < 0.0
  {
    assert (-distance) * quantity == -(distance * quantity);
  }

  /** A stop-loss hit always loses money, under every commission, side and leverage. */
  lemma StopLossLoses(c: Config, p: Position)
    requires ValidConfig(c) && Sound(c, p) && p.stopLossPrice.Some?
    ensures RealizedAt(c, p, p.stopLossPrice.value).pnl < 0.0
  {
    var stop := p.stopLossPrice.value;
    StopIsBeyond(p.side, p.entryPrice, c.stopLossPct.value);
    ExitFeeIsNotNegative(c, p, stop);
    PnlIsPriceMoveLessFees(p.side, p.leverage, p.quantity, p.entryPrice, stop, p.margin, p.entryFee, FeeAt(c, p, stop));
    var distance := PercentOf(p.entryPrice, c.stopLossPct.value);
    ProductPositive(distance, p.quantity);
    NegativeMove(p.side, p.quantity, p.entryPrice, stop, distance);
    hide Gross, Spent, Leveraged, FeeAt, RealizedPnl, StopLossPrice, PercentOf;
  }

  lemma ShareOfCost(side: PositionSide, quantity: real, entryPrice: real, exitPrice: real, percent: real)
    requires quantity > 0.0 && PercentOf(entryPrice, percent) > 0.0
    requires PriceMove(side, entryPrice, exitPrice) == PercentOf(entryPrice, percent)
    ensures Gross(side, quantity, entryPrice, exitPrice) == PercentOf(Spent(quantity, entryPrice, 0.0), percent) > 0.0
  {
    var fraction := percent / 100.0;
    ProductPositive(entryPrice * fraction, quantity);
    assert (entryPrice * fraction) * quantity == quantity * entryPrice * fraction;
  }

  /**
   * A take-profit hit earns the target's share of what the contracts cost at entry, less both fees: money is
   * made exactly when that share exceeds the fees, under every commission, side and leverage.
   */
  lemma TakeProfitEarnsItsShare(c: Config, p: Position)
    requires ValidConfig(c) && Sound(c, p) && p.takeProfitPrice.Some?
    ensures var target, share := p.takeProfitPrice.value,
                                 PercentOf(Spent(p.quantity, p.entryPrice, 0.0), c.takeProfitPct.value);
      var pnl, fees := RealizedAt(c, p, target).pnl, p.entryFee + FeeAt(c, p, target);
      && share > 0.0 && pnl == share - fees && (pnl > 0.0 <==> share > fees)
  {
    var target := p.takeProfitPrice.value;
    TargetIsBeyond(p.side, p.entryPrice, c.takeProfitPct.value);
    PnlIsPriceMoveLessFees(p.side, p.leverage, p.quantity, p.entryPrice, target, p.margin, p.entryFee,
                           FeeAt(c, p, target));
    ShareOfCost(p.side, p.quantity, p.entryPrice, target, c.takeProfitPct.value);
    hide Gross, Spent, Leveraged, FeeAt, RealizedPnl, TakeProfitPrice, PercentOf, PriceMove;
  }

  // ---------------------------------------------------------------- a round trip

  /** What slippage takes of a quantity bought and sold. */
  function TwiceSlipped(delta: real, quantity: real): real {
    2.0 * delta * quantity
  }

  lemma SlippageLoss(side: PositionSide, quantity: real, price: real, delta: real)
    requires 0.0 <= delta <= price && quantity > 0.0
    ensures Gross(side, quantity, EntryEffectivePrice(side, price, delta), ExitEffectivePrice(side, price, delta))
         == -TwiceSlipped(delta, quantity)
    ensures TwiceSlipped(delta, quantity) >= 0.0 && (TwiceSlipped(delta, quantity) == 0.0 <==> delta == 0.0)
  {
    SlippageCosts(side, price, delta);
    ProductNonNegative(delta, quantity);
    if delta > 0.0 { ProductPositive(delta, quantity); }
  }

  lemma SlippageIsNotNegative(c: Config)
    requires ValidConfig(c)
    ensures SlippageDelta(c) >= 0.0
  {
    ProductNonNegative(c.slippageTicks as real, c.tickSize);
  }

  /** A lone position closes into one trade. */
  lemma LonePositionCloses(a: Account, p: Position, price: real, time: int)
    requires Ledger(a) && a.positions == [p]
    ensures var closing := Closing(p, Exit(ExitPrice(a.config, p.side, price), StrategySignal));
      var b := Closed(a, p.side, price, time, StrategySignal);
      && b.positions == [] && b.balance == a.balance + p.margin + TradeOf(a.config, closing, time).pnl
  {
    var rule := SideRule(p.side, ExitPrice(a.config, p.side, price), StrategySignal);
    var closing := Closing(p, Exit(ExitPrice(a.config, p.side, price), StrategySignal));
    assert [p][..0] == [];
    assert Triggered([p], rule) == [closing] && StillOpen([p], rule) == [];
    var kept := a.(positions := []);
    assert [closing][..0] == [];
    assert Settled(kept, [closing], time) == ClosedOne(kept, closing, time);
    assert p in a.positions;
    ClosedTradeIsHonest(a.config, closing, time);
  }

  /** What opening from flat leaves behind. */
  lemma FirstPosition(a: Account, side: PositionSide, price: real, time: int, reason: string)
    requires Ledger(a) && a.positions == [] && Opened(a, side, price, time, reason) != a
    ensures var b := Opened(a, side, price, time, reason);
      && |b.positions| == 1 && b.config == a.config && b.balance == a.balance - b.positions[0].margin
      && b.positions[0].side == side && b.positions[0].entryPrice == EntryPrice(a.config, side, price)
      && b.positions[0].quantity > 0.0
      && b.positions[0].entryFee >= 0.0 && (b.positions[0].entryFee == 0.0 <==> a.config.commissionValue == 0.0)
  {
    EntryIsFunded(a, side, price, Equity(a, price));
    hide EntryCapital, EntryPrice;
  }

  lemma LedgerIsSound(a: Account, p: Position)
    requires Ledger(a) && p in a.positions
    ensures Sound(a.config, p) && ValidConfig(a.config)
  {
  }

  lemma FreeWithoutCommission(c: Config, p: Position, price: real)
    ensures c.commissionValue == 0.0 ==> FeeAt(c, p, price) == 0.0
  {
  }

  /**
   * Buying and selling at one and the same price never gains: the account loses the slippage twice over and
   * both fees, and breaks even exactly without slippage and without commission.
   */
  lemma RoundTripAtOnePriceLoses(a: Account, side: PositionSide, price: real, time: int, reason: string, later: int)
    requires Ledger(a) && a.positions == [] && Opened(a, side, price, time, reason) != a
    requires SlippageDelta(a.config) <= price
    ensures var b := Opened(a, side, price, time, reason);
      var c, p := Closed(b, side, price, later, StrategySignal), b.positions[|b.positions| - 1];
      var fees := p.entryFee + FeeAt(a.config, p, ExitPrice(a.config, side, price));
      && c.positions == [] && c.balance == a.balance - TwiceSlipped(SlippageDelta(a.config), p.quantity) - fees
      && c.balance <= a.balance
      && (c.balance == a.balance <==> SlippageDelta(a.config) == 0.0 && a.config.commissionValue == 0.0)
  {
    var b := Opened(a, side, price, time, reason);
    var p, exit := b.positions[|b.positions| - 1], ExitPrice(a.config, side, price);
    OpeningKeepsLedger(a, side, price, time, reason);
    FirstPosition(a, side, price, time, reason);
    LedgerIsSound(b, p);
    SlippageIsNotNegative(a.config);
    hide Ledger, Opened, EntryEffectivePrice, ExitEffectivePrice, SlippageDelta, Closed, FeeAt, Gross, Sound, TradeOf,
      RealizedAt, TwiceSlipped;
    LonePositionCloses(b, p, price, later);
    TradePnl(a.config, p, Exit(exit, StrategySignal), later);
    SlippageLoss(side, p.quantity, price, SlippageDelta(a.config));
    ExitFeeIsNotNegative(a.config, p, exit);
    FreeWithoutCommission(a.config, p, exit);
  }
}
