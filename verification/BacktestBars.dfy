/** One bar of a backtest, told from the accounts before and after it: what it fills and what it stops out. */
module BacktestBars {
  import opened Prelude
  import opened Market
  import opened Engine
  import opened BrokerPolicies
  import opened PaperExchange
  import Exchange = PaperExchange
  import opened PaperLedger
  import opened EntrySizing
  import RiskSizing
  import opened BacktestRun

  // ---------------------------------------------------------------- what a step of the account may do

  /** The bar's range reaches the position's stop. */
  predicate StopReached(p: Position, candle: Candle) {
    p.stopLossPrice.Some?
    && if p.side.Long? then candle.low <= p.stopLossPrice.value else candle.high >= p.stopLossPrice.value
  }

  /** The bar's range reaches the position's target. */
  predicate TargetReached(p: Position, candle: Candle) {
    p.takeProfitPrice.Some?
    && if p.side.Long? then candle.high >= p.takeProfitPrice.value else candle.low <= p.takeProfitPrice.value
  }

  /** Between the two accounts the position was booked as a trade with this exit. */
  ghost predicate BookedSince(before: Account, after: Account, p: Position, exitPrice: real, reason: ExitReason,
                              time: int) {
    && before.trades <= after.trades
    && exists t :: t in after.trades[|before.trades|..] && Books(before.config, p, exitPrice, reason, time, t)
  }

  /** Positions only became trades, one each. */
  ghost predicate OnlyCloses(before: Account, after: Account) {
    && before.trades <= after.trades && (forall p :: p in after.positions ==> p in before.positions)
    && |after.positions| + |after.trades| == |before.positions| + |before.trades|
    && after.config == before.config && after.sizing == before.sizing
  }

  /** An entry at the open: taken or not, and if so for what. */
  ghost predicate Enters(before: Account, side: PositionSide, candle: Candle, reason: string, after: Account)
    requires ValidConfig(before.config)
  {
    if Takes(before, side, candle.open) then
      && |after.positions| == |before.positions| + 1
      && IsEntry(before, side, candle.open, candle.openTime, reason, after.positions[|before.positions|])
      && after == before.(balance := before.balance - after.positions[|before.positions|].margin,
                          positions := before.positions + [after.positions[|before.positions|]])
    else after == before
  }

  /** Exactly the positions of one side are closed, each booked with this exit. */
  ghost predicate ClosesOut(before: Account, side: PositionSide, exitPrice: real, reason: ExitReason, time: int,
                            after: Account) {
    && OnlyCloses(before, after)
    && (forall p :: p in before.positions ==> (p in after.positions <==> p.side != side))
    && forall p :: p in before.positions && p.side == side ==> BookedSince(before, after, p, exitPrice, reason, time)
  }

  /** An exit at the open: that side is closed, at the open slipped. */
  ghost predicate Leaves(before: Account, side: PositionSide, candle: Candle, after: Account) {
    ClosesOut(before, side, Slipped(before.config, candle.open, side.Short?), StrategySignal, candle.openTime, after)
  }

  /** What the pending signal does at the open. */
  ghost predicate FillsAtOpen(before: Account, pending: Option<Signal>, candle: Candle, after: Account)
    requires ValidConfig(before.config)
  {
    if pending.None? then after == before
    else
      match pending.value.action
      case Buy => Enters(before, Long, candle, pending.value.reason, after)
      case OpenShort => Enters(before, Short, candle, pending.value.reason, after)
      case Sell => Leaves(before, Long, candle, after)
      case Cover => Leaves(before, Short, candle, after)
      case Hold => after == before
  }

  /**
   * What the bar's range does: exactly the positions it reached are closed, each at its own level, the stop
   * winning.
   */
  ghost predicate StopsOut(before: Account, candle: Candle, after: Account) {
    && OnlyCloses(before, after)
    && (forall p :: p in before.positions ==>
          (p in after.positions <==> !StopReached(p, candle) && !TargetReached(p, candle)))
    && (forall p :: p in before.positions && StopReached(p, candle) ==>
          BookedSince(before, after, p, p.stopLossPrice.value, StopLoss, candle.closeTime))
    && (forall p :: p in before.positions && !StopReached(p, candle) && TargetReached(p, candle) ==>
          BookedSince(before, after, p, p.takeProfitPrice.value, TakeProfit, candle.closeTime))
  }

  // ---------------------------------------------------------------- retiring by a rule

  lemma {:induction false} OneTradeEach(c: Config, closings: seq<Closing>, time: int)
    ensures |TradesOf(c, closings, time)| == |closings|
  {
    if closings != [] { OneTradeEach(c, closings[..|closings| - 1], time); }
  }

  lemma {:induction false} SplitKeepsCount(positions: seq<Position>, rule: ExitRule)
    ensures |Triggered(positions, rule)| + |StillOpen(positions, rule)| == |positions|
  {
    if positions != [] { SplitKeepsCount(positions[..|positions| - 1], rule); }
  }

  /** Retiring by a rule closes exactly the positions it names, each booked with the rule's exit. */
  lemma RetiringBooks(a: Account, rule: ExitRule, time: int)
    requires Ledger(a)
    ensures var b := Retired(a, rule, time);
      && OnlyCloses(a, b) && Ledger(b)
      && (forall p :: p in a.positions ==> (p in b.positions <==> rule(p).None?))
      && (forall p :: p in a.positions && rule(p).Some? ==>
            BookedSince(a, b, p, rule(p).value.price, rule(p).value.reason, time))
  {
    hide Ledger, Triggered, StillOpen, TradesOf, TradeOf, Books;
    var b := Retired(a, rule, time);
    RetiringKeepsLedger(a, rule, time);
    SettledKeeps(a.(positions := StillOpen(a.positions, rule)), Triggered(a.positions, rule), time);
    assert b.config == a.config && b.sizing == a.sizing;
    SplitFollowsRule(a.positions, rule);
    SplitKeepsCount(a.positions, rule);
    OneTradeEach(a.config, Triggered(a.positions, rule), time);
    forall p | p in a.positions && rule(p).Some?
      ensures BookedSince(a, b, p, rule(p).value.price, rule(p).value.reason, time)
    {
      var closing := Closing(p, rule(p).value);
      RiskSizing.BookedTrade(a.config, Triggered(a.positions, rule), closing, time);
      LedgerIsSound(a, p);
      ClosingBooks(a.config, p, rule(p).value, time);
      assert b.trades[|a.trades|..] == TradesOf(a.config, Triggered(a.positions, rule), time);
    }
    hide Retired;
  }

  // ---------------------------------------------------------------- one bar

  lemma SideRuleMeans(side: PositionSide, price: real, reason: ExitReason, p: Position)
    ensures SideRule(side, price, reason)(p) == if p.side == side then Some(Exit(price, reason)) else None
  {
  }

  lemma StopRuleMeans(candle: Candle, p: Position)
    ensures StopRule(candle.high, candle.low)(p)
         == if StopReached(p, candle) then Some(Exit(p.stopLossPrice.value, StopLoss))
            else if TargetReached(p, candle) then Some(Exit(p.takeProfitPrice.value, TakeProfit))
            else None
  {
  }

  /** Closing one side at a price: slipped, and all of it. */
  lemma ClosingClosesOut(a: Account, side: PositionSide, price: real, time: int, reason: ExitReason)
    requires Ledger(a)
    ensures ClosesOut(a, side, Slipped(a.config, price, side.Short?), reason, time,
                      Closed(a, side, price, time, reason))
    ensures Ledger(Closed(a, side, price, time, reason))
  {
    hide Ledger, Retired, OnlyCloses, BookedSince, ExitPrice, Slipped;
    var exitPrice := ExitPrice(a.config, side, price);
    PricesAreSlipped(a.config, side, price);
    RetiringBooks(a, SideRule(side, exitPrice, reason), time);
    forall p ensures SideRule(side, exitPrice, reason)(p)
                  == if p.side == side then Some(Exit(exitPrice, reason)) else None {
      SideRuleMeans(side, exitPrice, reason, p);
    }
    hide SideRule;
  }

  lemma OpeningEnters(a: Account, side: PositionSide, candle: Candle, reason: string)
    requires Ledger(a) && ValidConfig(a.config)
    ensures Enters(a, side, candle, reason, Opened(a, side, candle.open, candle.openTime, reason))
    ensures Ledger(Opened(a, side, candle.open, candle.openTime, reason))
  {
    hide Ledger, Opened, IsEntry, Takes;
    EntryOpens(a, side, candle.open, candle.openTime, reason);
    OpeningKeepsLedger(a, side, candle.open, candle.openTime, reason);
  }

  lemma FillFills(b: Backtest, candle: Candle)
    requires b.Ready() && Ledger(b.account) && ValidConfig(b.account.config)
    ensures FillsAtOpen(b.account, b.pending, candle, FilledAtOpen(b, candle)) && Ledger(FilledAtOpen(b, candle))
  {
    hide Ledger, Opened, Closed, Enters, ClosesOut, Slipped, Wired;
    if b.pending.Some? {
      OpeningEnters(b.account, Long, candle, b.pending.value.reason);
      OpeningEnters(b.account, Short, candle, b.pending.value.reason);
      ClosingClosesOut(b.account, Long, candle.open, candle.openTime, StrategySignal);
      ClosingClosesOut(b.account, Short, candle.open, candle.openTime, StrategySignal);
    }
  }

  lemma CheckStopsOut(a: Account, candle: Candle)
    requires Ledger(a) && ValidConfig(a.config)
    ensures var after := Exchange.Next(a, CheckStops(candle.high, candle.low, candle.closeTime));
      StopsOut(a, candle, after) && Ledger(after)
  {
    hide Ledger, Retired, OnlyCloses, BookedSince;
    var rule := StopRule(candle.high, candle.low);
    RetiringBooks(a, rule, candle.closeTime);
    forall p ensures rule(p) == if StopReached(p, candle) then Some(Exit(p.stopLossPrice.value, StopLoss))
                                else if TargetReached(p, candle) then Some(Exit(p.takeProfitPrice.value, TakeProfit))
                                else None {
      StopRuleMeans(candle, p);
    }
    hide StopReached, TargetReached, StopRule;
  }

  /**
   * Bar `i` of a backtest, as the accounts before and after it show: the signal of the bar before is filled at the
   * open, and what is then open is held against the bar's range.
   */
  lemma BarFillsThenStops(b: Backtest, candles: seq<Candle>, i: nat) returns (filled: Account)
    requires b.Ready() && Ledger(b.account) && i < |candles|
    ensures var before, after := Simulated(b, candles[..i]), Simulated(b, candles[..i + 1]);
      && ValidConfig(before.account.config) && Ledger(before.account) && Ledger(after.account)
      && FillsAtOpen(before.account, before.pending, candles[i], filled)
      && StopsOut(filled, candles[i], after.account)
  {
    hide Ledger, Simulated, OnTick, Wired, FillsAtOpen, StopsOut, Equity, FilledAtOpen;
    var before := Simulated(b, candles[..i]);
    OneEquityPointPerBar(b, candles[..i]);
    LedgerIsValid(before.account);
    SimulatedLonger(b, candles, i);
    filled := FilledAtOpen(before, candles[i]);
    FillFills(before, candles[i]);
    CheckStopsOut(filled, candles[i]);
  }

  /** After every bar, no open position has a stop or a target that the bar's range reached. */
  lemma NothingReachedStaysOpen(b: Backtest, candles: seq<Candle>)
    requires b.Ready() && Ledger(b.account) && candles != []
    ensures var last := candles[|candles| - 1];
      forall p :: p in Simulated(b, candles).account.positions ==> !StopReached(p, last) && !TargetReached(p, last)
  {
    hide Simulated, FillsAtOpen, Ledger, StopReached, TargetReached, BookedSince;
    var n := |candles| - 1;
    var filled := BarFillsThenStops(b, candles, n);
    assert candles[..n + 1] == candles;
  }

  /** The side the strategy is told is None exactly when nothing is open, and else that of every open position. */
  lemma SideIsHeld(b: Backtest, candles: seq<Candle>)
    requires b.Ready() && Ledger(b.account)
    ensures var a := Simulated(b, candles).account;
      && (CurrentSide(a).None? <==> a.positions == [])
      && forall p :: p in a.positions ==> CurrentSide(a) == Some(p.side)
  {
    OneEquityPointPerBar(b, candles);
    hide Simulated, Sound, Honest;
  }

  /** After the bar a pending SELL or COVER was filled on, nothing is open on its side. */
  lemma ExitLeavesNothing(b: Backtest, candles: seq<Candle>, i: nat, side: PositionSide)
    requires b.Ready() && Ledger(b.account) && i < |candles|
    requires var pending := Simulated(b, candles[..i]).pending;
      pending.Some? && pending.value.action == (if side.Long? then Sell else Cover)
    ensures forall p :: p in Simulated(b, candles[..i + 1]).account.positions ==> p.side != side
  {
    hide Simulated, Ledger, StopReached, TargetReached, BookedSince, Enters;
    var filled := BarFillsThenStops(b, candles, i);
  }

  /** After the bar a pending BUY or OPEN_SHORT was taken on, its position is open, or stopped out within the bar. */
  lemma EntryIsOpenOrStopped(b: Backtest, candles: seq<Candle>, i: nat, side: PositionSide) returns (p: Position)
    requires b.Ready() && Ledger(b.account) && i < |candles|
    requires var before := Simulated(b, candles[..i]);
      && ValidConfig(before.account.config)
      && before.pending.Some? && before.pending.value.action == (if side.Long? then Buy else OpenShort)
      && Takes(before.account, side, candles[i].open)
    ensures var before, after := Simulated(b, candles[..i]), Simulated(b, candles[..i + 1]).account;
      && IsEntry(before.account, side, candles[i].open, candles[i].openTime, before.pending.value.reason, p)
      && (if StopReached(p, candles[i]) then
            BookedSince(before.account, after, p, p.stopLossPrice.value, StopLoss, candles[i].closeTime)
          else if TargetReached(p, candles[i]) then
            BookedSince(before.account, after, p, p.takeProfitPrice.value, TakeProfit, candles[i].closeTime)
          else p in after.positions)
  {
    hide Simulated, Ledger, StopReached, TargetReached, IsEntry, Takes, Books, Leaves;
    var filled := BarFillsThenStops(b, candles, i);
    p := filled.positions[|Simulated(b, candles[..i]).account.positions|];
    assert p in filled.positions;
  }

  // ---------------------------------------------------------------- the end

  lemma FinishedIsTwoCloses(b: Backtest, last: Candle)
    requires b.Ready() && Ledger(b.account)
    ensures var c := Closed(b.account, Long, last.close, last.closeTime, EndOfBacktest);
      && Finished(b, last) == Closed(c, Short, last.close, last.closeTime, EndOfBacktest)
      && c.config == b.account.config && Finished(b, last).config == b.account.config
  {
    hide Ledger, Retired;
    NextKeepsConfig(b.account, ForceClose(last.close, last.closeTime));
    RetiredKeepsConfig(b.account, SideRule(Long, ExitPrice(b.account.config, Long, last.close), EndOfBacktest),
                       last.closeTime);
  }

  lemma BookedStays(a: Account, c: Account, end: Account, p: Position, exitPrice: real, reason: ExitReason, time: int)
    requires BookedSince(a, c, p, exitPrice, reason, time) && c.trades <= end.trades
    ensures BookedSince(a, end, p, exitPrice, reason, time)
  {
    hide Books;
    var t :| t in c.trades[|a.trades|..] && Books(a.config, p, exitPrice, reason, time, t);
    var i :| 0 <= i < |c.trades| - |a.trades| && c.trades[|a.trades|..][i] == t;
    assert end.trades[|a.trades|..][i] == t;
  }

  lemma BookedBefore(a: Account, c: Account, end: Account, p: Position, exitPrice: real, reason: ExitReason, time: int)
    requires a.trades <= c.trades && a.config == c.config && BookedSince(c, end, p, exitPrice, reason, time)
    ensures BookedSince(a, end, p, exitPrice, reason, time)
  {
    hide Books;
    var t :| t in end.trades[|c.trades|..] && Books(c.config, p, exitPrice, reason, time, t);
    var i :| 0 <= i < |end.trades| - |c.trades| && end.trades[|c.trades|..][i] == t;
    assert end.trades[|a.trades|..][|c.trades| - |a.trades| + i] == t;
  }

  lemma BothClosedOut(a: Account, c: Account, end: Account, long: real, short: real, time: int)
    requires ClosesOut(a, Long, long, EndOfBacktest, time, c) && ClosesOut(c, Short, short, EndOfBacktest, time, end)
    ensures OnlyCloses(a, end)
    ensures forall p :: p in a.positions ==>
              BookedSince(a, end, p, if p.side.Long? then long else short, EndOfBacktest, time)
  {
    forall p | p in a.positions
      ensures BookedSince(a, end, p, if p.side.Long? then long else short, EndOfBacktest, time)
    {
      if p.side == Long {
        BookedStays(a, c, end, p, long, EndOfBacktest, time);
      } else {
        BookedBefore(a, c, end, p, short, EndOfBacktest, time);
      }
    }
    hide BookedSince;
  }

  /** Whatever is open at the end is booked at the last close, slipped. */
  lemma FinishBooksTheRest(b: Backtest, last: Candle)
    requires b.Ready() && Ledger(b.account)
    ensures var end := Finished(b, last);
      && OnlyCloses(b.account, end) && end.positions == []
      && forall p :: p in b.account.positions ==>
           BookedSince(b.account, end, p, Slipped(b.account.config, last.close, p.side.Short?), EndOfBacktest,
                       last.closeTime)
  {
    hide Ledger, Exchange.Next, Closed, ClosesOut, Slipped, OnlyCloses, BookedSince;
    var a, price, time := b.account, last.close, last.closeTime;
    var c := Closed(a, Long, price, time, EndOfBacktest);
    FinishedIsTwoCloses(b, last);
    ForceCloseFlattens(a, price, time);
    ClosingClosesOut(a, Long, price, time, EndOfBacktest);
    ClosingClosesOut(c, Short, price, time, EndOfBacktest);
    BothClosedOut(a, c, Finished(b, last), Slipped(a.config, price, false), Slipped(a.config, price, true), time);
  }
}
