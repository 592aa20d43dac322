/** What an entry costs and buys, from the account, the configuration and the price alone. */
module EntrySizing {
  import opened Prelude
  import opened RealArithmetic
  import opened Market
  import opened BrokerPolicies
  import opened PaperExchange
  import opened PaperLedger
  import RiskSizing

  // ---------------------------------------------------------------- prices

  /** A price so many ticks further up, or down, but never below zero. */
  function Slipped(c: Config, price: real, up: bool): real {
    var moved := c.slippageTicks as real * c.tickSize;
    if up then price + moved else if price > moved then price - moved else 0.0
  }

  /** Slippage is whole ticks, and works against the trader on either side, on the way in and on the way out. */
  lemma PricesAreSlipped(c: Config, side: PositionSide, price: real)
    ensures EntryPrice(c, side, price) == Slipped(c, price, side.Long?)
    ensures ExitPrice(c, side, price) == Slipped(c, price, side.Short?)
  {
  }

  // ---------------------------------------------------------------- what a sizing asks for

  /** The margin whose leveraged notional loses `risk` over a stop so many percent away. */
  function OverStop(risk: real, stop: real, leverage: real): real
    requires stop > 0.0 && leverage > 0.0
  {
    risk / (stop / 100.0) / leverage
  }

  /** The margin a sizing asks for; a risk-percent sizing asks for nothing without a stop. */
  function Asked(sizing: Sizing, equity: real, price: real, leverage: real, stopLossPct: Option<real>): real
    requires leverage > 0.0
  {
    match sizing.kind
    case PercentOfEquity => PercentOf(equity, sizing.value)
    case FixedCash => sizing.value
    case FixedContracts => sizing.value * price / leverage
    case RiskPercent =>
      if stopLossPct.None? || stopLossPct.value <= 0.0 then 0.0
      else OverStop(PercentOf(equity, sizing.value), stopLossPct.value, leverage)
  }

  lemma OverStopMeans(risk: real, stop: real, leverage: real)
    requires stop > 0.0 && leverage > 0.0
    ensures OverStop(risk, stop, leverage) * leverage * stop == 100.0 * risk
  {
    var notional := risk / (stop / 100.0);
    QuotientPositive(risk, stop / 100.0);
    QuotientPositive(notional, leverage);
    assert notional * stop == 100.0 * (notional * (stop / 100.0));
  }

  /**
   * What each sizing asks for: a percentage of equity or a sum of cash as margin, so many contracts as notional, or
   * the notional whose stop distance is worth a percentage of equity.
   */
  lemma AskedMeans(sizing: Sizing, equity: real, price: real, leverage: real, stopLossPct: Option<real>)
    requires leverage > 0.0 && (stopLossPct.Some? ==> stopLossPct.value > 0.0)
    ensures var asked := Asked(sizing, equity, price, leverage, stopLossPct);
      match sizing.kind
      case PercentOfEquity => asked * 100.0 == equity * sizing.value
      case FixedCash => asked == sizing.value
      case FixedContracts => asked * leverage == sizing.value * price
      case RiskPercent =>
        if stopLossPct.Some? then asked * leverage * stopLossPct.value == equity * sizing.value else asked == 0.0
  {
    hide OverStop;
    QuotientPositive(sizing.value * price, leverage);
    assert PercentOf(equity, sizing.value) * 100.0 == equity * sizing.value;
    hide PercentOf;
    if stopLossPct.Some? {
      OverStopMeans(PercentOf(equity, sizing.value), stopLossPct.value, leverage);
    }
  }

  lemma RiskIsAsked(price: real, equity: real, sizing: Sizing, leverage: real, stop: real)
    requires price > 0.0 && leverage > 0.0 && sizing.kind.RiskPercent? && 0.0 < stop < 100.0
    ensures DesiredCapital(price, equity, sizing, leverage, Some(stop)).margin
         == OverStop(PercentOf(equity, sizing.value), stop, leverage)
  {
    var o := RiskSizing.RiskOrder(Long, price, equity, 0.0, sizing.value, leverage, stop, Percent, 0.0);
    assert o.RiskPercentSizing() == sizing;
    RiskSizing.WantedCapital(o);
    hide DesiredCapital, PercentOf;
  }

  lemma DesiredIsAsked(price: real, equity: real, sizing: Sizing, leverage: real, stopLossPct: Option<real>)
    requires price > 0.0 && leverage > 0.0 && (stopLossPct.Some? ==> 0.0 < stopLossPct.value < 100.0)
    ensures DesiredCapital(price, equity, sizing, leverage, stopLossPct).margin
         == Asked(sizing, equity, price, leverage, stopLossPct)
  {
    hide OverStop, PercentOf;
    if sizing.kind.RiskPercent? && stopLossPct.Some? {
      RiskIsAsked(price, equity, sizing, leverage, stopLossPct.value);
      hide DesiredCapital;
    }
  }

  function Lesser(a: real, b: real): real {
    if a <= b then a else b
  }

  /** The margin deployed: what the sizing asks for, held to the cash there is. */
  function Deployed(a: Account, side: PositionSide, price: real): real
    requires ValidConfig(a.config)
  {
    Lesser(Asked(a.sizing, Equity(a, price), Slipped(a.config, price, side.Long?),
                 if side.Long? then a.config.longLeverage else a.config.shortLeverage, a.config.stopLossPct),
           a.balance)
  }

  /** The notional it carries. */
  function Notional(a: Account, side: PositionSide, price: real): real
    requires ValidConfig(a.config)
  {
    Deployed(a, side, price) * if side.Long? then a.config.longLeverage else a.config.shortLeverage
  }

  /** The commission leaves something of the notional to buy with. */
  predicate Affords(c: Config, notional: real) {
    match c.commissionType
    case Percent => c.commissionValue < 100.0
    case CashPerOrder => c.commissionValue < notional
    case CashPerContract => true
  }

  /** There is margin to deploy, a price to buy at, and the commission leaves something of the notional. */
  ghost predicate Buys(a: Account, side: PositionSide, price: real)
    requires ValidConfig(a.config)
  {
    && Slipped(a.config, price, side.Long?) > 0.0 && Deployed(a, side, price) > 0.0
    && Affords(a.config, Notional(a, side, price))
  }

  lemma Clamping(wanted: Capital, available: real, leverage: real)
    requires leverage > 0.0 && wanted.notional == Leveraged(wanted.margin, leverage)
    ensures var capital := Clamped(wanted, available);
      capital.margin == Lesser(wanted.margin, available)
      && (capital.margin > 0.0 ==> capital.notional == capital.margin * leverage > 0.0)
  {
    if wanted.margin > available {
      if available > 0.0 {
        ScaleCancels(available, wanted.margin, leverage);
        ProductPositive(available, leverage);
      }
    } else if wanted.margin > 0.0 {
      ProductPositive(wanted.margin, leverage);
    }
  }

  lemma MarginIsDeployed(price: real, equity: real, available: real, sizing: Sizing, leverage: real,
                         stopLossPct: Option<real>)
    requires price > 0.0 && leverage > 0.0 && (stopLossPct.Some? ==> 0.0 < stopLossPct.value < 100.0)
    ensures var capital, held := MarginAndNotional(price, equity, available, sizing, leverage, stopLossPct),
                                 Lesser(Asked(sizing, equity, price, leverage, stopLossPct), available);
      if held > 0.0 then capital.margin == held && capital.notional == held * leverage > 0.0 else capital == NO_CAPITAL
  {
    hide DesiredCapital, Asked, Clamped, Leveraged;
    DesiredIsLeveraged(price, equity, sizing, leverage, stopLossPct);
    DesiredIsAsked(price, equity, sizing, leverage, stopLossPct);
    Clamping(DesiredCapital(price, equity, sizing, leverage, stopLossPct), available, leverage);
  }

  // ---------------------------------------------------------------- what a notional buys

  /** Contracts at the price and the fee use up the notional, the fee being the commission model's. */
  ghost predicate Bought(c: Config, notional: real, price: real, quantity: real, fee: real) {
    && quantity > 0.0 && quantity * price + fee == notional
    && match c.commissionType
       case Percent => fee * 100.0 == notional * c.commissionValue
       case CashPerOrder => fee == c.commissionValue
       case CashPerContract => fee == quantity * c.commissionValue
  }

  lemma WholePercent(notional: real, value: real)
    requires notional > 0.0
    ensures notional - PercentOf(notional, value) > 0.0 <==> value < 100.0
    ensures PercentOf(notional, value) * 100.0 == notional * value
  {
    var left := 1.0 - value / 100.0;
    assert notional - notional * (value / 100.0) == notional * left;
    if left > 0.0 {
      ProductPositive(notional, left);
    } else {
      ProductNonNegative(notional, -left);
      assert notional * -left == -(notional * left);
    }
  }

  lemma PercentFill(notional: real, price: real, value: real)
    requires value >= 0.0 && notional > 0.0 && price > 0.0
    ensures var fee := PercentOf(notional, value);
      EntryFeeAndQuantity(notional, price, Percent, value)
      == if notional - fee <= 0.0 then Fill.Fill(0.0, 0.0) else Fill.Fill(fee, (notional - fee) / price)
  {
  }

  lemma NetBuys(net: real, fee: real, price: real)
    requires net > 0.0 && price > 0.0
    ensures net / price > 0.0 && net / price * price + fee == net + fee
  {
    QuotientPositive(net, price);
  }

  lemma PercentBuys(notional: real, price: real, value: real)
    requires value >= 0.0 && notional > 0.0 && price > 0.0
    ensures var fill := EntryFeeAndQuantity(notional, price, Percent, value);
      if value < 100.0
      then fill.quantity > 0.0 && fill.quantity * price + fill.fee == notional && fill.fee * 100.0 == notional * value
      else fill.quantity == 0.0
  {
    hide EntryFeeAndQuantity, PercentOf;
    PercentFill(notional, price, value);
    WholePercent(notional, value);
    var fee := PercentOf(notional, value);
    if value < 100.0 {
      NetBuys(notional - fee, fee, price);
    }
  }

  lemma OrderBuys(notional: real, price: real, value: real)
    requires value >= 0.0 && notional > 0.0 && price > 0.0
    ensures var fill := EntryFeeAndQuantity(notional, price, CashPerOrder, value);
      if value < notional
      then fill.quantity > 0.0 && fill.quantity * price + fill.fee == notional && fill.fee == value
      else fill.quantity == 0.0
  {
    QuotientPositive(notional - value, price);
  }

  lemma ContractBuys(notional: real, price: real, value: real)
    requires value >= 0.0 && notional > 0.0 && price > 0.0
    ensures var fill := EntryFeeAndQuantity(notional, price, CashPerContract, value);
      fill.quantity > 0.0 && fill.quantity * price + fill.fee == notional && fill.fee == fill.quantity * value
  {
    BoughtPerContract(notional, price, value);
  }

  lemma NotionalBuys(c: Config, notional: real, price: real)
    requires c.commissionValue >= 0.0 && notional > 0.0 && price > 0.0
    ensures var fill := EntryFeeAndQuantity(notional, price, c.commissionType, c.commissionValue);
      && (Affords(c, notional) <==> fill.quantity > 0.0)
      && (Affords(c, notional) ==> Bought(c, notional, price, fill.quantity, fill.fee))
  {
    hide EntryFeeAndQuantity;
    match c.commissionType
    case Percent => PercentBuys(notional, price, c.commissionValue);
    case CashPerOrder => OrderBuys(notional, price, c.commissionValue);
    case CashPerContract => ContractBuys(notional, price, c.commissionValue);
  }

  /** An entry is made exactly when it buys something; it deploys the margin and buys with all of the notional. */
  lemma EntryIsSized(a: Account, side: PositionSide, price: real)
    requires ValidConfig(a.config)
    ensures var entry := EntryCapital(a, side, price, Equity(a, price));
      && (entry.quantity > 0.0 && entry.margin > 0.0 <==> Buys(a, side, price))
      && (Buys(a, side, price) ==>
            && entry.margin == Deployed(a, side, price)
            && Bought(a.config, Notional(a, side, price), Slipped(a.config, price, side.Long?), entry.quantity,
                      entry.fee))
  {
    var c, effective := a.config, Slipped(a.config, price, side.Long?);
    PricesAreSlipped(c, side, price);
    hide Slipped, Asked, Equity, MarginAndNotional, EntryFeeAndQuantity, Bought, EntryPrice, Lesser, Affords;
    if effective > 0.0 {
      MarginIsDeployed(effective, Equity(a, price), a.balance, a.sizing, LeverageFor(side, c), c.stopLossPct);
      var capital := MarginAndNotional(effective, Equity(a, price), a.balance, a.sizing, LeverageFor(side, c),
                                       c.stopLossPct);
      assert Deployed(a, side, price) > 0.0 ==> capital.notional == Notional(a, side, price);
      if Deployed(a, side, price) > 0.0 {
        NotionalBuys(c, Notional(a, side, price), effective);
      }
    }
  }

  // ---------------------------------------------------------------- the position

  /** A level so many percent of the entry price to one side of it, when one is configured. */
  ghost predicate LevelAt(level: Option<real>, entryPrice: real, percent: Option<real>, above: bool) {
    && (level.Some? <==> percent.Some?)
    && (level.Some? ==>
          100.0 * (if above then level.value - entryPrice else entryPrice - level.value) == entryPrice * percent.value)
  }

  /** The position an entry at this price opens. */
  ghost predicate IsEntry(a: Account, side: PositionSide, price: real, time: int, reason: string, p: Position)
    requires ValidConfig(a.config)
  {
    && p.side == side && p.entryTime == time && p.entryReason == reason
    && p.entryPrice == Slipped(a.config, price, side.Long?) && p.margin == Deployed(a, side, price)
    && p.leverage == (if side.Long? then a.config.longLeverage else a.config.shortLeverage)
    && Bought(a.config, Notional(a, side, price), p.entryPrice, p.quantity, p.entryFee)
    && LevelAt(p.stopLossPrice, p.entryPrice, a.config.stopLossPct, side.Short?)
    && LevelAt(p.takeProfitPrice, p.entryPrice, a.config.takeProfitPct, side.Long?)
  }

  /** An entry is taken when nothing is open on the other side, there is room for one more, and it buys something. */
  ghost predicate Takes(a: Account, side: PositionSide, price: real)
    requires ValidConfig(a.config)
  {
    && (forall p :: p in a.positions ==> p.side == side) && |a.positions| < a.config.pyramiding
    && Buys(a, side, price)
  }

  lemma OffBy(price: real, percent: real)
    ensures 100.0 * (Above(price, percent / 100.0) - price) == price * percent
    ensures 100.0 * (price - Below(price, percent / 100.0)) == price * percent
  {
    var fraction := percent / 100.0;
    assert price * (1.0 + fraction) - price == price * fraction && price - price * (1.0 - fraction) == price * fraction;
    assert 100.0 * (price * fraction) == price * percent;
  }

  lemma LevelsOf(c: Config, side: PositionSide, entryPrice: real)
    ensures LevelAt(StopLossPrice(side, entryPrice, c.stopLossPct), entryPrice, c.stopLossPct, side.Short?)
    ensures LevelAt(TakeProfitPrice(side, entryPrice, c.takeProfitPct), entryPrice, c.takeProfitPct, side.Long?)
  {
    if c.stopLossPct.Some? {
      OffBy(entryPrice, c.stopLossPct.value);
    }
    if c.takeProfitPct.Some? {
      OffBy(entryPrice, c.takeProfitPct.value);
    }
    hide Above, Below;
  }

  lemma NoOpposite(positions: seq<Position>, side: PositionSide)
    ensures !AnyOn(positions, Opposite(side)) <==> forall p :: p in positions ==> p.side == side
  {
    if AnyOn(positions, Opposite(side)) {
      var i :| 0 <= i < |positions| && positions[i].side == Opposite(side);
      assert positions[i] in positions;
    }
  }

  /**
   * An entry signal, from the account and the price alone: exactly when it is taken, what it opens, and that a
   * rejected one changes nothing.
   */
  lemma EntryOpens(a: Account, side: PositionSide, price: real, time: int, reason: string)
    requires ValidConfig(a.config)
    ensures var b := Opened(a, side, price, time, reason);
      if Takes(a, side, price)
      then |b.positions| == |a.positions| + 1 && IsEntry(a, side, price, time, reason, b.positions[|a.positions|])
           && b == a.(balance := a.balance - b.positions[|a.positions|].margin,
                      positions := a.positions + [b.positions[|a.positions|]])
      else b == a
  {
    var entry := EntryCapital(a, side, price, Equity(a, price));
    NoOpposite(a.positions, side);
    EntryIsSized(a, side, price);
    PricesAreSlipped(a.config, side, price);
    LevelsOf(a.config, side, EntryPrice(a.config, side, price));
    hide EntryCapital, Buys, Bought, Deployed, Notional, Slipped, EntryPrice, StopLossPrice, TakeProfitPrice, LevelAt,
      Equity, AnyOn;
  }

  // ---------------------------------------------------------------- the trade

  /** What the commission charges for selling the contracts, or buying them back. */
  ghost predicate ExitFeeIs(c: Config, quantity: real, price: real, fee: real) {
    if price <= 0.0 then fee == 0.0
    else
      match c.commissionType
      case Percent => fee * 100.0 == quantity * price * c.commissionValue
      case CashPerOrder => fee == c.commissionValue
      case CashPerContract => fee == quantity * c.commissionValue
  }

  /** The trade a position becomes: its entry, this exit, and its price move less the fee of either end. */
  ghost predicate Books(c: Config, p: Position, exitPrice: real, reason: ExitReason, time: int, t: Trade) {
    && t.side == p.side && t.quantity == p.quantity
    && t.entryTime == p.entryTime && t.entryPrice == p.entryPrice && t.entryReason == p.entryReason
    && t.exitTime == time && t.exitPrice == exitPrice && t.exitReason == reason
    && ExitFeeIs(c, p.quantity, exitPrice, t.feesPaid - p.entryFee)
    && t.pnl == (if p.side.Long? then exitPrice - p.entryPrice else p.entryPrice - exitPrice) * p.quantity - t.feesPaid
    && t.pnlPercent * p.margin == t.pnl * 100.0
  }

  lemma ExitFeeOf(c: Config, p: Position, price: real)
    requires p.quantity > 0.0
    ensures ExitFeeIs(c, p.quantity, price, FeeAt(c, p, price))
  {
    var cost, rate := p.quantity * price, c.commissionValue;
    assert cost * (rate / 100.0) * 100.0 == cost * rate;
  }

  lemma PercentOfMargin(pnl: real, margin: real)
    requires margin > 0.0
    ensures pnl / margin * 100.0 * margin == pnl * 100.0
  {
    QuotientPositive(pnl, margin);
    assert pnl / margin * 100.0 * margin == pnl / margin * margin * 100.0;
  }

  /** Closing a sound position at any price books exactly that trade. */
  lemma ClosingBooks(c: Config, p: Position, exit: Exit, time: int)
    requires Sound(c, p)
    ensures Books(c, p, exit.price, exit.reason, time, TradeOf(c, Closing(p, exit), time))
  {
    ClosedTradeIsHonest(c, Closing(p, exit), time);
    TradePnl(c, p, exit, time);
    ExitFeeOf(c, p, exit.price);
    PercentOfMargin(TradeOf(c, Closing(p, exit), time).pnl, p.margin);
    hide FeeAt, ExitFeeIs, RealizedAt;
  }
}
