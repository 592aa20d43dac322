/** The paper broker's pure policies: fees, margin and realized profit, matching and intrabar stops. */
module BrokerPolicies {
  import opened Prelude
  import opened RealArithmetic
  import opened Market

  datatype CommissionType = Percent | CashPerOrder | CashPerContract
  datatype SizingType = PercentOfEquity | FixedCash | FixedContracts | RiskPercent
  datatype ExitReason = StrategySignal | EndOfBacktest | StopLoss | TakeProfit

  datatype Sizing = Sizing(kind: SizingType, value: real)

  datatype Config = Config(
    slippageTicks: int,
    tickSize: real,
    commissionType: CommissionType,
    commissionValue: real,
    pyramiding: int,
    longLeverage: real,
    shortLeverage: real,
    stopLossPct: Option<real>,
    takeProfitPct: Option<real>)

  /** What the two value objects accept; anything else raises when they are built. */
  predicate ValidConfig(c: Config) {
    && c.slippageTicks >= 0 && c.tickSize > 0.0 && c.commissionValue >= 0.0 && c.pyramiding >= 1
    && c.longLeverage > 0.0 && c.shortLeverage > 0.0
    && (c.stopLossPct.Some? ==> 0.0 < c.stopLossPct.value < 100.0)
    && (c.takeProfitPct.Some? ==> c.takeProfitPct.value > 0.0)
  }

  predicate ValidSizing(s: Sizing) {
    s.value > 0.0 && (s.kind.PercentOfEquity? || s.kind.RiskPercent? ==> s.value <= 100.0)
  }

  function Opposite(side: PositionSide): PositionSide {
    if side.Long? then Short else Long
  }

  function Larger(a: real, b: real): real {
    if a >= b then a else b
  }

  // ---------------------------------------------------------------- OrderMatchingPolicy

  function SlippageDelta(c: Config): real {
    c.slippageTicks as real * c.tickSize
  }

  function EntryEffectivePrice(side: PositionSide, price: real, delta: real): real {
    if side.Long? then price + delta else Larger(0.0, price - delta)
  }

  function ExitEffectivePrice(side: PositionSide, price: real, delta: real): real {
    if side.Long? then Larger(0.0, price - delta) else price + delta
  }

  function Below(price: real, fraction: real): real {
    price * (1.0 - fraction)
  }

  function Above(price: real, fraction: real): real {
    price * (1.0 + fraction)
  }

  function StopLossPrice(side: PositionSide, effective: real, pct: Option<real>): Option<real> {
    if pct.None? then None
    else if side.Long? then Some(Below(effective, pct.value / 100.0))
    else Some(Above(effective, pct.value / 100.0))
  }

  function TakeProfitPrice(side: PositionSide, effective: real, pct: Option<real>): Option<real> {
    if pct.None? then None
    else if side.Long? then Some(Above(effective, pct.value / 100.0))
    else Some(Below(effective, pct.value / 100.0))
  }

  // ---------------------------------------------------------------- named quantities

  /** What a fill of `quantity` contracts uses up: their price and the entry fee. */
  function Spent(quantity: real, price: real, fee: real): real {
    quantity * price + fee
  }

  function Leveraged(margin: real, leverage: real): real {
    margin * leverage
  }

  function PriceMove(side: PositionSide, entryPrice: real, exitPrice: real): real {
    if side.Long? then exitPrice - entryPrice else entryPrice - exitPrice
  }

  /** What the price move alone earns. */
  function Gross(side: PositionSide, quantity: real, entryPrice: real, exitPrice: real): real {
    PriceMove(side, entryPrice, exitPrice) * quantity
  }

  /** The part of equity a sizing value names, in money. */
  function PercentOf(equity: real, percent: real): real {
    equity * (percent / 100.0)
  }

  // ---------------------------------------------------------------- FeeCalculatorPolicy

  datatype Fill = Fill(fee: real, quantity: real)

  function EntryFeeAndQuantity(notional: real, price: real, kind: CommissionType, value: real): Fill
    requires value >= 0.0
  {
    if notional <= 0.0 || price <= 0.0 then Fill(0.0, 0.0)
    else
      match kind
      case Percent =>
        var fee := notional * (value / 100.0);
        if notional - fee <= 0.0 then Fill(0.0, 0.0) else Fill(fee, (notional - fee) / price)
      case CashPerOrder =>
        if notional - value <= 0.0 then Fill(0.0, 0.0) else Fill(value, (notional - value) / price)
      case CashPerContract =>
        var quantity := notional / (price + value);
        if quantity <= 0.0 then Fill(0.0, 0.0) else Fill(quantity * value, quantity)
  }

  function ExitFee(quantity: real, price: real, kind: CommissionType, value: real): real {
    if quantity <= 0.0 || price <= 0.0 then 0.0
    else
      match kind
      case Percent => quantity * price * (value / 100.0)
      case CashPerOrder => value
      case CashPerContract => quantity * value
  }

  // ---------------------------------------------------------------- MarginRiskPolicy

  function LeverageFor(side: PositionSide, c: Config): real {
    if side.Long? then c.longLeverage else c.shortLeverage
  }

  datatype Capital = Capital(margin: real, notional: real)

  const NO_CAPITAL := Capital(0.0, 0.0)

  /** The capital a sizing asks for, before it is held against the cash available. */
  function DesiredCapital(price: real, equity: real, sizing: Sizing, leverage: real, stopLossPct: Option<real>): Capital
    requires price > 0.0 && leverage > 0.0
  {
    match sizing.kind
    case PercentOfEquity =>
      var margin := PercentOf(equity, sizing.value);
      Capital(margin, Leveraged(margin, leverage))
    case FixedCash => Capital(sizing.value, Leveraged(sizing.value, leverage))
    case FixedContracts =>
      var notional := sizing.value * price;
      Capital(notional / leverage, notional)
    case RiskPercent =>
      if stopLossPct.None? || stopLossPct.value <= 0.0 then NO_CAPITAL
      else
        var distance := price * (stopLossPct.value / 100.0);
        if distance <= 0.0 then NO_CAPITAL
        else
          var notional := PercentOf(equity, sizing.value) * (price / distance);
          Capital(notional / leverage, notional)
  }

  /** Margin is held to the cash available, keeping the ratio of notional to margin. */
  function Clamped(wanted: Capital, available: real): Capital {
    if wanted.margin > available then
      Capital(available, wanted.notional * (if wanted.margin > 0.0 then available / wanted.margin else 0.0))
    else wanted
  }

  function MarginAndNotional(price: real, equity: real, available: real, sizing: Sizing, leverage: real,
                             stopLossPct: Option<real>): Capital
  {
    if price <= 0.0 || leverage <= 0.0 then NO_CAPITAL
    else
      var capital := Clamped(DesiredCapital(price, equity, sizing, leverage, stopLossPct), available);
      if capital.margin <= 0.0 || capital.notional <= 0.0 then NO_CAPITAL else capital
  }

  function MarkToMarket(side: PositionSide, leverage: real, quantity: real, entryPrice: real, margin: real,
                        mark: real): real {
    if side.Long? then
      if leverage == 1.0 then quantity * mark else margin + (mark - entryPrice) * quantity
    else margin + (entryPrice - mark) * quantity
  }

  datatype Realized = Realized(pnl: real, pnlPercent: real, release: real)

  function RealizedPnl(side: PositionSide, leverage: real, quantity: real, entryPrice: real, exitPrice: real,
                       margin: real, entryFee: real, exitFee: real): Realized
  {
    var spot := side.Long? && leverage == 1.0;
    var proceeds := quantity * exitPrice - exitFee;
    var pnl :=
      if spot then proceeds - margin
      else if side.Long? then (exitPrice - entryPrice) * quantity - entryFee - exitFee
      else (entryPrice - exitPrice) * quantity - entryFee - exitFee;
    Realized(pnl, if margin > 0.0 then pnl / margin * 100.0 else 0.0, if spot then proceeds else margin + pnl)
  }

  // ---------------------------------------------------------------- what the policies keep

  lemma ScaleCancels(available: real, margin: real, leverage: real)
    requires margin > 0.0
    ensures (margin * leverage) * (available / margin) == available * leverage
  {
    assert (margin * leverage) * (available / margin) == leverage * (margin * (available / margin));
  }

  lemma DivideBack(notional: real, leverage: real)
    requires leverage > 0.0
    ensures (notional / leverage) * leverage == notional
  {
  }

  lemma DesiredIsLeveraged(price: real, equity: real, sizing: Sizing, leverage: real, stopLossPct: Option<real>)
    requires price > 0.0 && leverage > 0.0
    ensures var wanted := DesiredCapital(price, equity, sizing, leverage, stopLossPct);
      wanted.notional == Leveraged(wanted.margin, leverage)
  {
    var wanted := DesiredCapital(price, equity, sizing, leverage, stopLossPct);
    DivideBack(wanted.notional, leverage);
  }

  /** Sizing, leverage and the clamp: notional is always exactly margin times leverage, and margin is cash there is. */
  lemma NotionalIsLeveragedMargin(price: real, equity: real, available: real, sizing: Sizing, leverage: real,
                                  stopLossPct: Option<real>)
    requires leverage > 0.0
    ensures var capital := MarginAndNotional(price, equity, available, sizing, leverage, stopLossPct);
      && capital.notional == Leveraged(capital.margin, leverage)
      && (capital != NO_CAPITAL ==> 0.0 < capital.margin <= available && capital.notional > 0.0)
  {
    hide DesiredCapital;
    if price > 0.0 {
      var wanted := DesiredCapital(price, equity, sizing, leverage, stopLossPct);
      DesiredIsLeveraged(price, equity, sizing, leverage, stopLossPct);
      if wanted.margin > available && wanted.margin > 0.0 {
        ScaleCancels(available, wanted.margin, leverage);
      }
    }
  }

  lemma BoughtByQuotient(net: real, fee: real, price: real)
    requires price > 0.0
    ensures net > 0.0 ==> net / price > 0.0
    ensures Spent(net / price, price, fee) == net + fee
  {
    QuotientPositive(net, price);
  }

  lemma BoughtPerContract(notional: real, price: real, value: real)
    requires notional > 0.0 && price > 0.0 && value >= 0.0
    ensures var quantity := notional / (price + value);
      quantity > 0.0 && quantity * value >= 0.0 && Spent(quantity, price, quantity * value) == notional
  {
    var quantity := notional / (price + value);
    QuotientPositive(notional, price + value);
    ProductNonNegative(quantity, value);
    assert quantity * (price + value) == quantity * price + quantity * value;
  }

  /** Under every commission model the notional is spent exactly: contracts at the entry price, plus the fee. */
  lemma NotionalIsSpent(notional: real, price: real, kind: CommissionType, value: real)
    requires value >= 0.0
    ensures var fill := EntryFeeAndQuantity(notional, price, kind, value);
      && fill.fee >= 0.0 && fill.quantity >= 0.0
      && (fill.quantity > 0.0 ==> notional > 0.0 && price > 0.0 && notional == Spent(fill.quantity, price, fill.fee))
  {
    hide Spent;
    if notional > 0.0 && price > 0.0 {
      match kind
      case Percent =>
        ProductNonNegative(notional, value / 100.0);
        BoughtByQuotient(notional - notional * (value / 100.0), notional * (value / 100.0), price);
      case CashPerOrder =>
        BoughtByQuotient(notional - value, value, price);
      case CashPerContract =>
        BoughtPerContract(notional, price, value);
    }
  }

  /** Whatever the side and leverage, cash gets back the margin plus the profit. */
  lemma ReleaseIsMarginPlusPnl(side: PositionSide, leverage: real, quantity: real, entryPrice: real, exitPrice: real,
                               margin: real, entryFee: real, exitFee: real)
    ensures var realized := RealizedPnl(side, leverage, quantity, entryPrice, exitPrice, margin, entryFee, exitFee);
      realized.release == margin + realized.pnl
  {
  }

  /** The spot formula is the general one, for a position whose margin bought its quantity and paid its fee. */
  lemma PnlIsPriceMoveLessFees(side: PositionSide, leverage: real, quantity: real, entryPrice: real, exitPrice: real,
                               margin: real, entryFee: real, exitFee: real)
    requires Leveraged(margin, leverage) == Spent(quantity, entryPrice, entryFee)
    ensures RealizedPnl(side, leverage, quantity, entryPrice, exitPrice, margin, entryFee, exitFee).pnl
         == Gross(side, quantity, entryPrice, exitPrice) - entryFee - exitFee
  {
    assert (exitPrice - entryPrice) * quantity == quantity * exitPrice - quantity * entryPrice;
  }

  // ---------------------------------------------------------------- matching

  /** Slippage never favours the trader, on either side; a round trip at one price loses it twice over. */
  lemma SlippageCosts(side: PositionSide, price: real, delta: real)
    requires delta >= 0.0 && price >= 0.0
    ensures PriceMove(side, price, EntryEffectivePrice(side, price, delta)) >= 0.0
    ensures PriceMove(side, price, ExitEffectivePrice(side, price, delta)) <= 0.0
    ensures EntryEffectivePrice(side, price, delta) >= 0.0 && ExitEffectivePrice(side, price, delta) >= 0.0
    ensures price >= delta ==>
              PriceMove(side, EntryEffectivePrice(side, price, delta), ExitEffectivePrice(side, price, delta))
                == -2.0 * delta
  {
  }

  lemma MovedByFraction(price: real, fraction: real)
    requires price > 0.0 && fraction > 0.0
    ensures Below(price, fraction) == price - price * fraction && Above(price, fraction) == price + price * fraction
    ensures price * fraction > 0.0 && Above(price, fraction) > 0.0
    ensures fraction < 1.0 ==> Below(price, fraction) > 0.0
  {
    ProductPositive(price, fraction);
    if fraction < 1.0 { ProductPositive(price, 1.0 - fraction); }
  }

  /** A target sits its fraction of the entry price on the winning side. */
  lemma TargetIsBeyond(side: PositionSide, price: real, takeProfitPct: real)
    requires price > 0.0 && takeProfitPct > 0.0
    ensures var target := TakeProfitPrice(side, price, Some(takeProfitPct)).value;
      PriceMove(side, price, target) == PercentOf(price, takeProfitPct) && PercentOf(price, takeProfitPct) > 0.0
  {
    hide Below, Above;
    MovedByFraction(price, takeProfitPct / 100.0);
  }

  /** A stop sits its fraction of the entry price on the losing side. */
  lemma StopIsBeyond(side: PositionSide, price: real, stopLossPct: real)
    requires price > 0.0 && 0.0 < stopLossPct < 100.0
    ensures var stop := StopLossPrice(side, price, Some(stopLossPct)).value;
      PriceMove(side, price, stop) == -PercentOf(price, stopLossPct) && PercentOf(price, stopLossPct) > 0.0
        && stop > 0.0
  {
    hide Below, Above;
    MovedByFraction(price, stopLossPct / 100.0);
  }

  lemma FeesArePositive(notional: real, price: real, exitPrice: real, kind: CommissionType, value: real)
    requires value >= 0.0 && exitPrice > 0.0 && EntryFeeAndQuantity(notional, price, kind, value).quantity > 0.0
    ensures var fill := EntryFeeAndQuantity(notional, price, kind, value);
      && fill.fee >= 0.0 && ExitFee(fill.quantity, exitPrice, kind, value) >= 0.0
      && (fill.fee == 0.0 <==> value == 0.0)
      && (value == 0.0 ==> ExitFee(fill.quantity, exitPrice, kind, value) == 0.0)
  {
    var quantity := EntryFeeAndQuantity(notional, price, kind, value).quantity;
    NotionalIsSpent(notional, price, kind, value);
    hide Spent;
    ProductPositive(quantity, exitPrice);
    ProductNonNegative(quantity * exitPrice, value / 100.0);
    ProductNonNegative(quantity, value);
    if value > 0.0 {
      ProductPositive(notional, value / 100.0);
      ProductPositive(quantity, value);
    }
  }
}
