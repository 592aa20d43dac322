/** Risk-percent sizing: exactly when a stop-loss hit loses the promised share of equity. */
module RiskSizing {
  import opened Prelude
  import opened RealArithmetic
  import opened Market
  import opened BrokerPolicies
  import opened PaperExchange
  import opened PaperLedger

  /** What a risk-sized entry is decided from; `price` is the effective entry price. */
  datatype RiskOrder = RiskOrder(
    side: PositionSide,
    price: real,
    equity: real,
    cash: real,
    percent: real,
    leverage: real,
    stopLossPct: real,
    commission: CommissionType,
    rate: real)
  {
    predicate Valid() {
      price > 0.0 && leverage > 0.0 && 0.0 < stopLossPct < 100.0 && rate >= 0.0
    }

    function RiskPercentSizing(): Sizing {
      Sizing(RiskPercent, percent)
    }
  }

  // ---------------------------------------------------------------- over the inputs alone

  /** The share of equity the sizing promises a stop-loss hit will lose. */
  function Risk(o: RiskOrder): real {
    PercentOf(o.equity, o.percent)
  }

  /** The notional whose stop distance is worth the risk. */
  function Wanted(o: RiskOrder): real
    requires o.stopLossPct != 0.0
  {
    Risk(o) / (o.stopLossPct / 100.0)
  }

  /** The notional the cash allows of it. */
  function Deployed(o: RiskOrder): real
    requires o.stopLossPct != 0.0
  {
    var most := Leveraged(o.cash, o.leverage);
    if Wanted(o) <= most then Wanted(o) else most
  }

  /** The entry buys something: there is notional, and the commission leaves some of it. */
  predicate Fills(o: RiskOrder)
    requires o.stopLossPct != 0.0
  {
    && Deployed(o) > 0.0
    && (o.commission.Percent? ==> o.rate < 100.0)
    && (o.commission.CashPerOrder? ==> o.rate < Deployed(o))
  }

  /** The fee of as many contracts as a notional buys at a price and a fee each. */
  function ContractFee(notional: real, price: real, rate: real): real
    requires price + rate != 0.0
  {
    notional / (price + rate) * rate
  }

  function EntryFeeOf(o: RiskOrder): real
    requires o.Valid()
  {
    match o.commission
    case Percent => PercentOf(Deployed(o), o.rate)
    case CashPerOrder => o.rate
    case CashPerContract => ContractFee(Deployed(o), o.price, o.rate)
  }

  /** The stop price as a multiple of the entry price. */
  function StopFactor(o: RiskOrder): real {
    if o.side.Long? then 1.0 - o.stopLossPct / 100.0 else 1.0 + o.stopLossPct / 100.0
  }

  function StopFeeOf(o: RiskOrder): real
    requires o.Valid()
  {
    match o.commission
    case Percent => PercentOf(Times(Deployed(o) - EntryFeeOf(o), StopFactor(o)), o.rate)
    case CashPerOrder => o.rate
    case CashPerContract => EntryFeeOf(o)
  }

  /** The share of the entry fee that was not part of the stop distance. */
  function FeeShare(fee: real, stopLossPct: real): real {
    fee * (1.0 - stopLossPct / 100.0)
  }

  /** What commission adds to the loss at the stop. */
  function Added(o: RiskOrder): real
    requires o.Valid()
  {
    FeeShare(EntryFeeOf(o), o.stopLossPct) + StopFeeOf(o)
  }

  /** What holding the entry to the cash takes off the loss at the stop. */
  function TakenOff(o: RiskOrder): real
    requires o.Valid()
  {
    Risk(o) - PercentOf(Deployed(o), o.stopLossPct)
  }

  // ---------------------------------------------------------------- what the policies do with them

  /** A risk-sized entry held until its own stop is hit. */
  datatype StoppedOut = StoppedOut(capital: Capital, fill: Fill, stop: real, exitFee: real, pnl: real)

  function HeldToStop(o: RiskOrder): StoppedOut
    requires o.Valid()
  {
    var capital := MarginAndNotional(o.price, o.equity, o.cash, o.RiskPercentSizing(), o.leverage, Some(o.stopLossPct));
    var fill := EntryFeeAndQuantity(capital.notional, o.price, o.commission, o.rate);
    var stop := StopLossPrice(o.side, o.price, Some(o.stopLossPct)).value;
    var exitFee := ExitFee(fill.quantity, stop, o.commission, o.rate);
    StoppedOut(capital, fill, stop, exitFee,
               RealizedPnl(o.side, o.leverage, fill.quantity, o.price, stop, capital.margin, fill.fee, exitFee).pnl)
  }

  lemma DistanceCancels(risk: real, price: real, fraction: real)
    requires price > 0.0 && fraction > 0.0
    ensures price * fraction > 0.0 && risk * (price / (price * fraction)) == risk / fraction
    ensures risk / fraction * fraction == risk
  {
    ProductPositive(price, fraction);
    var ratio := price / (price * fraction);
    QuotientPositive(price, price * fraction);
    assert ratio * (price * fraction) == (ratio * fraction) * price;
    assert (ratio * fraction - 1.0) * price == (ratio * fraction) * price - price;
    ZeroFactor(ratio * fraction - 1.0, price);
    QuotientPositive(risk, fraction);
    assert risk * ratio * fraction == risk * (ratio * fraction);
    assert (risk * ratio - risk / fraction) * fraction == risk * ratio * fraction - risk / fraction * fraction;
    ZeroFactor(risk * ratio - risk / fraction, fraction);
  }

  lemma WantedCapital(o: RiskOrder)
    requires o.Valid()
    ensures DesiredCapital(o.price, o.equity, o.RiskPercentSizing(), o.leverage, Some(o.stopLossPct)).notional
         == Wanted(o)
    ensures DesiredCapital(o.price, o.equity, o.RiskPercentSizing(), o.leverage, Some(o.stopLossPct)).margin
         == Wanted(o) / o.leverage
  {
    DistanceCancels(Risk(o), o.price, o.stopLossPct / 100.0);
    hide PercentOf;
  }

  /** The clamp compares notionals as well as margins. */
  lemma ClampedNotional(wanted: real, cash: real, leverage: real)
    requires leverage > 0.0
    ensures var capital, most := Clamped(Capital(wanted / leverage, wanted), cash), Leveraged(cash, leverage);
      && (wanted <= most ==> capital == Capital(wanted / leverage, wanted))
      && (wanted > most > 0.0 ==> capital == Capital(cash, most))
      && (wanted > most && most <= 0.0 ==> capital.margin <= 0.0)
      && (wanted / leverage > 0.0 <==> wanted > 0.0)
  {
    var margin := wanted / leverage;
    QuotientPositive(wanted, leverage);
    assert (margin - cash) * leverage == wanted - Leveraged(cash, leverage);
    if margin > cash { ProductPositive(margin - cash, leverage); }
    if margin < cash { ProductPositive(cash - margin, leverage); }
    if cash > 0.0 { ProductPositive(cash, leverage); }
    if margin < 0.0 { ProductPositive(-margin, leverage); }
    if margin > cash && margin > 0.0 {
      ScaleCancels(cash, margin, leverage);
    }
  }

  /** The margin policy deploys exactly the notional the inputs allow. */
  lemma DeployedIsNotional(o: RiskOrder)
    requires o.Valid()
    ensures HeldToStop(o).capital.notional == if Deployed(o) > 0.0 then Deployed(o) else 0.0
  {
    WantedCapital(o);
    ClampedNotional(Wanted(o), o.cash, o.leverage);
    hide DesiredCapital, Wanted, Clamped, Leveraged;
  }

  // ---------------------------------------------------------------- fees

  lemma StopIsScaled(o: RiskOrder)
    requires o.Valid()
    ensures StopLossPrice(o.side, o.price, Some(o.stopLossPct)) == Some(Times(o.price, StopFactor(o)))
    ensures Times(o.price, StopFactor(o)) > 0.0
  {
    var fraction := o.stopLossPct / 100.0;
    assert Below(o.price, fraction) == Times(o.price, 1.0 - fraction)
        && Above(o.price, fraction) == Times(o.price, 1.0 + fraction);
    hide Times, Below, Above, PercentOf, PriceMove;
    StopIsBeyond(o.side, o.price, o.stopLossPct);
  }

  lemma NetAtStop(net: real, price: real, factor: real, rate: real)
    requires price > 0.0
    ensures net / price * Times(price, factor) * (rate / 100.0) == PercentOf(Times(net, factor), rate)
  {
    var quantity := net / price;
    assert quantity * price == net;
    assert quantity * (price * factor) == (quantity * price) * factor;
  }

  lemma PercentBelowWhole(whole: real, rate: real)
    requires whole > 0.0
    ensures whole - PercentOf(whole, rate) > 0.0 <==> rate < 100.0
  {
    var left := 1.0 - rate / 100.0;
    assert whole - whole * (rate / 100.0) == whole * left;
    if left > 0.0 { ProductPositive(whole, left); }
    if left < 0.0 { ProductPositive(whole, -left); }
  }

  lemma PercentFees(o: RiskOrder, notional: real)
    requires o.Valid() && notional > 0.0 && o.commission.Percent?
    ensures var fill := EntryFeeAndQuantity(notional, o.price, o.commission, o.rate);
      var fee := PercentOf(notional, o.rate);
      && (fill.quantity > 0.0 <==> o.rate < 100.0)
      && (fill.quantity > 0.0 ==> fill.fee == fee)
      && (fill.quantity > 0.0 ==> ExitFee(fill.quantity, Times(o.price, StopFactor(o)), o.commission, o.rate)
                                  == PercentOf(Times(notional - fee, StopFactor(o)), o.rate))
  {
    var fee := PercentOf(notional, o.rate);
    PercentBelowWhole(notional, o.rate);
    QuotientPositive(notional - fee, o.price);
    StopIsScaled(o);
    NetAtStop(notional - fee, o.price, StopFactor(o), o.rate);
    hide Times, StopFactor;
  }

  lemma FlatFees(o: RiskOrder, notional: real)
    requires o.Valid() && notional > 0.0 && !o.commission.Percent?
    ensures var fill := EntryFeeAndQuantity(notional, o.price, o.commission, o.rate);
      var fee := if o.commission.CashPerOrder? then o.rate else ContractFee(notional, o.price, o.rate);
      && (fill.quantity > 0.0 <==> o.commission.CashPerContract? || o.rate < notional)
      && (fill.quantity > 0.0 ==> fill.fee == fee)
      && (fill.quantity > 0.0 ==> ExitFee(fill.quantity, Times(o.price, StopFactor(o)), o.commission, o.rate) == fee)
  {
    QuotientPositive(notional - o.rate, o.price);
    QuotientPositive(notional, o.price + o.rate);
    StopIsScaled(o);
    hide Times, StopFactor;
  }

  /** The fill of the deployed notional, under whichever commission. */
  lemma DeployedFill(o: RiskOrder)
    requires o.Valid() && Deployed(o) > 0.0
    ensures var fill := EntryFeeAndQuantity(Deployed(o), o.price, o.commission, o.rate);
      && (fill.quantity > 0.0 <==> Fills(o))
      && (Fills(o) ==> fill.fee == EntryFeeOf(o))
      && (Fills(o) ==> ExitFee(fill.quantity, Times(o.price, StopFactor(o)), o.commission, o.rate) == StopFeeOf(o))
  {
    hide Deployed, EntryFeeAndQuantity, ExitFee, Times, StopFactor, PercentOf, ContractFee;
    if o.commission.Percent? {
      PercentFees(o, Deployed(o));
    } else {
      FlatFees(o, Deployed(o));
    }
  }

  lemma NothingFills(price: real, kind: CommissionType, rate: real)
    requires rate >= 0.0
    ensures EntryFeeAndQuantity(0.0, price, kind, rate).quantity == 0.0
  {
  }

  /** An entry fills exactly when the inputs let it, and pays exactly the fees they name. */
  lemma FillsAndFees(o: RiskOrder)
    requires o.Valid()
    ensures var out := HeldToStop(o);
      && (out.fill.quantity > 0.0 <==> Fills(o))
      && (Fills(o) ==> out.fill.fee == EntryFeeOf(o) && out.exitFee == StopFeeOf(o))
  {
    DeployedIsNotional(o);
    StopIsScaled(o);
    NothingFills(o.price, o.commission, o.rate);
    if Deployed(o) > 0.0 {
      DeployedFill(o);
    }
    hide Deployed, MarginAndNotional, Times, StopFactor, StopLossPrice, RealizedPnl, EntryFeeAndQuantity, ExitFee,
      EntryFeeOf, StopFeeOf, PercentOf;
  }

  // ---------------------------------------------------------------- the loss at the stop

  lemma LossArithmetic(quantity: real, price: real, fee: real, fraction: real)
    ensures -(price * fraction) * quantity - fee == -((quantity * price + fee) * fraction) - fee * (1.0 - fraction)
  {
    assert (quantity * price + fee) * fraction == quantity * price * fraction + fee * fraction;
    assert -(price * fraction) * quantity == -(quantity * price * fraction);
  }

  /** Contracts closed at the stop lose the stop-distance share of all that was spent, and the fee's own share. */
  lemma LossAtStop(side: PositionSide, quantity: real, price: real, fee: real, stopLossPct: real)
    requires price > 0.0 && 0.0 < stopLossPct < 100.0
    ensures Gross(side, quantity, price, StopLossPrice(side, price, Some(stopLossPct)).value) - fee
         == -PercentOf(Spent(quantity, price, fee), stopLossPct) - FeeShare(fee, stopLossPct)
  {
    StopIsBeyond(side, price, stopLossPct);
    LossArithmetic(quantity, price, fee, stopLossPct / 100.0);
    hide StopLossPrice;
  }

  /** The exact loss of any risk-sized entry at its own stop, from the inputs alone. */
  lemma PnlAtStop(o: RiskOrder)
    requires o.Valid() && Fills(o)
    ensures HeldToStop(o).pnl == -PercentOf(Deployed(o), o.stopLossPct) - Added(o)
  {
    var out := HeldToStop(o);
    FillsAndFees(o);
    DeployedIsNotional(o);
    hide EntryFeeAndQuantity, ExitFee, MarginAndNotional, StopLossPrice, RealizedPnl, Gross, Spent, Leveraged,
      PercentOf, FeeShare, Deployed, EntryFeeOf, StopFeeOf, Wanted;
    NotionalIsSpent(out.capital.notional, o.price, o.commission, o.rate);
    NotionalIsLeveragedMargin(o.price, o.equity, o.cash, o.RiskPercentSizing(), o.leverage, Some(o.stopLossPct));
    PnlIsPriceMoveLessFees(o.side, o.leverage, out.fill.quantity, o.price, out.stop, out.capital.margin, out.fill.fee,
                           out.exitFee);
    LossAtStop(o.side, out.fill.quantity, o.price, out.fill.fee, o.stopLossPct);
  }

  /**
   * A stop-loss hit is promised to lose exactly the sizing's share of equity. It does so exactly when what
   * commission adds equals what the cash limit takes off; it loses more, or less, as one or the other is larger.
   */
  lemma RiskPromise(o: RiskOrder)
    requires o.Valid() && Fills(o)
    ensures HeldToStop(o).pnl == -Risk(o) <==> Added(o) == TakenOff(o)
    ensures HeldToStop(o).pnl < -Risk(o) <==> Added(o) > TakenOff(o)
  {
    PnlAtStop(o);
    hide HeldToStop, Added, Risk, PercentOf, Deployed, Fills;
  }

  lemma FeeShareSign(fee: real, stopLossPct: real)
    requires fee >= 0.0 && 0.0 < stopLossPct < 100.0
    ensures FeeShare(fee, stopLossPct) >= 0.0 && (FeeShare(fee, stopLossPct) == 0.0 <==> fee == 0.0)
  {
    var share := 1.0 - stopLossPct / 100.0;
    assert share > 0.0;
    if fee > 0.0 { ProductPositive(fee, share); }
  }

  /** Commission never takes off the loss, and adds nothing exactly when none is charged. */
  lemma AddedSign(o: RiskOrder)
    requires o.Valid() && Fills(o)
    ensures Added(o) >= 0.0 && (Added(o) == 0.0 <==> o.rate == 0.0)
  {
    var out := HeldToStop(o);
    FillsAndFees(o);
    StopIsBeyond(o.side, o.price, o.stopLossPct);
    hide EntryFeeAndQuantity, ExitFee, MarginAndNotional, StopLossPrice, RealizedPnl, FeeShare, Deployed, EntryFeeOf,
      StopFeeOf, PercentOf;
    FeesArePositive(out.capital.notional, o.price, out.stop, o.commission, o.rate);
    FeeShareSign(out.fill.fee, o.stopLossPct);
  }

  lemma PercentGrows(a: real, b: real, percent: real)
    requires percent > 0.0
    ensures PercentOf(a, percent) < PercentOf(b, percent) <==> a < b
  {
    var fraction := percent / 100.0;
    if a < b { ProductPositive(b - a, fraction); }
    if a > b { ProductPositive(a - b, fraction); }
    assert (b - a) * fraction == b * fraction - a * fraction && (a - b) * fraction == a * fraction - b * fraction;
  }

  /** The cash limit never adds to the loss, and takes nothing off exactly when the cash carries the entry whole. */
  lemma TakenOffSign(o: RiskOrder)
    requires o.Valid()
    ensures TakenOff(o) >= 0.0 && (TakenOff(o) == 0.0 <==> Wanted(o) <= Leveraged(o.cash, o.leverage))
  {
    DistanceCancels(Risk(o), o.price, o.stopLossPct / 100.0);
    assert PercentOf(Wanted(o), o.stopLossPct) == Risk(o);
    hide Risk, PercentOf, Leveraged, Wanted;
    PercentGrows(Leveraged(o.cash, o.leverage), Wanted(o), o.stopLossPct);
  }

  /** The cash covers the margin the risk asks for, so nothing is clamped. */
  predicate CarriedWhole(o: RiskOrder)
    requires o.Valid()
  {
    Wanted(o) <= Leveraged(o.cash, o.leverage)
  }

  /**
   * By the two guards: kept when neither a limit nor a commission touches the entry, too much when only a
   * commission does, too little when only the limit does.
   */
  lemma RiskPromiseByGuards(o: RiskOrder)
    requires o.Valid() && Fills(o)
    ensures CarriedWhole(o) ==> HeldToStop(o).pnl <= -Risk(o) && (HeldToStop(o).pnl == -Risk(o) <==> o.rate == 0.0)
    ensures o.rate == 0.0 ==> HeldToStop(o).pnl >= -Risk(o) && (HeldToStop(o).pnl == -Risk(o) <==> CarriedWhole(o))
  {
    RiskPromise(o);
    AddedSign(o);
    TakenOffSign(o);
    hide HeldToStop, Added, TakenOff, Risk, Wanted, Fills;
  }

  /** When both touch it, the limit's share and the fees must make up the risk between them, under each commission. */
  lemma RiskPromiseWhenClamped(o: RiskOrder)
    requires o.Valid() && Fills(o) && !CarriedWhole(o)
    ensures var most, pnl := Leveraged(o.cash, o.leverage), HeldToStop(o).pnl;
      match o.commission
      case Percent =>
        var fee := PercentOf(most, o.rate);
        pnl == -Risk(o)
        <==> Risk(o) == PercentOf(most, o.stopLossPct) + FeeShare(fee, o.stopLossPct)
                        + PercentOf(Times(most - fee, StopFactor(o)), o.rate)
      case CashPerOrder =>
        pnl == -Risk(o) <==> Risk(o) == PercentOf(most, o.stopLossPct) + FeeShare(o.rate, o.stopLossPct) + o.rate
      case CashPerContract =>
        var fee := ContractFee(most, o.price, o.rate);
        pnl == -Risk(o) <==> Risk(o) == PercentOf(most, o.stopLossPct) + FeeShare(fee, o.stopLossPct) + fee
  {
    RiskPromise(o);
    hide HeldToStop, Risk, Wanted, PercentOf, FeeShare, Times, StopFactor, Leveraged, Fills, ContractFee;
  }

  // ---------------------------------------------------------------- inputs that miss the promise

  /** Whole, but charged: 1% of 1000 is 10, and the stop loses 11.98. */
  lemma ChargedEntryLosesMore()
    ensures var o := RiskOrder(Long, 100.0, 1000.0, 1000.0, 1.0, 1.0, 2.0, CashPerOrder, 1.0);
      o.Valid() && Fills(o) && TakenOff(o) == 0.0 && Risk(o) == 10.0 && HeldToStop(o).pnl == -11.98
  {
    var o := RiskOrder(Long, 100.0, 1000.0, 1000.0, 1.0, 1.0, 2.0, CashPerOrder, 1.0);
    PnlAtStop(o);
    hide HeldToStop;
  }

  /** A clamped entry: 2% of 1000 is 20, its stop loses 10 and 1.99 times the order fee. */
  function ClampedOrder(fee: real): RiskOrder {
    RiskOrder(Long, 100.0, 1000.0, 1000.0, 2.0, 1.0, 1.0, CashPerOrder, fee)
  }

  /** Without a fee too little, with a fee of 6 too much, and with exactly one fee in between just the 20 promised. */
  lemma ClampedEntryLosesLessOrMore(fee: real)
    requires 0.0 <= fee < 1000.0
    ensures var o := ClampedOrder(fee);
      && o.Valid() && Fills(o) && Risk(o) == 20.0 && TakenOff(o) == 10.0
      && HeldToStop(o).pnl == -10.0 - 1.99 * fee
      && (HeldToStop(o).pnl == -Risk(o) <==> fee == 10.0 / 1.99)
  {
    var o := ClampedOrder(fee);
    PnlAtStop(o);
    hide HeldToStop;
  }

  // ---------------------------------------------------------------- on the exchange

  /** The order an entry signal at this price is sized as. */
  function OrderOf(a: Account, side: PositionSide, price: real): RiskOrder
    requires a.config.stopLossPct.Some?
  {
    RiskOrder(side, EntryPrice(a.config, side, price), Equity(a, price), a.balance, a.sizing.value,
              LeverageFor(side, a.config), a.config.stopLossPct.value, a.config.commissionType,
              a.config.commissionValue)
  }

  /** No opposite position, and room for one more. */
  predicate HasRoom(a: Account, side: PositionSide) {
    !AnyOn(a.positions, Opposite(side)) && |a.positions| < a.config.pyramiding
  }

  /** A risk-sized exchange takes no entry while no stop-loss is configured. */
  lemma RiskSizingNeedsAStop(a: Account, side: PositionSide, price: real, time: int, reason: string)
    requires ValidConfig(a.config) && a.sizing.kind.RiskPercent? && a.config.stopLossPct.None?
    ensures Opened(a, side, price, time, reason) == a
  {
    hide Equity;
  }

  lemma EntryIsHeldOrder(a: Account, side: PositionSide, price: real)
    requires ValidConfig(a.config) && a.sizing.kind.RiskPercent? && a.config.stopLossPct.Some?
    requires EntryPrice(a.config, side, price) > 0.0
    ensures var o, entry := OrderOf(a, side, price), EntryCapital(a, side, price, Equity(a, price));
      && o.Valid()
      && (entry.quantity > 0.0 && entry.margin > 0.0 <==> Fills(o))
      && (Fills(o) ==>
            entry == Entry(HeldToStop(o).capital.margin, HeldToStop(o).fill.quantity, HeldToStop(o).fill.fee))
  {
    var o := OrderOf(a, side, price);
    assert a.sizing == o.RiskPercentSizing();
    FillsAndFees(o);
    NotionalIsLeveragedMargin(o.price, o.equity, o.cash, o.RiskPercentSizing(), o.leverage, Some(o.stopLossPct));
    NothingFills(o.price, o.commission, o.rate);
    hide EntryPrice, Equity, MarginAndNotional, EntryFeeAndQuantity, ExitFee, RealizedPnl, StopLossPrice, Fills,
      Leveraged, EntryFeeOf, StopFeeOf;
  }

  lemma EntryAtItsStop(a: Account, side: PositionSide, price: real, time: int, reason: string)
    requires ValidConfig(a.config) && a.sizing.kind.RiskPercent? && a.config.stopLossPct.Some?
    requires EntryPrice(a.config, side, price) > 0.0
    ensures var o, entry := OrderOf(a, side, price), EntryCapital(a, side, price, Equity(a, price));
      var p := NewPosition(a.config, side, price, time, reason, entry);
      && o.Valid() && p.stopLossPrice.Some?
      && (Fills(o) ==> RealizedAt(a.config, p, p.stopLossPrice.value).pnl == HeldToStop(o).pnl)
  {
    EntryIsHeldOrder(a, side, price);
    hide EntryPrice, Equity, MarginAndNotional, EntryFeeAndQuantity, ExitFee, RealizedPnl, Fills, EntryCapital;
  }

  /**
   * An entry signal is taken exactly when there is room, a price and a fill; the position is the order's,
   * held to its stop.
   */
  lemma RiskSizedEntry(a: Account, side: PositionSide, price: real, time: int, reason: string)
    requires ValidConfig(a.config) && a.sizing.kind.RiskPercent? && a.config.stopLossPct.Some?
    ensures var b, o := Opened(a, side, price, time, reason), OrderOf(a, side, price);
      && (b != a <==> HasRoom(a, side) && o.Valid() && Fills(o))
      && (b != a ==> |b.positions| == |a.positions| + 1 && b.config == a.config)
      && (b != a ==> var p := b.positions[|a.positions|];
            p.side == side && p.stopLossPrice.Some?
              && RealizedAt(a.config, p, p.stopLossPrice.value).pnl == HeldToStop(o).pnl)
  {
    var b, o := Opened(a, side, price, time, reason), OrderOf(a, side, price);
    if o.price > 0.0 {
      EntryIsHeldOrder(a, side, price);
    }
    assert b != a ==> |b.positions| != |a.positions|;
    hide EntryPrice, Equity, HeldToStop, Fills, AnyOn;
    if b != a {
      EntryAtItsStop(a, side, price, time, reason);
    }
  }

  lemma {:induction false} BookedTrade(c: Config, closings: seq<Closing>, closing: Closing, time: int)
    requires closing in closings
    ensures TradeOf(c, closing, time) in TradesOf(c, closings, time)
  {
    hide TradeOf;
    if closings[|closings| - 1] != closing {
      BookedTrade(c, closings[..|closings| - 1], closing, time);
    }
  }

  /**
   * On the exchange: once an entry was taken, a bar that reaches its stop books a stop-loss trade that loses the
   * promised share of the equity at entry exactly when what commission adds equals what the cash limit takes off.
   */
  lemma StopLossKeepsThePromise(a: Account, side: PositionSide, price: real, time: int, reason: string,
                                high: real, low: real, later: int) returns (t: Trade)
    requires Ledger(a) && a.sizing.kind.RiskPercent? && a.config.stopLossPct.Some?
    requires var b := Opened(a, side, price, time, reason);
      b != a && |b.positions| > |a.positions|
        && Reaches(b.positions[|a.positions|].stopLossPrice, side.Long?, high, low)
    ensures var b, o := Opened(a, side, price, time, reason), OrderOf(a, side, price);
      && t in Next(b, CheckStops(high, low, later)).trades && t.exitReason == StopLoss && t.entryTime == time
      && o.Valid() && Risk(o) == PercentOf(Equity(a, price), a.sizing.value)
      && (t.pnl == -Risk(o) <==> Added(o) == TakenOff(o))
      && (t.pnl < -Risk(o) <==> Added(o) > TakenOff(o))
  {
    LedgerIsValid(a);
    var b, o := Opened(a, side, price, time, reason), OrderOf(a, side, price);
    var p := b.positions[|a.positions|];
    OpeningKeepsLedger(a, side, price, time, reason);
    RiskSizedEntry(a, side, price, time, reason);
    hide Ledger, Opened, OrderOf, Added, TakenOff, HeldToStop, Retired, Triggered, TradesOf, Fills;
    RiskPromise(o);
    var closing := Closing(p, Exit(p.stopLossPrice.value, StopLoss));
    t := TradeOf(a.config, closing, later);
    assert p in b.positions;
    StopsCloseWhatTheBarReached(b.positions, high, low);
    RetiringKeepsLedger(b, StopRule(high, low), later);
    BookedTrade(b.config, Triggered(b.positions, StopRule(high, low)), closing, later);
  }
}
