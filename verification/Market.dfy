/** Candles, sides and signals. */
module Market {
  import opened Prelude

  datatype PositionSide = Long | Short

  datatype SignalAction = Buy | Sell | Hold | OpenShort | Cover

  /** Times are in seconds; a candle with `isClosed` false is still forming. */
  datatype Candle = Candle(
    symbol: string,
    openTime: int,
    open: real,
    high: real,
    low: real,
    close: real,
    closeTime: int,
    isClosed: bool)

  datatype Signal = Signal(symbol: string, action: SignalAction, reason: string, price: real, time: int)
}
