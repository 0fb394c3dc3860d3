/** The value types of the trading domain (src/botafuturo/domain/models.py), the items of a
    closed-candle stream, and every error the modelled code can raise.
    Prices and money are exact reals; points in time are whole seconds. */
module Models {
  datatype Option<+T> = None | Some(value: T)

  datatype Result<+T, +E> = Ok(value: T) | Err(error: E)

  datatype Direction = CALL | PUT

  datatype Outcome = WIN | LOSS | TIE

  datatype Candle = Candle(
    asset: string, openTime: int, open: real, high: real, low: real, close: real,
    volume: real, timeframeS: int)

  datatype Quote = Quote(asset: string, ts: int, price: real)

  datatype OrderRequest = OrderRequest(
    asset: string, direction: Direction, stake: real, expiryS: int, openedAt: int, payoutRate: real)

  datatype OrderAck = OrderAck(orderId: string, request: OrderRequest, expiryAt: int, entryPrice: real)

  datatype Trade = Trade(
    ack: OrderAck, expiryPrice: real, outcome: Outcome, pnl: real, balanceAfter: real)

  datatype Signal = Signal(asset: string, direction: Direction, emittedAt: int, strategyName: string)

  /** What `stream_closed_candles` yields; the wall-clock stamp of a gap is not modelled. */
  datatype Item = Bar(candle: Candle) | Gap(asset: string, timeframeS: int, reason: string)

  datatype Error =
    | WrongAsset
    | InsufficientBalance
    | UnsupportedExpiry
    | InsufficientFunds
    | BadPeriods
    | BadBackoffArgument
    | InvalidDecimal
    | LoginError
    | SendFailed
    | AuthenticationError
    | WsConnectionLost
    | TransportUnavailable
    | UpgradeRejected

  function Flip(d: Direction): Direction {
    match d
    case CALL => PUT
    case PUT => CALL
  }
}
