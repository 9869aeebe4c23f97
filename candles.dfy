/** Values shared by the strategy and the backtest: OHLC candles, their colour,
    the two pattern kinds and trade directions, and small numeric helpers. */
module Candles {

  datatype Option<+T> = None | Some(value: T)

  datatype Result<+R, +E> = Success(value: R) | Failure(error: E)

  /** One OHLC bar. Prices are exact reals; the volume field of a broker candle
      is never read by the core and is not kept. */
  datatype Candle = Candle(timestamp: int, open: real, high: real, low: real, close: real)

  /** A candle is green when it closed above its open, red when below, and a
      doji (neutral) when it closed exactly at its open. */
  datatype Color = Green | Red | Neutral

  function ColorOf(c: Candle): Color {
    if c.close > c.open then Green
    else if c.close < c.open then Red
    else Neutral
  }

  /** The two patterns the strategy reports: five green or five red candles. */
  datatype PatternKind = FiveGreen | FiveRed

  /** The pattern's name as the strategy reports it and as the direction
      lookup receives it. */
  function Name(k: PatternKind): string {
    match k
    case FiveGreen => "5_green"
    case FiveRed => "5_red"
  }

  datatype Direction = Call | Put

  function Min(a: real, b: real): real { if a <= b then a else b }

  function Max(a: real, b: real): real { if a >= b then a else b }

  function Abs(x: real): real { if x >= 0.0 then x else -x }
}
