/** The values that pass between the components: pairs, trades, candles and order book entries. */
module Trading {
  datatype Option<+T> = None | Some(value: T)

  datatype Pair = Pair(asset: string, priceUnit: string)

  datatype Trade = Trade(time: int, price: real, volume: real)

  datatype Ohlcv = Ohlcv(time: int, open: real, high: real, low: real, close: real, volume: real)

  function TradeTime(trade: Trade): int {
    trade.time
  }

  function TradeVolume(trade: Trade): real {
    trade.volume
  }

  function RowTime(row: Ohlcv): int {
    row.time
  }

  datatype Side = Ask | Bid

  datatype Entry = Entry(price: real, volume: real, side: Side)

  datatype BookState = BookState(time: int, asks: seq<Entry>, bids: seq<Entry>)

  function Max(a: real, b: real): real {
    if a < b then b else a
  }

  function Min(a: real, b: real): real {
    if b < a then b else a
  }

  function Later(s: int, t: int): int {
    if s < t then t else s
  }
}
