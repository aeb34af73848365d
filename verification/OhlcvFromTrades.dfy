/** The candle builder: a candle of a fixed interval, kept up to date trade by trade. */
module OhlcvFromTrades {
  import opened Trading

  datatype Builder = Builder(candle: Ohlcv, lastTime: int)

  function Flat(time: int, price: real): Ohlcv {
    Ohlcv(time, price, price, price, price, 0.0)
  }

  function Start(first: Ohlcv): Builder {
    Builder(first, first.time)
  }

  /** The start of the candle that contains `t`, counting intervals from `start`. */
  function CandleStart(start: int, interval: int, t: int): int
    requires interval > 0
  {
    start + (t - start) / interval * interval
  }

  /** Moves to the candle that contains `now`, if it is a later one. */
  function Roll(b: Builder, interval: int, now: int): Builder
    requires interval > 0
  {
    if now < b.candle.time + interval then b else
      b.(candle := Flat(CandleStart(b.candle.time, interval, now), b.candle.close))
  }

  function Absorb(b: Builder, t: Trade): Builder {
    var c := b.candle;
    Builder(
      Ohlcv(c.time, if t.time == c.time then t.price else c.open, Max(c.high, t.price), Min(c.low, t.price),
            if t.time > b.lastTime then t.price else c.close, c.volume + t.volume),
      Later(b.lastTime, t.time))
  }

  function WithTrade(b: Builder, interval: int, t: Trade): Builder
    requires interval > 0
  {
    if t.time < b.candle.time then b else Absorb(Roll(b, interval, t.time), t)
  }

  class OhlcvFromTrades {
    var startTime: int
    var open: real
    var high: real
    var low: real
    var close: real
    var volume: real
    const interval: int
    var lastTime: int

    ghost predicate Valid() {
      interval > 0
    }

    ghost function State(): Builder
      reads this
    {
      Builder(Ohlcv(startTime, open, high, low, close, volume), lastTime)
    }

    constructor (startOhlcv: Ohlcv, interval: int)
      requires interval > 0
      ensures Valid() && this.interval == interval
      ensures State() == Start(startOhlcv)
    {
      startTime := startOhlcv.time;
      open, high, low := startOhlcv.open, startOhlcv.high, startOhlcv.low;
      close, volume := startOhlcv.close, startOhlcv.volume;
      this.interval := interval;
      lastTime := startOhlcv.time;
    }

    method StartNewCandle(currentTime: int)
      requires Valid()
      requires currentTime >= startTime + interval
      modifies this
      ensures State() == Roll(old(State()), interval, currentTime)
    {
      startTime := startTime + (currentTime - startTime) / interval * interval;
      open := close;
      high := close;
      low := close;
      volume := 0.0;
    }

    method AddTrade(time: int, price: real, tradeVolume: real)
      requires Valid()
      modifies this
      ensures State() == WithTrade(old(State()), interval, Trade(time, price, tradeVolume))
    {
      if time < startTime {
        return;
      }
      if time >= startTime + interval {
        StartNewCandle(time);
      }
      if time == startTime {
        open := price;
      }
      high := Max(high, price);
      low := Min(low, price);
      volume := volume + tradeVolume;
      if time > lastTime {
        close := price;
        lastTime := time;
      }
    }

    /** Calling with a time before the candle is excluded by an assertion in the original. */
    method GetOhlcv(currentTime: int) returns (candle: Ohlcv)
      requires Valid()
      requires currentTime >= startTime
      modifies this
      ensures State() == Roll(old(State()), interval, currentTime)
      ensures candle == State().candle
    {
      if currentTime >= startTime + interval {
        StartNewCandle(currentTime);
      }
      candle := Ohlcv(startTime, open, high, low, close, volume);
    }
  }
}
