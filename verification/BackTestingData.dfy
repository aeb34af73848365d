/** The data a back test runs on: rows per pair, a clock that only moves forward, and answers about
    the rows up to the clock. */
module BackTestingData {
  import opened Trading
  import opened Candles
  import opened Intervals
  import Search

  // ---- Searching rows ----

  ghost predicate Ascending(rows: seq<Ohlcv>) {
    forall i, j :: 0 <= i < j < |rows| ==> rows[i].time < rows[j].time
  }

  /** How many rows are stamped at or before `t`. */
  function CountUpTo(rows: seq<Ohlcv>, t: int): (k: nat)
    ensures k <= |rows|
  {
    Search.CountUpTo(rows, RowTime, t)
  }

  lemma CountMeaning(rows: seq<Ohlcv>, t: int)
    requires Ascending(rows)
    ensures forall i :: 0 <= i < |rows| ==> (i < CountUpTo(rows, t) <==> rows[i].time <= t)
  {
    Search.CountMeaning(rows, RowTime, t);
    assert forall i :: 0 <= i < |rows| ==> RowTime(rows[i]) == rows[i].time;
  }

  lemma CountIs(rows: seq<Ohlcv>, t: int, k: nat)
    requires Ascending(rows) && k <= |rows|
    requires k > 0 ==> rows[k - 1].time <= t
    requires k < |rows| ==> t < rows[k].time
    ensures CountUpTo(rows, t) == k
  {
    CountMeaning(rows, t);
    var c := CountUpTo(rows, t);
    assert c < k ==> c <= k - 1;
  }

  /** The row in force at `t`: the last one at or before it. */
  function Cursor(rows: seq<Ohlcv>, t: int): (c: Option<nat>)
    ensures c.Some? ==> c.value < |rows|
  {
    var k := CountUpTo(rows, t);
    if k == 0 then None else Some(k - 1)
  }

  // ---- What the queries answer ----

  /** The time the `i`th candle counted back from `now` ends at. */
  function Upper(now: int, interval: int, i: nat): int {
    now - i * interval
  }

  /** The stamp of the candle that ends at `upper`: one interval earlier, but not before the first row. */
  function Stamp(rows: seq<Ohlcv>, interval: int, upper: int): int
    requires rows != []
  {
    Later(upper - interval, rows[0].time)
  }

  predicate Clamped(rows: seq<Ohlcv>, interval: int, upper: int)
    requires rows != []
  {
    upper - interval < rows[0].time
  }

  /** The rows merged into the candle that ends at `upper`: from the row in force at its stamp up to, and
      for a clamped candle including, a row stamped exactly `upper`. */
  function First(rows: seq<Ohlcv>, interval: int, upper: int): int
    requires rows != []
  {
    CountUpTo(rows, Stamp(rows, interval, upper)) - 1
  }

  function Limit(rows: seq<Ohlcv>, interval: int, upper: int): nat
    requires rows != []
  {
    CountUpTo(rows, if Clamped(rows, interval, upper) then upper else upper - 1)
  }

  lemma RangeNotEmpty(rows: seq<Ohlcv>, interval: int, upper: int)
    requires Ascending(rows) && rows != [] && rows[0].time < upper && interval > 0
    ensures 0 <= First(rows, interval, upper) < Limit(rows, interval, upper) <= |rows|
  {
    var first, limit := First(rows, interval, upper), Limit(rows, interval, upper);
    CountMeaning(rows, Stamp(rows, interval, upper));
    CountMeaning(rows, if Clamped(rows, interval, upper) then upper else upper - 1);
    assert 0 < first + 1;
    assert rows[first].time <= Stamp(rows, interval, upper);
  }

  ghost function CandleEnding(rows: seq<Ohlcv>, interval: int, upper: int): Ohlcv
    requires Ascending(rows) && rows != [] && rows[0].time < upper && interval > 0
  {
    RangeNotEmpty(rows, interval, upper);
    Merge(rows[First(rows, interval, upper)..Limit(rows, interval, upper)], Stamp(rows, interval, upper))
  }

  /** How many candles fit between the first row and `now`, at most `count`. */
  function CandleCount(rows: seq<Ohlcv>, now: int, interval: int, count: nat): (n: nat)
    requires interval > 0
  {
    if rows == [] || now <= rows[0].time then 0 else
      CeilDivFits(now - rows[0].time, interval);
      var n := CeilDiv(now - rows[0].time, interval);
      if n < count then n else count
  }

  lemma UpperInside(rows: seq<Ohlcv>, now: int, interval: int, count: nat, i: nat)
    requires interval > 0 && i < CandleCount(rows, now, interval, count)
    ensures rows != [] && rows[0].time < Upper(now, interval, i)
  {
    var x := now - rows[0].time;
    CeilDivFits(x, interval);
    MulOrder(i, CeilDiv(x, interval), interval);
  }

  ghost function CandlesAt(rows: seq<Ohlcv>, now: int, interval: int, count: nat): (cs: seq<Ohlcv>)
    requires Ascending(rows) && interval > 0
    ensures |cs| == CandleCount(rows, now, interval, count)
  {
    seq(CandleCount(rows, now, interval, count), i requires 0 <= i < CandleCount(rows, now, interval, count) =>
      UpperInside(rows, now, interval, count, i);
      CandleEnding(rows, interval, Upper(now, interval, i)))
  }

  /** A candle that is not clamped to the first row merges exactly the rows whose span, from their own
      stamp to the next row's, meets the candle's interval. */
  lemma UnclampedRange(rows: seq<Ohlcv>, interval: int, upper: int, j: nat)
    requires Ascending(rows) && rows != [] && rows[0].time < upper && interval > 0 && j < |rows|
    requires !Clamped(rows, interval, upper)
    ensures var stamp := Stamp(rows, interval, upper);
            First(rows, interval, upper) <= j < Limit(rows, interval, upper) <==>
            rows[j].time < stamp + interval && (j + 1 < |rows| ==> stamp < rows[j + 1].time)
  {
    CountMeaning(rows, Stamp(rows, interval, upper));
    CountMeaning(rows, upper - 1);
  }

  /** The clamped candle, always the last, starts at the first row and merges every row up to and
      including one stamped exactly at its end, which an unclamped candle would leave out. */
  lemma ClampedRange(rows: seq<Ohlcv>, interval: int, upper: int, j: nat)
    requires Ascending(rows) && rows != [] && rows[0].time < upper && interval > 0 && j < |rows|
    requires Clamped(rows, interval, upper)
    ensures Stamp(rows, interval, upper) == rows[0].time
    ensures First(rows, interval, upper) <= j < Limit(rows, interval, upper) <==> rows[j].time <= upper
  {
    CountIs(rows, rows[0].time, 1);
    CountMeaning(rows, upper);
  }

  /** How many rows two adjacent candles share: none when the older one is not clamped and a row starts
      exactly between them, and otherwise the one in force there. */
  lemma SharedRow(rows: seq<Ohlcv>, interval: int, upper: int)
    requires Ascending(rows) && rows != [] && interval > 0 && rows[0].time < upper - interval
    ensures var next := upper - interval;
            var first := First(rows, interval, upper);
            && 0 <= first < |rows|
            && Limit(rows, interval, next) - first ==
               if !Clamped(rows, interval, next) && rows[first].time == next then 0 else 1
  {
    var next := upper - interval;
    var first := First(rows, interval, upper);
    RangeNotEmpty(rows, interval, upper);
    CountMeaning(rows, next);
    if !Clamped(rows, interval, next) {
      CountIs(rows, next - 1, if rows[first].time == next then first else first + 1);
    }
  }

  lemma {:induction false} VolumeOfJoin(a: seq<Ohlcv>, b: seq<Ohlcv>)
    ensures Volume(a + b) == Volume(a) + Volume(b)
    decreases |b|
  {
    if b == [] {
      assert a + b == a;
    } else {
      var n := |b| - 1;
      assert (a + b)[..|a + b| - 1] == a + b[..n];
      VolumeOfJoin(a, b[..n]);
    }
  }

  lemma VolumeOfOne(row: Ohlcv)
    ensures Volume([row]) == row.volume
  {
    assert Volume([row][..0]) == 0.0;
  }

  /** The volumes of two adjacent candles add up to that of the rows they span, with the shared row, if
      there is one, counted twice. */
  lemma SharedVolume(rows: seq<Ohlcv>, interval: int, upper: int)
    requires Ascending(rows) && rows != [] && interval > 0 && rows[0].time < upper - interval
    ensures var next := upper - interval;
            var first, middle := First(rows, interval, next), First(rows, interval, upper);
            && 0 <= first <= middle < Limit(rows, interval, upper) <= |rows|
            && CandleEnding(rows, interval, next).volume + CandleEnding(rows, interval, upper).volume ==
               Volume(rows[first..Limit(rows, interval, upper)]) +
               if !Clamped(rows, interval, next) && rows[middle].time == next then 0.0 else rows[middle].volume
  {
    hide Ascending, First, Limit, Volume, Clamped;
    var next := upper - interval;
    var first, middle := First(rows, interval, next), First(rows, interval, upper);
    var end, limit := Limit(rows, interval, next), Limit(rows, interval, upper);
    RangeNotEmpty(rows, interval, next);
    RangeNotEmpty(rows, interval, upper);
    SharedRow(rows, interval, upper);
    assert rows[first..limit] == rows[first..end] + rows[end..limit];
    VolumeOfJoin(rows[first..end], rows[end..limit]);
    if end == middle + 1 {
      assert rows[middle..limit] == [rows[middle]] + rows[end..limit];
      VolumeOfJoin([rows[middle]], rows[end..limit]);
      VolumeOfOne(rows[middle]);
    }
  }

  // ---- Two rows that show it ----

  /** Two rows a minute apart, of volume 1 and 2. */
  function TwoRows(): seq<Ohlcv> {
    [Ohlcv(100, 2.0, 4.0, 1.0, 3.0, 1.0), Ohlcv(160, 6.0, 9.0, 5.0, 8.0, 2.0)]
  }

  lemma TwoRowsCount(t: int)
    ensures Ascending(TwoRows())
    ensures CountUpTo(TwoRows(), t) == if t < 100 then 0 else if t < 160 then 1 else 2
  {
    CountIs(TwoRows(), t, if t < 100 then 0 else if t < 160 then 1 else 2);
  }

  /** At 160 a candle of two minutes, clamped to the first row, already contains the row that starts at
      160; a candle of one minute, which is not clamped, does not. */
  lemma ClampedCandleWitness()
    ensures Ascending(TwoRows())
    ensures Clamped(TwoRows(), 120, 160) && CandleEnding(TwoRows(), 120, 160) == Ohlcv(100, 2.0, 9.0, 1.0, 8.0, 3.0)
    ensures !Clamped(TwoRows(), 60, 160) && CandleEnding(TwoRows(), 60, 160) == Ohlcv(100, 2.0, 4.0, 1.0, 3.0, 1.0)
  {
    hide Ascending, CountUpTo;
    var rows := TwoRows();
    TwoRowsCount(100);
    TwoRowsCount(159);
    TwoRowsCount(160);
    assert rows[0..2] == [rows[0]] + [rows[1]] && rows[0..1] == [rows[0]];
    MergeSnoc([rows[0]], rows[1], 100);
    MergeOne(rows[0], 100);
  }

  /** The candles are as many as it takes to reach the first row, and stamped one interval apart. */
  lemma CandleStamps(rows: seq<Ohlcv>, now: int, interval: int, count: nat, i: nat)
    requires Ascending(rows) && interval > 0 && i < CandleCount(rows, now, interval, count)
    ensures rows != [] && rows[0].time < now
    ensures var cs := CandlesAt(rows, now, interval, count);
            && cs[i].time == Later(now - (i + 1) * interval, rows[0].time)
            && (now - (i + 1) * interval <= rows[0].time ==> i == |cs| - 1)
            && (i == |cs| - 1 < count - 1 ==> cs[i].time == rows[0].time)
  {
    var x, n := now - rows[0].time, CeilDiv(now - rows[0].time, interval);
    UpperInside(rows, now, interval, count, i);
    MulAdds(i, 1, interval);
    CeilDivFits(x, interval);
    MulOrder(i + 1, n, interval);
  }

  /** There are as many candles as asked for, or just as many as it takes to get back to the first row. */
  lemma CandleNumber(rows: seq<Ohlcv>, now: int, interval: int, count: nat)
    requires Ascending(rows) && interval > 0
    ensures var n := |CandlesAt(rows, now, interval, count)|;
            && n <= count
            && (rows == [] || now <= rows[0].time ==> n == 0)
            && (rows != [] && n > 0 ==> rows[0].time < now - (n - 1) * interval)
            && (rows != [] && n < count ==> now - n * interval <= rows[0].time)
  {
    var n: int := CandleCount(rows, now, interval, count);
    if rows != [] && rows[0].time < now {
      var x := now - rows[0].time;
      var whole := CeilDiv(x, interval);
      CeilDivFits(x, interval);
      MulOrder(n - 1, whole, interval);
      MulOrder(0, whole, interval);
      MulAdds(n - 1, 1, interval);
    } else {
      MulOrder(0, n, interval);
    }
  }

  /** Row `j` is the one in force at `t`. */
  predicate InForceAt(rows: seq<Ohlcv>, t: int, j: nat) {
    j < |rows| && rows[j].time <= t && (j + 1 < |rows| ==> t < rows[j + 1].time)
  }

  /** Merging rows `j` to `k`, told row by row. */
  lemma CoversRange(rows: seq<Ohlcv>, j: nat, k: nat, stamp: int)
    requires j <= k < |rows|
    ensures var c := Merge(rows[j..k + 1], stamp);
            && c.open == rows[j].open && c.close == rows[k].close
            && (forall m :: j <= m <= k ==> c.low <= rows[m].low && rows[m].high <= c.high)
            && (exists m :: j <= m <= k && rows[m].low == c.low) && (exists m :: j <= m <= k && rows[m].high == c.high)
  {
    var part := rows[j..k + 1];
    HighLowMeaning(part);
    var l :| 0 <= l < |part| && part[l].low == Low(part);
    var h :| 0 <= h < |part| && part[h].high == High(part);
    assert rows[j + l].low == Low(part) && rows[j + h].high == High(part);
    forall m | j <= m <= k ensures Low(part) <= rows[m].low && rows[m].high <= High(part) {
      assert part[m - j] == rows[m];
    }
  }

  /** What the `i`th candle counted back from `now` shows, told by the stamps of the rows: it opens with the
      row in force at its stamp, closes with the last row before its end, or at its end if there is no full
      interval before that, and covers all rows from the one to the other. */
  lemma CandleMeaning(rows: seq<Ohlcv>, now: int, interval: int, count: nat, i: nat) returns (j: nat, k: nat)
    requires Ascending(rows) && interval > 0 && i < |CandlesAt(rows, now, interval, count)|
    ensures rows != []
    ensures var stamp, end := now - (i + 1) * interval, now - i * interval;
            var c := CandlesAt(rows, now, interval, count)[i];
            && InForceAt(rows, Later(stamp, rows[0].time), j)
            && InForceAt(rows, if stamp < rows[0].time then end else end - 1, k)
            && j <= k
            && c.time == Later(stamp, rows[0].time)
            && c.open == rows[j].open && c.close == rows[k].close
            && (forall m :: j <= m <= k ==> c.low <= rows[m].low && rows[m].high <= c.high)
            && (exists m :: j <= m <= k && rows[m].low == c.low) && (exists m :: j <= m <= k && rows[m].high == c.high)
            && c.volume == Volume(rows[j..k + 1])
  {
    UpperInside(rows, now, interval, count, i);
    MulAdds(i, 1, interval);
    var upper := Upper(now, interval, i);
    var stamp := Stamp(rows, interval, upper);
    RangeNotEmpty(rows, interval, upper);
    j, k := First(rows, interval, upper), Limit(rows, interval, upper) - 1;
    CountMeaning(rows, stamp);
    CountMeaning(rows, if Clamped(rows, interval, upper) then upper else upper - 1);
    CoversRange(rows, j, k, stamp);
  }

  datatype Query =
    | GetOhlcv(pair: Pair, interval: int, count: nat)
    | GetTrade(pair: Pair)
    | GetOrderBook(pair: Pair, depth: int)
  {
    predicate Valid() {
      GetOhlcv? ==> interval > 0
    }
  }

  datatype Answer =
    | Candles(candles: seq<Ohlcv>)
    | LastTrade(trade: Trade)
    | Book(book: BookState)

  ghost function TradeAt(rows: seq<Ohlcv>, now: int): Trade {
    match Cursor(rows, now)
    case None => Trade(0, 0.0, 0.0)
    case Some(c) =>
      var row := rows[c];
      Trade(row.time, if c + 1 == |rows| && row.time < now then row.close else row.open, row.volume)
  }

  ghost function BookAt(rows: seq<Ohlcv>, now: int): BookState {
    match Cursor(rows, now)
    case None => BookState(0, [], [])
    case Some(c) =>
      var row := rows[c];
      BookState(row.time, [Entry(row.high, row.volume, Side.Ask)], [Entry(row.low, row.volume, Side.Bid)])
  }

  /** The last trade is that of the row in force: at its close if no row follows and it began before now,
      and otherwise at its open. Before the first row there is none, which a price of 0 stands for. */
  lemma TradeMeaning(rows: seq<Ohlcv>, now: int) returns (j: nat)
    requires Ascending(rows)
    ensures rows == [] || now < rows[0].time ==> TradeAt(rows, now) == Trade(0, 0.0, 0.0)
    ensures rows != [] && rows[0].time <= now ==>
              && InForceAt(rows, now, j)
              && TradeAt(rows, now).time == rows[j].time && TradeAt(rows, now).volume == rows[j].volume
              && (j == |rows| - 1 && rows[j].time < now ==> TradeAt(rows, now).price == rows[j].close)
              && (j < |rows| - 1 || rows[j].time == now ==> TradeAt(rows, now).price == rows[j].open)
  {
    CountMeaning(rows, now);
    var n := CountUpTo(rows, now);
    j := if n == 0 then 0 else n - 1;
  }

  /** The book holds one ask, at the high of the row in force, and one bid, at its low. */
  lemma BookMeaning(rows: seq<Ohlcv>, now: int) returns (j: nat)
    requires Ascending(rows)
    ensures rows == [] || now < rows[0].time ==> BookAt(rows, now) == BookState(0, [], [])
    ensures rows != [] && rows[0].time <= now ==>
              && InForceAt(rows, now, j)
              && BookAt(rows, now).time == rows[j].time
              && BookAt(rows, now).asks == [Entry(rows[j].high, rows[j].volume, Side.Ask)]
              && BookAt(rows, now).bids == [Entry(rows[j].low, rows[j].volume, Side.Bid)]
  {
    CountMeaning(rows, now);
    var n := CountUpTo(rows, now);
    j := if n == 0 then 0 else n - 1;
  }

  /** The answer a fresh search of the rows gives. */
  ghost function Fresh(rows: seq<Ohlcv>, now: int, q: Query): Answer
    requires Ascending(rows) && q.Valid()
  {
    match q
    case GetOhlcv(_, interval, count) => Candles(CandlesAt(rows, now, interval, count))
    case GetTrade(_) => LastTrade(TradeAt(rows, now))
    case GetOrderBook(_, _) => Book(BookAt(rows, now))
  }

  // ---- The data engine ----

  type DataSource = (Pair, int) -> seq<Ohlcv>

  /** Merges the rows from `start` up to `end`, and the row at `start` in any case. */
  method MergeOhlcv(rows: seq<Ohlcv>, start: nat, end: nat, targetTime: int) returns (merged: Ohlcv)
    requires start < |rows| && end <= |rows|
    ensures merged == Merge(rows[start..Later(start + 1, end)], targetTime)
  {
    var open, high, low := rows[start].open, rows[start].high, rows[start].low;
    var close, volume := rows[start].close, rows[start].volume;
    var it := start + 1;
    merged := Ohlcv(targetTime, open, high, low, close, volume);
    assert rows[start..it] == [rows[start]];
    MergeOne(rows[start], targetTime);
    while it < end
      invariant start < it <= Later(start + 1, end)
      invariant Ohlcv(targetTime, open, high, low, close, volume) == Merge(rows[start..it], targetTime)
    {
      assert rows[start..it + 1] == rows[start..it] + [rows[it]];
      MergeSnoc(rows[start..it], rows[it], targetTime);
      high := Max(high, rows[it].high);
      low := Min(low, rows[it].low);
      close := rows[it].close;
      volume := volume + rows[it].volume;
      it := it + 1;
    }
    merged := Ohlcv(targetTime, open, high, low, close, volume);
  }

  /** Moves forward from `start` to the row in force at `time`, stepping back once if it went too far. */
  method Scan(rows: seq<Ohlcv>, time: int, start: nat) returns (it: nat)
    requires Ascending(rows) && start < |rows|
    requires rows[start].time <= time <= rows[|rows| - 1].time
    ensures it < |rows| && rows[it].time <= time
    ensures Cursor(rows, time) == Some(it)
  {
    var i: int := start;
    while i != |rows|
      invariant 0 <= i < |rows|
      invariant rows[i].time <= time || (i > 0 && rows[i - 1].time < time)
      decreases |rows| - i
    {
      var timeStamp := rows[i].time;
      if timeStamp > time {
        i := i - 1;
        break;
      }
      if timeStamp == time {
        break;
      }
      i := i + 1;
    }
    CountIs(rows, time, i + 1);
    it := i;
  }

  /** Where the walk back for one candle ends up: `end` is the row in force at `upper`, and `start` the
      first row from there back that is not later than the candle's stamp. */
  lemma WalkBack(rows: seq<Ohlcv>, interval: int, upper: int, end: nat, start: nat)
    requires Ascending(rows) && rows != [] && rows[0].time < upper && interval > 0
    requires start <= end < |rows| && Cursor(rows, upper) == Some(end)
    requires rows[start].time <= Stamp(rows, interval, upper)
    requires start < end ==> Stamp(rows, interval, upper) < rows[start + 1].time
    ensures First(rows, interval, upper) == start
    ensures Limit(rows, interval, upper) ==
            if Stamp(rows, interval, upper) + interval > rows[end].time then end + 1 else end
    ensures Cursor(rows, Stamp(rows, interval, upper)) == Some(start)
    ensures start < Limit(rows, interval, upper) <= |rows|
    ensures Stamp(rows, interval, upper) == rows[0].time ==> start == 0
  {
    var stamp := Stamp(rows, interval, upper);
    CountMeaning(rows, upper);
    assert rows[end].time <= upper && (end + 1 < |rows| ==> upper < rows[end + 1].time);
    CountIs(rows, stamp, start + 1);
    if !Clamped(rows, interval, upper) {
      CountIs(rows, upper - 1, if upper > rows[end].time then end + 1 else end);
    }
    RangeNotEmpty(rows, interval, upper);
  }

  /** When the walk has reached the first row there is no further candle, and otherwise there is one. */
  lemma WalkEnds(rows: seq<Ohlcv>, now: int, interval: int, count: nat, i: nat)
    requires rows != [] && interval > 0 && i < count
    requires rows[0].time < Upper(now, interval, i)
    ensures i < CandleCount(rows, now, interval, count)
    ensures Upper(now, interval, i + 1) == Upper(now, interval, i) - interval
    ensures Upper(now, interval, i + 1) <= rows[0].time ==> i + 1 == CandleCount(rows, now, interval, count)
  {
    var x, n := now - rows[0].time, CeilDiv(now - rows[0].time, interval);
    CeilDivFits(x, interval);
    MulOrder(i, n, interval);
    MulOrder(i + 1, n, interval);
    MulAdds(i, 1, interval);
    MulOrder(i, 0, interval);
  }

  lemma AllCounted(rows: seq<Ohlcv>, now: int, interval: int, count: nat)
    requires rows != [] && interval > 0 && rows[0].time < now && rows[0].time < Upper(now, interval, count)
    ensures CandleCount(rows, now, interval, count) == count
  {
    var x, n := now - rows[0].time, CeilDiv(now - rows[0].time, interval);
    CeilDivFits(x, interval);
    MulOrder(count, n, interval);
  }

  lemma CandlesAre(rows: seq<Ohlcv>, now: int, interval: int, count: nat, cs: seq<Ohlcv>)
    requires Ascending(rows) && rows != [] && interval > 0
    requires |cs| == CandleCount(rows, now, interval, count)
    requires forall j :: 0 <= j < |cs| ==> rows[0].time < Upper(now, interval, j) &&
                                           cs[j] == CandleEnding(rows, interval, Upper(now, interval, j))
    ensures cs == CandlesAt(rows, now, interval, count)
  {
  }

  lemma StampIs(rows: seq<Ohlcv>, interval: int, upper: int)
    requires rows != []
    ensures Stamp(rows, interval, upper) == Later(upper - interval, rows[0].time)
  {
  }

  /** The backward walk: each turn cuts off the rows of one candle, newest first. */
  method CutCandles(rows: seq<Ohlcv>, dataTime: int, cursor: nat, interval: int, count: nat)
    returns (candles: seq<Ohlcv>)
    requires Ascending(rows) && interval > 0 && cursor < |rows| && rows[0].time < dataTime
    requires Cursor(rows, dataTime) == Some(cursor)
    ensures candles == CandlesAt(rows, dataTime, interval, count)
  {
    hide Ascending, Stamp, First, Limit, Merge, CandleCount, Cursor;
    var startTime := rows[0].time;
    var targetTime := dataTime;
    var end := cursor;
    var i := 0;
    candles := [];
    while i < count
      invariant 0 <= i <= count && |candles| == i
      invariant targetTime == Upper(dataTime, interval, i) && startTime < targetTime
      invariant end < |rows| && Cursor(rows, targetTime) == Some(end)
      invariant i <= CandleCount(rows, dataTime, interval, count)
      invariant forall j :: 0 <= j < i ==> startTime < Upper(dataTime, interval, j) &&
                                           candles[j] == CandleEnding(rows, interval, Upper(dataTime, interval, j))
    {
      WalkEnds(rows, dataTime, interval, count, i);
      ghost var upper := targetTime;
      targetTime := Later(targetTime - interval, startTime);
      StampIs(rows, interval, upper);
      var start := end;
      var stop := end;
      if targetTime + interval > rows[end].time {
        stop := stop + 1;
      }
      while rows[start].time > targetTime && start != 0
        invariant 0 <= start <= end
        invariant start < end ==> targetTime < rows[start + 1].time
        decreases start
      {
        start := start - 1;
      }
      WalkBack(rows, interval, upper, end, start);
      var merged := MergeOhlcv(rows, start, stop, targetTime);
      candles := candles + [merged];
      i := i + 1;
      if targetTime == startTime && start == 0 {
        assert i == CandleCount(rows, dataTime, interval, count);
        break;
      }
      end := start;
    }
    if i == count && startTime < Upper(dataTime, interval, i) {
      AllCounted(rows, dataTime, interval, count);
    }
    CandlesAre(rows, dataTime, interval, count, candles);
  }

  lemma NoCandles(rows: seq<Ohlcv>, now: int, interval: int, count: nat)
    requires Ascending(rows) && interval > 0
    ensures (rows == [] || now <= rows[0].time) ==> CandlesAt(rows, now, interval, count) == []
  {
  }

  lemma CursorMeaning(rows: seq<Ohlcv>, now: int)
    requires Ascending(rows) && rows != []
    ensures Cursor(rows, now).None? <==> now < rows[0].time
    ensures Cursor(rows, now).Some? ==> rows[Cursor(rows, now).value].time <= now
  {
    CountMeaning(rows, now);
  }

  class BackTestingData {
    const tradablePairs: seq<Pair>
    const startTime: int
    const endTime: int
    const stepSize: int
    const timeSteps: int
    const dataSource: Option<DataSource>
    var data: map<Pair, seq<Ohlcv>>
    var dataTime: int
    var iteratorCache: map<Pair, nat>

    /** How often each pair was loaded from the data source. */
    ghost var loads: multiset<Pair>

    /** The rows this engine answers from, loaded yet or not. */
    ghost function Rows(pair: Pair): seq<Ohlcv>
      reads `data
    {
      if pair in data then data[pair]
      else if dataSource.Some? then dataSource.value(pair, stepSize)
      else []
    }

    ghost predicate Valid()
      reads this
    {
      && stepSize > 0
      && (forall p :: p in data ==> Ascending(data[p]))
      && (dataSource.Some? ==> forall p :: Ascending(dataSource.value(p, stepSize)))
      && (forall p :: p in loads ==> p in data && loads[p] == 1)
      && (dataSource.None? ==> loads == multiset{})
      && (forall p :: p in iteratorCache ==>
            p in data && iteratorCache[p] < |data[p]| && data[p][iteratorCache[p]].time <= dataTime)
    }

    constructor (tradablePairs: seq<Pair>, data: map<Pair, seq<Ohlcv>>, startTime: int, endTime: int,
                 stepSize: int, timeSteps: int, dataSource: Option<DataSource>)
      requires stepSize > 0
      requires forall p :: p in data ==> Ascending(data[p])
      requires dataSource.Some? ==> forall p :: Ascending(dataSource.value(p, stepSize))
      ensures Valid() && dataTime == startTime && this.data == data && loads == multiset{}
      ensures this.startTime == startTime && this.endTime == endTime && this.stepSize == stepSize
      ensures this.timeSteps == timeSteps && this.dataSource == dataSource && this.tradablePairs == tradablePairs
    {
      this.tradablePairs := tradablePairs;
      this.data := data;
      this.startTime, this.endTime := startTime, endTime;
      this.stepSize, this.timeSteps := stepSize, timeSteps;
      this.dataSource := dataSource;
      dataTime := startTime;
      iteratorCache := map[];
      loads := multiset{};
    }

    method GetOrLoadData(pair: Pair) returns (rows: seq<Ohlcv>)
      requires Valid()
      modifies `data, `loads
      ensures Valid()
      ensures pair in data && rows == data[pair] == old(Rows(pair))
      ensures forall p :: Rows(p) == old(Rows(p))
      ensures loads == old(if pair in data || dataSource.None? then loads else loads + multiset{pair})
    {
      if pair in data {
        return data[pair];
      }
      if dataSource.Some? {
        rows := dataSource.value(pair, stepSize);
        loads := loads + multiset{pair};
      } else {
        rows := [];
      }
      data := data[pair := rows];
    }

    method Increment()
      requires Valid()
      modifies `dataTime
      ensures Valid() && dataTime == old(dataTime) + stepSize
      ensures forall p :: Rows(p) == old(Rows(p))
    {
      dataTime := dataTime + stepSize;
    }

    /** `rows` is a reference into the data in the original. */
    method GetIterator(rows: seq<Ohlcv>, pair: Pair) returns (it: Option<nat>)
      requires Valid() && pair in data && rows == data[pair]
      modifies `iteratorCache
      ensures Valid() && it == Cursor(rows, dataTime)
    {
      hide Ascending;
      if rows == [] || dataTime < rows[0].time {
        CountIs(rows, dataTime, 0);
        return None;
      }
      if dataTime > rows[|rows| - 1].time {
        return Some(|rows| - 1);
      }
      var start := if pair in iteratorCache then iteratorCache[pair] else 0;
      var i := Scan(rows, dataTime, start);
      iteratorCache := iteratorCache[pair := i];
      it := Some(i);
    }

    method GetOhlcv(pair: Pair, interval: int, count: nat) returns (candles: seq<Ohlcv>)
      requires Valid() && interval > 0
      modifies `data, `loads, `iteratorCache
      ensures Valid() && forall p :: Rows(p) == old(Rows(p))
      ensures candles == CandlesAt(Rows(pair), dataTime, interval, count)
    {
      hide Cursor, CandlesAt;
      var pairData := GetOrLoadData(pair);
      NoCandles(pairData, dataTime, interval, count);
      if pairData == [] {
        return [];
      }
      var it := GetIterator(pairData, pair);
      var startTime := pairData[0].time;
      CursorMeaning(pairData, dataTime);
      if it.None? || (it.value == 0 && dataTime == startTime) {
        return [];
      }
      candles := CutCandles(pairData, dataTime, it.value, interval, count);
    }

    method GetTrade(pair: Pair) returns (trade: Trade)
      requires Valid()
      modifies `data, `loads, `iteratorCache
      ensures Valid() && forall p :: Rows(p) == old(Rows(p))
      ensures trade == TradeAt(Rows(pair), dataTime)
    {
      var pairData := GetOrLoadData(pair);
      var it := GetIterator(pairData, pair);
      if it.None? {
        return Trade(0, 0.0, 0.0);
      }
      var row := pairData[it.value];
      var price: real;
      if it.value + 1 == |pairData| && dataTime > row.time {
        price := row.close;
      } else {
        price := row.open;
      }
      trade := Trade(row.time, price, row.volume);
    }

    method GetOrderBook(pair: Pair, depth: int) returns (book: BookState)
      requires Valid()
      modifies `data, `loads, `iteratorCache
      ensures Valid() && forall p :: Rows(p) == old(Rows(p))
      ensures book == BookAt(Rows(pair), dataTime)
    {
      var pairData := GetOrLoadData(pair);
      var it := GetIterator(pairData, pair);
      if it.None? {
        return BookState(0, [], []);
      }
      var row := pairData[it.value];
      book := BookState(row.time, [Entry(row.high, row.volume, Side.Ask)], [Entry(row.low, row.volume, Side.Bid)]);
    }

    /** Whatever was asked and loaded before, the answer is the one a fresh search of the rows gives. */
    method AnswerTo(q: Query) returns (answer: Answer)
      requires Valid() && q.Valid()
      modifies `data, `loads, `iteratorCache
      ensures Valid() && forall p :: Rows(p) == old(Rows(p))
      ensures answer == Fresh(Rows(q.pair), dataTime, q)
    {
      match q {
        case GetOhlcv(pair, interval, count) =>
          var candles := GetOhlcv(pair, interval, count);
          answer := Candles(candles);
        case GetTrade(pair) =>
          var trade := GetTrade(pair);
          answer := LastTrade(trade);
        case GetOrderBook(pair, depth) =>
          var book := GetOrderBook(pair, depth);
          answer := Book(book);
      }
    }
  }
}
