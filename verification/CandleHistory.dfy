/** What a candle should be: recomputed from the whole trade history, with no builder in sight. */
module CandleHistory {
  import opened Trading
  import opened Intervals
  import opened OhlcvFromTrades
  import opened Search
  import opened Sums

  ghost predicate Ordered(h: seq<Trade>, start: int) {
    && (forall i :: 0 <= i < |h| ==> start <= h[i].time)
    && (forall i, j :: 0 <= i < j < |h| ==> h[i].time <= h[j].time)
  }

  /** The time of the latest trade, or of the first candle when there is none. */
  function LastTime(first: Ohlcv, h: seq<Trade>): int {
    if h == [] then first.time else Later(LastTime(first, h[..|h| - 1]), h[|h| - 1].time)
  }

  /** The closing price: a trade sets it only if it is later than everything before it. */
  function Close(first: Ohlcv, h: seq<Trade>): real {
    if h == [] then first.close else
      var n := |h| - 1;
      if h[n].time > LastTime(first, h[..n]) then h[n].price else Close(first, h[..n])
  }

  /** The index of the first trade at or after `s`, in an ordered history. */
  function Since(h: seq<Trade>, s: int): (k: nat)
    ensures k <= |h|
    ensures k == 0 || h[k - 1].time < s
    ensures forall i :: k <= i < |h| ==> s <= h[i].time
  {
    CountMeaning(h, TradeTime, s - 1);
    CountUpTo(h, TradeTime, s - 1)
  }

  /** The price of the last trade exactly at `s`, or `base`. */
  function Opening(base: real, s: int, trades: seq<Trade>): real {
    if trades == [] then base else
      var n := |trades| - 1;
      if trades[n].time == s then trades[n].price else Opening(base, s, trades[..n])
  }

  function Highest(base: real, trades: seq<Trade>): real {
    if trades == [] then base else Max(Highest(base, trades[..|trades| - 1]), trades[|trades| - 1].price)
  }

  function Lowest(base: real, trades: seq<Trade>): real {
    if trades == [] then base else Min(Lowest(base, trades[..|trades| - 1]), trades[|trades| - 1].price)
  }

  function Total(base: real, trades: seq<Trade>): real {
    if trades == [] then base else Total(base, trades[..|trades| - 1]) + trades[|trades| - 1].volume
  }

  /** Highest and Lowest bound the base and every trade, and are met by one of them. */
  lemma {:induction false} RangeMeaning(base: real, trades: seq<Trade>)
    ensures Lowest(base, trades) <= base <= Highest(base, trades)
    ensures forall i :: 0 <= i < |trades| ==> Lowest(base, trades) <= trades[i].price <= Highest(base, trades)
    ensures Highest(base, trades) == base || exists i :: 0 <= i < |trades| && trades[i].price == Highest(base, trades)
    ensures Lowest(base, trades) == base || exists i :: 0 <= i < |trades| && trades[i].price == Lowest(base, trades)
  {
    if trades != [] {
      var n := |trades| - 1;
      RangeMeaning(base, trades[..n]);
      assert forall i :: 0 <= i < n ==> trades[..n][i] == trades[i];
      assert Highest(base, trades) == Highest(base, trades[..n]) || Highest(base, trades) == trades[n].price;
      assert Lowest(base, trades) == Lowest(base, trades[..n]) || Lowest(base, trades) == trades[n].price;
    }
  }

  /** An ordered history closes at the first trade of its latest time, if that is later than the first
      candle's, and otherwise at the first candle's close. */
  lemma {:induction false} CloseMeaning(first: Ohlcv, h: seq<Trade>) returns (k: nat)
    requires Ordered(h, first.time)
    ensures LastTime(first, h) == if h == [] then first.time else h[|h| - 1].time
    ensures h == [] || h[|h| - 1].time == first.time ==> Close(first, h) == first.close
    ensures h != [] && h[|h| - 1].time > first.time ==>
              && k < |h| && h[k].time == h[|h| - 1].time && (k > 0 ==> h[k - 1].time < h[k].time)
              && Close(first, h) == h[k].price
  {
    k := 0;
    if h != [] {
      var n := |h| - 1;
      k := CloseMeaning(first, h[..n]);
      if h[n].time > LastTime(first, h[..n]) { k := n; }
    }
  }

  /** A candle opens at the last trade exactly at its start, if there is one, and otherwise as carried. */
  lemma {:induction false} OpeningMeaning(base: real, s: int, trades: seq<Trade>)
    ensures (forall i :: 0 <= i < |trades| ==> trades[i].time != s) ==> Opening(base, s, trades) == base
    ensures forall k :: 0 <= k < |trades| && trades[k].time == s && (forall i :: k < i < |trades| ==> trades[i].time != s) ==>
              Opening(base, s, trades) == trades[k].price
  {
    if trades != [] { OpeningMeaning(base, s, trades[..|trades| - 1]); }
  }

  /** The volume is what was carried and that of every trade. */
  lemma {:induction false} TotalIsSum(base: real, trades: seq<Trade>)
    ensures Total(base, trades) == base + SumOf(trades, TradeVolume)
  {
    if trades != [] { TotalIsSum(base, trades[..|trades| - 1]); }
  }

  /** What a candle carries over at its start: everything for the first candle, the last close after. */
  function Carried(first: Ohlcv, before: seq<Trade>, s: int): (c: Ohlcv)
    ensures c.time == s
  {
    if s == first.time then first else Flat(s, Close(first, before))
  }

  /** The candle that starts at `s`, recomputed from the history `h`. */
  function Recompute(first: Ohlcv, h: seq<Trade>, s: int): (c: Ohlcv)
    ensures c.time == s && c.close == Close(first, h)
  {
    var k := Since(h, s);
    var base := Carried(first, h[..k], s);
    Ohlcv(s, Opening(base.open, s, h[k..]), Highest(base.high, h[k..]), Lowest(base.low, h[k..]),
          Close(first, h), Total(base.volume, h[k..]))
  }

  lemma SnocParts<T>(h: seq<T>, t: T, k: nat)
    requires k <= |h|
    ensures (h + [t])[..|h|] == h && (h + [t])[..k] == h[..k] && (h + [t])[k..] == h[k..] + [t]
    ensures (h[k..] + [t])[..|h| - k] == h[k..]
  {
  }

  lemma FieldsSnoc(base: Ohlcv, s: int, trades: seq<Trade>, t: Trade)
    ensures Opening(base.open, s, trades + [t]) == if t.time == s then t.price else Opening(base.open, s, trades)
    ensures Highest(base.high, trades + [t]) == Max(Highest(base.high, trades), t.price)
    ensures Lowest(base.low, trades + [t]) == Min(Lowest(base.low, trades), t.price)
    ensures Total(base.volume, trades + [t]) == Total(base.volume, trades) + t.volume
  {
    assert (trades + [t])[..|trades|] == trades;
  }

  lemma CloseSnoc(first: Ohlcv, h: seq<Trade>, t: Trade)
    ensures Close(first, h + [t]) == if t.time > LastTime(first, h) then t.price else Close(first, h)
    ensures LastTime(first, h + [t]) == Later(LastTime(first, h), t.time)
  {
    assert (h + [t])[..|h|] == h;
  }

  lemma SinceSnoc(h: seq<Trade>, t: Trade, s: int)
    requires s <= t.time
    ensures Since(h + [t], s) == Since(h, s)
  {
    assert (h + [t])[..|h|] == h;
  }

  /** One more trade inside the candle changes the recomputation as the builder changes its candle. */
  lemma RecomputeSnoc(first: Ohlcv, h: seq<Trade>, t: Trade, s: int)
    requires s <= t.time
    ensures Recompute(first, h + [t], s) == Absorb(Builder(Recompute(first, h, s), LastTime(first, h)), t).candle
    ensures LastTime(first, h + [t]) == Later(LastTime(first, h), t.time)
  {
    hide Since, Close, LastTime, Opening, Highest, Lowest, Total, Carried;
    var k := Since(h, s);
    SinceSnoc(h, t, s);
    SnocParts(h, t, k);
    CloseSnoc(first, h, t);
    FieldsSnoc(Carried(first, h[..k], s), s, h[k..], t);
  }

  lemma RecomputeFresh(first: Ohlcv, h: seq<Trade>, s: int)
    requires s != first.time
    requires forall i :: 0 <= i < |h| ==> h[i].time < s
    ensures Recompute(first, h, s) == Flat(s, Close(first, h))
  {
    assert Since(h, s) == |h| && h[..|h|] == h;
  }

  lemma RecomputeNothing(first: Ohlcv, s: int)
    ensures Recompute(first, [], s) == Carried(first, [], s)
  {
  }

  /** A candle start is at most one interval before, a whole number of intervals from the first. */
  lemma CandleStartBounds(start: int, interval: int, now: int)
    requires interval > 0 && start <= now
    ensures var s := CandleStart(start, interval, now);
            start <= s <= now < s + interval && (s - start) % interval == 0
  {
    var q := (now - start) / interval;
    DivUnique(q * interval, interval, q);
  }

  lemma CandleStartStays(start: int, interval: int, now: int, later: int)
    requires interval > 0 && start <= now
    requires CandleStart(start, interval, now) <= later < CandleStart(start, interval, now) + interval
    ensures CandleStart(start, interval, later) == CandleStart(start, interval, now)
  {
    DivUnique(later - start, interval, (now - start) / interval);
  }

  /** Rolling from a candle start reaches the candle start counted from the beginning. */
  lemma CandleStartRolls(start: int, interval: int, now: int, later: int)
    requires interval > 0 && start <= now && CandleStart(start, interval, now) <= later
    ensures var s := CandleStart(start, interval, now);
            CandleStart(s, interval, later) == CandleStart(start, interval, later)
  {
    var q := (now - start) / interval;
    var x := later - (start + q * interval);
    var p := x / interval;
    assert (q + p) * interval == q * interval + p * interval;
    DivUnique(later - start, interval, q + p);
  }
}
