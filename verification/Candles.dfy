/** Merging a run of candles into one. */
module Candles {
  import opened Trading

  function High(cs: seq<Ohlcv>): real
    requires cs != []
  {
    var n := |cs| - 1;
    if n == 0 then cs[0].high else Max(High(cs[..n]), cs[n].high)
  }

  function Low(cs: seq<Ohlcv>): real
    requires cs != []
  {
    var n := |cs| - 1;
    if n == 0 then cs[0].low else Min(Low(cs[..n]), cs[n].low)
  }

  function Volume(cs: seq<Ohlcv>): real {
    if cs == [] then 0.0 else Volume(cs[..|cs| - 1]) + cs[|cs| - 1].volume
  }

  /** First open, highest high, lowest low, last close, total volume. */
  function Merge(cs: seq<Ohlcv>, stamp: int): Ohlcv
    requires cs != []
  {
    Ohlcv(stamp, cs[0].open, High(cs), Low(cs), cs[|cs| - 1].close, Volume(cs))
  }

  /** High and Low are what their names say: a bound on every candle, met by one of them. */
  lemma {:induction false} HighLowMeaning(cs: seq<Ohlcv>)
    requires cs != []
    ensures forall i :: 0 <= i < |cs| ==> Low(cs) <= cs[i].low && cs[i].high <= High(cs)
    ensures exists i :: 0 <= i < |cs| && cs[i].high == High(cs)
    ensures exists i :: 0 <= i < |cs| && cs[i].low == Low(cs)
  {
    var n := |cs| - 1;
    if n == 0 {
      assert cs[0].high == High(cs) && cs[0].low == Low(cs);
    } else {
      HighLowMeaning(cs[..n]);
      var h :| 0 <= h < n && cs[..n][h].high == High(cs[..n]);
      var l :| 0 <= l < n && cs[..n][l].low == Low(cs[..n]);
      assert High(cs) == cs[h].high || High(cs) == cs[n].high;
      assert Low(cs) == cs[l].low || Low(cs) == cs[n].low;
      forall i | 0 <= i < |cs| ensures Low(cs) <= cs[i].low && cs[i].high <= High(cs) {
        if i < n { assert cs[..n][i] == cs[i]; }
      }
    }
  }

  /** The candle `c` folded into the merged candle `m`. */
  function Join(m: Ohlcv, c: Ohlcv): Ohlcv {
    Ohlcv(m.time, m.open, Max(m.high, c.high), Min(m.low, c.low), c.close, m.volume + c.volume)
  }

  lemma MergeOne(c: Ohlcv, stamp: int)
    ensures Merge([c], stamp) == c.(time := stamp)
  {
    assert Volume([c][..0]) == 0.0;
  }

  lemma MergeSnoc(cs: seq<Ohlcv>, c: Ohlcv, stamp: int)
    requires cs != []
    ensures Merge(cs + [c], stamp) == Join(Merge(cs, stamp), c)
  {
    assert (cs + [c])[..|cs|] == cs;
  }

  /** Merging two adjacent runs and joining the results is merging the whole: candles may be rolled
      up in stages. */
  lemma {:induction false} MergeInStages(a: seq<Ohlcv>, b: seq<Ohlcv>, stamp: int, t: int)
    requires a != [] && b != []
    ensures Merge(a + b, stamp) == Join(Merge(a, stamp), Merge(b, t))
    decreases |b|
  {
    var n := |b| - 1;
    if n == 0 {
      assert b == [b[0]] && Volume(b[..0]) == 0.0;
      assert Merge(b, t) == Ohlcv(t, b[0].open, b[0].high, b[0].low, b[0].close, b[0].volume);
      MergeSnoc(a, b[0], stamp);
    } else {
      assert a + b == (a + b[..n]) + [b[n]] && b == b[..n] + [b[n]];
      MergeInStages(a, b[..n], stamp, t);
      MergeSnoc(a + b[..n], b[n], stamp);
      MergeSnoc(b[..n], b[n], t);
    }
  }
}
