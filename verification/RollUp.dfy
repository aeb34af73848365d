/** Candles of a short interval roll up into candles of any multiple of it. */
module RollUp {
  import opened Trading
  import opened Candles
  import opened Intervals
  import opened OhlcvFromTrades
  import opened CandleHistory
  import opened CandleRuns

  function Pushes(h: seq<Trade>): seq<Event> {
    if h == [] then [] else Pushes(h[..|h| - 1]) + [Push(h[|h| - 1])]
  }

  /** The trades of an ordered history up to and including time `t`. */
  function UpTo(h: seq<Trade>, t: int): seq<Trade> {
    h[..Since(h, t + 1)]
  }

  /** The candle a builder of this interval shows at time `t` after the trades so far. */
  function Shown(first: Ohlcv, interval: int, h: seq<Trade>, t: int): Ohlcv
    requires interval > 0
  {
    Roll(Run(first, interval, Pushes(UpTo(h, t))), interval, t).candle
  }

  lemma {:induction false} PushesProper(first: Ohlcv, interval: int, h: seq<Trade>)
    requires interval > 0 && Ordered(h, first.time)
    ensures Proper(first, interval, Pushes(h)) && TradesOf(Pushes(h)) == h
    ensures Now(first, Pushes(h)) == if h == [] then first.time else h[|h| - 1].time
  {
    hide CandleStart;
    if h != [] {
      var n := |h| - 1;
      PushesProper(first, interval, h[..n]);
      assert Pushes(h)[..|Pushes(h)| - 1] == Pushes(h[..n]);
      assert h[..n] + [h[n]] == h;
    }
  }

  lemma ShownIsRecomputed(first: Ohlcv, interval: int, h: seq<Trade>, t: int)
    requires interval > 0 && Ordered(h, first.time) && first.time <= t
    ensures Shown(first, interval, h, t) == Recompute(first, UpTo(h, t), CandleStart(first.time, interval, t))
  {
    hide CandleStart, Recompute, Run, Roll, Proper, Pushes, Now;
    var past := UpTo(h, t);
    var events := Pushes(past);
    PushesProper(first, interval, past);
    RunIsRecomputed(first, interval, events);
    var now := Now(first, events);
    CandleStartBounds(first.time, interval, now);
    RollMatches(Run(first, interval, events), first, interval, past, now, t);
  }

  lemma {:induction false} RecomputeWellFormed(first: Ohlcv, h: seq<Trade>, s: int)
    requires WellFormed(first) && Ordered(h, first.time) && first.time <= s
    ensures WellFormed(Recompute(first, h, s))
  {
    hide Recompute;
    RecomputeNothing(first, s);
    if h != [] {
      var n := |h| - 1;
      assert h == h[..n] + [h[n]];
      if s <= h[n].time {
        RecomputeWellFormed(first, h[..n], s);
        RecomputeSnoc(first, h[..n], h[n], s);
      } else {
        RecomputeFresh(first, h, s);
      }
    }
  }

  /** Trades from `m` on change the candle that starts at `s` as merging in the candle of `m` does. */
  lemma {:induction false} Joined(first: Ohlcv, h: seq<Trade>, more: seq<Trade>, s: int, m: int)
    requires WellFormed(first) && Ordered(h, first.time) && first.time <= s < m
    requires forall i :: 0 <= i < |h| ==> h[i].time < m
    requires forall i :: 0 <= i < |more| ==> m <= more[i].time
    ensures Recompute(first, h + more, s) == Join(Recompute(first, h, s), Recompute(first, h + more, m))
    decreases |more|
  {
    hide Recompute;
    if more == [] {
      assert h + more == h;
      RecomputeFresh(first, h, m);
      RecomputeWellFormed(first, h, s);
    } else {
      var n := |more| - 1;
      assert h + more == (h + more[..n]) + [more[n]];
      Joined(first, h, more[..n], s, m);
      RecomputeSnoc(first, h + more[..n], more[n], s);
      RecomputeSnoc(first, h + more[..n], more[n], m);
    }
  }

  /** The time `n` intervals after `s`. */
  function Mark(s: int, interval: int, n: nat): int {
    if n == 0 then s else Mark(s, interval, n - 1) + interval
  }

  /** The last moment of the `n`th interval from `s`, cut off at `t`. */
  function EndOf(s: int, interval: int, n: nat, t: int): int {
    var e := Mark(s, interval, n) - 1;
    if e < t then e else t
  }

  /** The short candles from `s` on, each read at the end of its interval, or at `t` if that comes first. */
  function ShortCandles(first: Ohlcv, interval: int, h: seq<Trade>, s: int, t: int, n: nat): seq<Ohlcv>
    requires interval > 0
  {
    if n == 0 then [] else
      ShortCandles(first, interval, h, s, t, n - 1) + [Shown(first, interval, h, EndOf(s, interval, n, t))]
  }

  lemma {:induction false} MarkIs(s: int, interval: int, n: nat)
    ensures Mark(s, interval, n) == s + n * interval
  {
    if n > 0 {
      MarkIs(s, interval, n - 1);
      assert n * interval == (n - 1) * interval + interval;
    }
  }

  lemma UpToSplits(h: seq<Trade>, start: int, d: int, e: int)
    requires Ordered(h, start) && d <= e
    ensures Since(h, d + 1) <= Since(h, e + 1)
    ensures UpTo(h, e) == UpTo(h, d) + h[Since(h, d + 1)..Since(h, e + 1)]
  {
  }

  lemma MarkIsCandleStart(start: int, interval: int, q: nat, n: nat, e: int)
    requires interval > 0
    requires var m := Mark(start + q * interval, interval, n); m <= e < m + interval
    ensures CandleStart(start, interval, e) == Mark(start + q * interval, interval, n) >= start
  {
    hide Mark;
    MarkIs(start + q * interval, interval, n);
    MulAdds(q, n, interval);
    MulOrder(q + n, 0, interval);
    DivUnique(e - start, interval, q + n);
  }

  /** One short candle, the `n`th from `s`: it starts a whole number of intervals after `s`. */
  lemma ShortCandle(first: Ohlcv, interval: int, h: seq<Trade>, s: int, q: nat, n: nat, t: int)
    requires interval > 0 && Ordered(h, first.time)
    requires s == first.time + q * interval && Mark(s, interval, n) <= t
    ensures var e, m := EndOf(s, interval, n + 1, t), Mark(s, interval, n);
            m <= e && Shown(first, interval, h, e) == Recompute(first, UpTo(h, e), m)
  {
    hide Recompute, Shown, UpTo;
    var e := EndOf(s, interval, n + 1, t);
    MarkIsCandleStart(first.time, interval, q, n, e);
    ShownIsRecomputed(first, interval, h, e);
  }

  /** Time moves from `d` to `e`: the candle of `s` takes in the candle of `m`, where `m` follows `d`. */
  lemma TimePasses(first: Ohlcv, h: seq<Trade>, s: int, d: int, e: int)
    requires WellFormed(first) && Ordered(h, first.time) && first.time <= s <= d <= e
    ensures Recompute(first, UpTo(h, e), s) ==
            Join(Recompute(first, UpTo(h, d), s), Recompute(first, UpTo(h, e), d + 1))
  {
    hide Recompute, WellFormed, Join, Since;
    UpToSplits(h, first.time, d, e);
    Joined(first, UpTo(h, d), h[Since(h, d + 1)..Since(h, e + 1)], s, d + 1);
  }

  lemma {:induction n} MarkAfter(s: int, interval: int, n: nat)
    requires interval > 0
    ensures Mark(s, interval, n) >= s && (n > 0 ==> Mark(s, interval, n) > s)
  {
  }

  lemma {:induction false} MergeShortCandles(first: Ohlcv, interval: int, h: seq<Trade>, s: int, q: nat, t: int, n: nat)
    requires interval > 0 && WellFormed(first) && Ordered(h, first.time) && n > 0
    requires first.time <= s == first.time + q * interval && Mark(s, interval, n - 1) <= t
    ensures Merge(ShortCandles(first, interval, h, s, t, n), s) ==
            Recompute(first, UpTo(h, EndOf(s, interval, n, t)), s)
    decreases n
  {
    hide Recompute, Merge, Shown, UpTo;
    ShortCandle(first, interval, h, s, q, n - 1, t);
    var d, e := EndOf(s, interval, n - 1, t), EndOf(s, interval, n, t);
    var c := Shown(first, interval, h, e);
    if n == 1 {
      assert ShortCandles(first, interval, h, s, t, 0) == [];
      assert ShortCandles(first, interval, h, s, t, 1) == [c];
      MergeOne(c, s);
    } else {
      MergeShortCandles(first, interval, h, s, q, t, n - 1);
      MergeSnoc(ShortCandles(first, interval, h, s, t, n - 1), c, s);
      MarkAfter(s, interval, n - 1);
      TimePasses(first, h, s, d, e);
    }
  }

  lemma CountShort(interval: int, k: int, x: int)
    requires interval > 0 && 0 <= x < k * interval
    ensures 0 <= x / interval < k
  {
    MulOrder(x / interval, k, interval);
    MulOrder(x / interval, -1, interval);
  }

  lemma MulAssoc(p: int, k: int, d: int)
    ensures p * (k * d) == (p * k) * d
  {
  }

  /** Where the candle of the longer interval starts, in the shorter interval's steps. */
  lemma LongCandleStart(start: int, interval: int, k: int, t: int) returns (q: nat, n: nat)
    requires interval > 0 && k > 0 && start <= t
    ensures k * interval > 0
    ensures var s := CandleStart(start, k * interval, t);
            && start <= s == start + q * interval && s <= t && n == (t - s) / interval && n < k
  {
    MulOrder(0, k, interval);
    var long := k * interval;
    var p := (t - start) / long;
    var s := CandleStart(start, long, t);
    CandleStartBounds(start, long, t);
    MulOrder(p, 0, long);
    MulOrder(0, p, k);
    MulAssoc(p, k, interval);
    q := p * k;
    CountShort(interval, k, t - s);
    n := (t - s) / interval;
  }

  lemma RollUpFrom(first: Ohlcv, interval: int, long: int, h: seq<Trade>, t: int, q: nat, n: nat)
    requires interval > 0 && long > 0 && WellFormed(first) && Ordered(h, first.time) && first.time <= t
    requires var s := CandleStart(first.time, long, t);
             first.time <= s == first.time + q * interval && s <= t && n == (t - s) / interval
    ensures var s := CandleStart(first.time, long, t);
            Shown(first, long, h, t) == Merge(ShortCandles(first, interval, h, s, t, n + 1), s)
  {
    hide Recompute, Shown, UpTo, CandleStart, Merge, ShortCandles;
    var s := CandleStart(first.time, long, t);
    MarkIs(s, interval, n);
    MergeShortCandles(first, interval, h, s, q, t, n + 1);
    assert EndOf(s, interval, n + 1, t) == t;
    ShownIsRecomputed(first, long, h, t);
  }

  // ---- One builder, read at the end of every interval ----

  /** The candles shown by the reads of a run. */
  function Readings(first: Ohlcv, interval: int, events: seq<Event>): seq<Ohlcv>
    requires interval > 0
  {
    if events == [] then [] else
      var n := |events| - 1;
      Readings(first, interval, events[..n]) +
      if events[n].Poll? then [Run(first, interval, events).candle] else []
  }

  /** The trades of an ordered history after `d`, up to and including `e`. */
  function Part(h: seq<Trade>, d: int, e: int): seq<Trade> {
    var i, j := Since(h, d + 1), Since(h, e + 1);
    if i <= j then h[i..j] else []
  }

  /** The run of one builder that is given the trades before `s`, and then, interval by interval, those of
      the interval and a read at its end, or at `t` if that comes first. */
  function PolledRun(interval: int, h: seq<Trade>, s: int, t: int, n: nat): seq<Event> {
    if n == 0 then Pushes(UpTo(h, s - 1)) else
      var d, e := EndOf(s, interval, n - 1, t), EndOf(s, interval, n, t);
      PolledRun(interval, h, s, t, n - 1) + Pushes(Part(h, d, e)) + [Poll(e)]
  }

  lemma {:induction false} PushesRead(first: Ohlcv, interval: int, events: seq<Event>, more: seq<Trade>)
    requires interval > 0
    ensures Readings(first, interval, events + Pushes(more)) == Readings(first, interval, events)
    decreases |more|
  {
    if more == [] {
      assert events + [] == events;
    } else {
      var n := |more| - 1;
      var all := events + Pushes(more);
      assert all[..|all| - 1] == events + Pushes(more[..n]);
      PushesRead(first, interval, events, more[..n]);
    }
  }

  lemma PushAfter(first: Ohlcv, interval: int, events: seq<Event>, t: Trade)
    requires interval > 0 && Proper(first, interval, events) && Now(first, events) <= t.time
    ensures var all := events + [Push(t)];
            && Proper(first, interval, all) && TradesOf(all) == TradesOf(events) + [t] && Now(first, all) == t.time
  {
    hide CandleStart;
    var all := events + [Push(t)];
    assert all[..|events|] == events;
  }

  /** Trades pushed after a proper run, in order and not before it, keep it proper. */
  lemma {:induction false} PushesAfter(first: Ohlcv, interval: int, events: seq<Event>, more: seq<Trade>)
    requires interval > 0 && Proper(first, interval, events)
    requires forall i :: 0 <= i < |more| ==> Now(first, events) <= more[i].time
    requires forall i, j :: 0 <= i < j < |more| ==> more[i].time <= more[j].time
    ensures var all := events + Pushes(more);
            && Proper(first, interval, all) && TradesOf(all) == TradesOf(events) + more
            && Now(first, all) == if more == [] then Now(first, events) else more[|more| - 1].time
    decreases |more|
  {
    hide CandleStart, Proper, TradesOf, Now;
    if more == [] {
      assert events + [] == events && TradesOf(events) + [] == TradesOf(events);
    } else {
      var n := |more| - 1;
      var before := events + Pushes(more[..n]);
      PushesAfter(first, interval, events, more[..n]);
      PushAfter(first, interval, before, more[n]);
      assert events + Pushes(more) == before + [Push(more[n])];
      assert TradesOf(events) + more == TradesOf(events) + more[..n] + [more[n]];
    }
  }

  lemma PollAfter(first: Ohlcv, interval: int, events: seq<Event>, at: int)
    requires interval > 0 && Proper(first, interval, events) && Now(first, events) <= at
    ensures var all := events + [Poll(at)];
            && Proper(first, interval, all) && TradesOf(all) == TradesOf(events) && Now(first, all) == at
            && Run(first, interval, all) == Roll(Run(first, interval, events), interval, at)
            && Readings(first, interval, all) == Readings(first, interval, events) + [Run(first, interval, all).candle]
  {
    hide Roll;
    var all := events + [Poll(at)];
    assert all[..|events|] == events;
    NowBound(first, events);
    CandleStartBounds(first.time, interval, Now(first, events));
  }

  /** A read at `t` of any proper run over the trades up to `t` shows what the pushes alone would. */
  lemma ReadShows(first: Ohlcv, interval: int, h: seq<Trade>, t: int, events: seq<Event>)
    requires interval > 0 && Ordered(h, first.time) && first.time <= t
    requires Proper(first, interval, events) && TradesOf(events) == UpTo(h, t) && Now(first, events) <= t
    ensures Roll(Run(first, interval, events), interval, t).candle == Shown(first, interval, h, t)
  {
    hide Roll, Run, Proper, Pushes;
    PushesProper(first, interval, UpTo(h, t));
    NowBound(first, events);
    CandleStartBounds(first.time, interval, Now(first, events));
    CandleStartBounds(first.time, interval, Now(first, Pushes(UpTo(h, t))));
    PollingIsInvisible(first, interval, events, Pushes(UpTo(h, t)), t);
  }

  lemma EndsMove(s: int, interval: int, n: nat, t: int)
    requires interval > 0 && n > 0 && Mark(s, interval, n - 1) <= t
    ensures EndOf(s, interval, n - 1, t) + 1 == Mark(s, interval, n - 1) <= EndOf(s, interval, n, t) <= t
  {
  }

  lemma Between(h: seq<Trade>, start: int, d: int, e: int)
    requires Ordered(h, start) && d <= e
    ensures var part := Part(h, d, e);
            && (forall i :: 0 <= i < |part| ==> d < part[i].time <= e)
            && (forall i, j :: 0 <= i < j < |part| ==> part[i].time <= part[j].time)
            && UpTo(h, e) == UpTo(h, d) + part
  {
    UpToSplits(h, start, d, e);
  }

  lemma EndOfZero(s: int, interval: int, t: int)
    ensures EndOf(s, interval, 0, t) == if s - 1 < t then s - 1 else t
  {
  }

  lemma MarkBefore(s: int, interval: int, n: nat, t: int)
    requires interval > 0 && n > 1 && Mark(s, interval, n - 1) <= t
    ensures Mark(s, interval, n - 2) <= t
  {
  }

  lemma PolledNothing(first: Ohlcv, interval: int, h: seq<Trade>, s: int)
    requires interval > 0 && Ordered(h, first.time) && first.time <= s
    ensures var events := Pushes(UpTo(h, s - 1));
            && Proper(first, interval, events) && TradesOf(events) == UpTo(h, s - 1)
            && first.time <= Now(first, events) <= Later(first.time, s - 1)
            && Readings(first, interval, events) == []
  {
    hide Proper, Pushes, Now, TradesOf, Run;
    var past := UpTo(h, s - 1);
    PushesProper(first, interval, past);
    PushesRead(first, interval, [], past);
    assert [] + Pushes(past) == Pushes(past);
    if past != [] { assert past[|past| - 1] == h[|past| - 1]; }
  }

  /** One builder, read at the end of every interval, shows exactly the short candles. */
  lemma {:induction false} PolledRunShows(first: Ohlcv, interval: int, h: seq<Trade>, s: int, t: int, n: nat)
    requires interval > 0 && Ordered(h, first.time) && first.time <= s
    requires n > 0 ==> Mark(s, interval, n - 1) <= t
    ensures var events := PolledRun(interval, h, s, t, n);
            var end := if n == 0 then s - 1 else EndOf(s, interval, n, t);
            && Proper(first, interval, events) && TradesOf(events) == UpTo(h, end)
            && first.time <= Now(first, events) <= Later(first.time, end)
            && Readings(first, interval, events) == ShortCandles(first, interval, h, s, t, n)
    decreases n
  {
    hide CandleStart, Roll, Run, Proper, Shown, UpTo, Part, EndOf, Mark, Readings, Pushes, Now, TradesOf;
    if n == 0 {
      PolledNothing(first, interval, h, s);
    } else {
      var events := PolledRun(interval, h, s, t, n - 1);
      var d, e := EndOf(s, interval, n - 1, t), EndOf(s, interval, n, t);
      var part := Part(h, d, e);
      EndsMove(s, interval, n, t);
      MarkAfter(s, interval, n - 1);
      if n > 1 { MarkBefore(s, interval, n, t); } else { EndOfZero(s, interval, t); }
      PolledRunShows(first, interval, h, s, t, n - 1);
      Between(h, first.time, d, e);
      PushesAfter(first, interval, events, part);
      PushesRead(first, interval, events, part);
      var pushed := events + Pushes(part);
      PollAfter(first, interval, pushed, e);
      ReadShows(first, interval, h, e, pushed);
    }
  }

  lemma {:induction false} ShortCount(first: Ohlcv, interval: int, h: seq<Trade>, s: int, t: int, n: nat)
    requires interval > 0
    ensures |ShortCandles(first, interval, h, s, t, n)| == n
  {
    if n > 0 { ShortCount(first, interval, h, s, t, n - 1); }
  }

  lemma ReachesEnd(s: int, interval: int, t: int, n: nat)
    requires interval > 0 && s <= t && n == (t - s) / interval
    ensures Mark(s, interval, n) <= t && EndOf(s, interval, n + 1, t) == t
  {
    MarkIs(s, interval, n);
  }

  /** The candle of interval `k * interval`, built directly, is at every moment the merge of the candles
      that one builder of interval `interval` shows inside it when it is read at the end of every interval,
      quiet ones included. */
  lemma RollUpConsistent(first: Ohlcv, interval: int, k: int, h: seq<Trade>, t: int) returns (s: int, n: nat)
    requires interval > 0 && k > 0 && WellFormed(first) && Ordered(h, first.time) && first.time <= t
    ensures k * interval > 0 && s == CandleStart(first.time, k * interval, t)
    ensures s <= t && n == (t - s) / interval + 1 && n <= k
    ensures var polled := PolledRun(interval, h, s, t, n);
            && Proper(first, interval, polled) && TradesOf(polled) == UpTo(h, t)
            && |Readings(first, interval, polled)| == n
            && Shown(first, k * interval, h, t) == Merge(Readings(first, interval, polled), s)
  {
    hide Recompute, Shown, UpTo, CandleStart, Merge, ShortCandles, PolledRun, Readings, Proper, TradesOf, Now;
    var q, m := LongCandleStart(first.time, interval, k, t);
    s := CandleStart(first.time, k * interval, t);
    n := m + 1;
    RollUpFrom(first, interval, k * interval, h, t, q, m);
    ReachesEnd(s, interval, t, m);
    PolledRunShows(first, interval, h, s, t, n);
    ShortCount(first, interval, h, s, t, n);
  }
}
