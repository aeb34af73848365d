/** Whole runs of the candle builder: trades pushed and candles read, in any mixture. */
module CandleRuns {
  import opened Trading
  import opened Intervals
  import opened OhlcvFromTrades
  import opened CandleHistory

  datatype Event = Push(trade: Trade) | Poll(at: int)

  function Step(b: Builder, interval: int, e: Event): Builder
    requires interval > 0
  {
    match e
    case Push(t) => WithTrade(b, interval, t)
    case Poll(at) => Roll(b, interval, at)
  }

  function Run(first: Ohlcv, interval: int, events: seq<Event>): Builder
    requires interval > 0
  {
    if events == [] then Start(first) else
      Step(Run(first, interval, events[..|events| - 1]), interval, events[|events| - 1])
  }

  function TradesOf(events: seq<Event>): seq<Trade> {
    if events == [] then [] else
      var n := |events| - 1;
      if events[n].Push? then TradesOf(events[..n]) + [events[n].trade] else TradesOf(events[..n])
  }

  function TimeOf(e: Event): int {
    match e case Push(t) => t.time case Poll(at) => at
  }

  /** The latest time the builder has heard of. */
  function Now(first: Ohlcv, events: seq<Event>): int {
    if events == [] then first.time else
      Later(Now(first, events[..|events| - 1]), TimeOf(events[|events| - 1]))
  }

  /** Trades come in order, and no candle is read before the start of the current one. */
  ghost predicate Proper(first: Ohlcv, interval: int, events: seq<Event>)
    requires interval > 0
  {
    events == [] ||
    var n := |events| - 1;
    var now := Now(first, events[..n]);
    && Proper(first, interval, events[..n])
    && (if events[n].Push? then now <= events[n].trade.time
        else CandleStart(first.time, interval, now) <= events[n].at)
  }

  /** The builder, seen from outside, after the trades `h` and at the time `now`. */
  ghost predicate Matches(b: Builder, first: Ohlcv, interval: int, h: seq<Trade>, now: int)
    requires interval > 0
  {
    && first.time <= now
    && (forall i :: 0 <= i < |h| ==> h[i].time <= now)
    && b == Builder(Recompute(first, h, CandleStart(first.time, interval, now)), LastTime(first, h))
  }

  lemma RollMatches(b: Builder, first: Ohlcv, interval: int, h: seq<Trade>, now: int, at: int)
    requires interval > 0 && Matches(b, first, interval, h, now)
    requires CandleStart(first.time, interval, now) <= at
    ensures Matches(Roll(b, interval, at), first, interval, h, Later(now, at))
  {
    hide CandleStart, Recompute, Close, LastTime;
    var s := CandleStart(first.time, interval, now);
    CandleStartBounds(first.time, interval, now);
    if at < s + interval {
      CandleStartStays(first.time, interval, now, Later(now, at));
    } else {
      CandleStartRolls(first.time, interval, now, at);
      CandleStartBounds(s, interval, at);
      RecomputeFresh(first, h, CandleStart(first.time, interval, at));
    }
  }

  lemma AbsorbLastTime(b: Builder, t: Trade)
    ensures Absorb(b, t).lastTime == Later(b.lastTime, t.time)
  {
  }

  lemma PushMatches(b: Builder, first: Ohlcv, interval: int, h: seq<Trade>, now: int, t: Trade)
    requires interval > 0 && Matches(b, first, interval, h, now)
    requires now <= t.time
    ensures Matches(WithTrade(b, interval, t), first, interval, h + [t], t.time)
  {
    hide CandleStart, Recompute, Roll, Absorb, Close, LastTime;
    CandleStartBounds(first.time, interval, now);
    RollMatches(b, first, interval, h, now, t.time);
    CandleStartBounds(first.time, interval, t.time);
    RecomputeSnoc(first, h, t, CandleStart(first.time, interval, t.time));
    AbsorbLastTime(Roll(b, interval, t.time), t);
  }

  lemma StartMatches(first: Ohlcv, interval: int)
    requires interval > 0
    ensures Matches(Start(first), first, interval, [], first.time)
  {
    DivUnique(0, interval, 0);
    RecomputeNothing(first, first.time);
  }

  /** After any proper run the builder holds exactly the candle recomputed from the whole trade
      history: reading candles leaves no trace in it. */
  lemma {:induction false} RunIsRecomputed(first: Ohlcv, interval: int, events: seq<Event>)
    requires interval > 0 && Proper(first, interval, events)
    ensures Matches(Run(first, interval, events), first, interval, TradesOf(events), Now(first, events))
  {
    hide CandleStart, Recompute, Roll, WithTrade;
    if events == [] {
      StartMatches(first, interval);
    } else {
      var n := |events| - 1;
      RunIsRecomputed(first, interval, events[..n]);
      var b, h, now := Run(first, interval, events[..n]), TradesOf(events[..n]), Now(first, events[..n]);
      match events[n] {
        case Push(t) => PushMatches(b, first, interval, h, now, t);
        case Poll(at) => RollMatches(b, first, interval, h, now, at);
      }
    }
  }

  lemma {:induction events} NowBound(first: Ohlcv, events: seq<Event>)
    ensures first.time <= Now(first, events)
  {
  }

  lemma CandleStartMono(start: int, interval: int, s: int, t: int)
    requires interval > 0 && start <= s <= t
    ensures CandleStart(start, interval, s) <= CandleStart(start, interval, t)
  {
    CandleStartBounds(start, interval, s);
    CandleStartBounds(start, interval, t);
    MulOrder((s - start) / interval, (t - start) / interval, interval);
  }

  /** A read at `at` that is not before the current candle: the builder is then at the candle of `at`. */
  lemma ReadMatches(first: Ohlcv, interval: int, events: seq<Event>, at: int)
    requires interval > 0 && Proper(first, interval, events)
    requires CandleStart(first.time, interval, Now(first, events)) <= at
    ensures var h := TradesOf(events);
            Roll(Run(first, interval, events), interval, at) ==
            Builder(Recompute(first, h, CandleStart(first.time, interval, at)), LastTime(first, h))
  {
    hide CandleStart, Recompute, LastTime, Roll, Run;
    var now := Now(first, events);
    RunIsRecomputed(first, interval, events);
    RollMatches(Run(first, interval, events), first, interval, TradesOf(events), now, at);
    CandleStartBounds(first.time, interval, now);
    if at < now { CandleStartStays(first.time, interval, now, at); }
  }

  /** Two proper runs over the same trades show the same candle at any time both can be read at, however
      often and whenever candles were read on the way. */
  lemma PollingIsInvisible(first: Ohlcv, interval: int, a: seq<Event>, b: seq<Event>, at: int)
    requires interval > 0 && Proper(first, interval, a) && Proper(first, interval, b)
    requires TradesOf(a) == TradesOf(b)
    requires CandleStart(first.time, interval, Now(first, a)) <= at
    requires CandleStart(first.time, interval, Now(first, b)) <= at
    ensures Roll(Run(first, interval, a), interval, at) == Roll(Run(first, interval, b), interval, at)
  {
    hide CandleStart, Recompute, LastTime, Roll, Run;
    ReadMatches(first, interval, a, at);
    ReadMatches(first, interval, b, at);
  }

  // ---- Leaving reads out, in runs of any order ----

  /** The events whose positions are not in `dropped`. */
  function Without(events: seq<Event>, dropped: set<nat>): seq<Event> {
    if events == [] then [] else
      var n := |events| - 1;
      Without(events[..n], dropped) + if n in dropped then [] else [events[n]]
  }

  /** Only reads are dropped, and each is at or before the time of the event that follows it. */
  ghost predicate Droppable(events: seq<Event>, dropped: set<nat>) {
    forall k :: k in dropped && k < |events| ==>
      events[k].Poll? && (k + 1 < |events| ==> events[k].at <= TimeOf(events[k + 1]))
  }

  lemma RollTwice(b: Builder, interval: int, s: int, t: int)
    requires interval > 0 && s <= t
    ensures Roll(Roll(b, interval, s), interval, t) == Roll(b, interval, t)
  {
    hide CandleStart;
    var start := b.candle.time;
    if start + interval <= s {
      CandleStartBounds(start, interval, s);
      CandleStartRolls(start, interval, s, t);
      if t < CandleStart(start, interval, s) + interval {
        CandleStartStays(start, interval, s, t);
      }
    }
  }

  /** A trade or read sees no difference if the builder was read before, at or before its time. */
  lemma StepAfterRead(b: Builder, interval: int, s: int, e: Event)
    requires interval > 0 && s <= TimeOf(e)
    ensures Step(Roll(b, interval, s), interval, e) == Step(b, interval, e)
  {
    hide Absorb, CandleStart;
    RollTwice(b, interval, s, TimeOf(e));
    if b.candle.time + interval <= s { CandleStartBounds(b.candle.time, interval, s); }
  }

  lemma StepAfterDropped(b: Builder, interval: int, read: Event, e: Event)
    requires interval > 0 && read.Poll? && read.at <= TimeOf(e)
    ensures Step(Step(b, interval, read), interval, e) == Step(b, interval, e)
  {
    StepAfterRead(b, interval, read.at, e);
  }

  lemma {:induction false} UpToDropped(first: Ohlcv, interval: int, events: seq<Event>, dropped: set<nat>, e: Event)
    requires interval > 0 && Droppable(events, dropped)
    requires events != [] && |events| - 1 in dropped ==> TimeOf(events[|events| - 1]) <= TimeOf(e)
    ensures Step(Run(first, interval, Without(events, dropped)), interval, e) ==
            Step(Run(first, interval, events), interval, e)
  {
    hide Step;
    if events != [] {
      var n := |events| - 1;
      var fewer := Without(events[..n], dropped);
      if n in dropped {
        UpToDropped(first, interval, events[..n], dropped, e);
        StepAfterDropped(Run(first, interval, events[..n]), interval, events[n], e);
        assert fewer + [] == fewer;
      } else {
        UpToDropped(first, interval, events[..n], dropped, events[n]);
        assert (fewer + [events[n]])[..|fewer|] == fewer;
      }
    }
  }

  /** Whatever reads are left out, each at or before the time of the event after it, the builder and its
      candle are the same after every event that stays. Trades need not be in order. */
  lemma DroppedReadsInvisible(first: Ohlcv, interval: int, events: seq<Event>, dropped: set<nat>, m: nat)
    requires interval > 0 && Droppable(events, dropped) && m < |events| && m !in dropped
    ensures Run(first, interval, Without(events[..m + 1], dropped)) == Run(first, interval, events[..m + 1])
  {
    hide Step;
    var before := events[..m];
    assert events[..m + 1][..m] == before;
    var fewer := Without(before, dropped);
    assert Without(events[..m + 1], dropped) == fewer + [events[m]];
    assert (fewer + [events[m]])[..|fewer|] == fewer;
    UpToDropped(first, interval, before, dropped, events[m]);
  }

  lemma {:induction false} WithoutPrefix(events: seq<Event>, dropped: set<nat>, m: nat)
    requires m <= |events|
    ensures Without(events[..m], dropped) <= Without(events, dropped)
  {
    if m < |events| {
      var n := |events| - 1;
      WithoutPrefix(events[..n], dropped, m);
      assert events[..n][..m] == events[..m];
    } else {
      assert events[..m] == events;
    }
  }

  lemma {:induction false} WithoutNone(events: seq<Event>, k: nat)
    requires |events| <= k
    ensures Without(events, {k}) == events
  {
    if events != [] { WithoutNone(events[..|events| - 1], k); }
  }

  lemma {:induction false} WithoutOne(events: seq<Event>, k: nat)
    requires k < |events|
    ensures Without(events, {k}) == events[..k] + events[k + 1..]
  {
    var n := |events| - 1;
    if k == n {
      WithoutNone(events[..n], k);
    } else {
      WithoutOne(events[..n], k);
      assert events[..k] + events[k + 1..] == events[..n][..k] + events[..n][k + 1..] + [events[n]];
    }
  }

  /** Leaving out one read, at or before the time of the next event, changes nothing that follows. */
  lemma DroppedReadInvisible(first: Ohlcv, interval: int, events: seq<Event>, k: nat)
    requires interval > 0 && k + 1 < |events|
    requires events[k].Poll? && events[k].at <= TimeOf(events[k + 1])
    ensures Run(first, interval, events[..k] + events[k + 1..]) == Run(first, interval, events)
  {
    var m := |events| - 1;
    assert events[..m + 1] == events;
    DroppedReadsInvisible(first, interval, events, {k}, m);
    WithoutOne(events, k);
  }

  /** Leaving out reads keeps a proper run proper, with the same trades: no read that stays becomes one
      before its candle. */
  lemma {:induction false} WithoutIsProper(first: Ohlcv, interval: int, events: seq<Event>, dropped: set<nat>)
    requires interval > 0 && Proper(first, interval, events)
    requires forall k :: k in dropped && k < |events| ==> events[k].Poll?
    ensures var rest := Without(events, dropped);
            && Proper(first, interval, rest) && TradesOf(rest) == TradesOf(events)
            && first.time <= Now(first, rest) <= Now(first, events)
  {
    hide CandleStart;
    if events != [] {
      var n := |events| - 1;
      var fewer := Without(events[..n], dropped);
      WithoutIsProper(first, interval, events[..n], dropped);
      if n in dropped {
        assert fewer + [] == fewer;
      } else {
        assert (fewer + [events[n]])[..|fewer|] == fewer;
        CandleStartMono(first.time, interval, Now(first, fewer), Now(first, events[..n]));
      }
    }
  }

  /** Leaving out any one read keeps a proper run proper, with the same trades. */
  lemma DropPoll(first: Ohlcv, interval: int, events: seq<Event>, k: nat)
    requires interval > 0 && Proper(first, interval, events)
    requires k < |events| && events[k].Poll?
    ensures var rest := events[..k] + events[k + 1..];
            && Proper(first, interval, rest) && TradesOf(rest) == TradesOf(events)
            && first.time <= Now(first, rest) <= Now(first, events)
  {
    hide Proper, TradesOf, Now, Without;
    WithoutIsProper(first, interval, events, {k});
    WithoutOne(events, k);
  }

  ghost predicate WellFormed(c: Ohlcv) {
    c.low <= c.open <= c.high && c.low <= c.close <= c.high
  }

  lemma StepWellFormed(b: Builder, interval: int, e: Event)
    requires interval > 0 && WellFormed(b.candle)
    ensures WellFormed(Step(b, interval, e).candle)
  {
  }

  lemma RollAligned(b: Builder, interval: int, start: int, at: int)
    requires interval > 0 && start <= b.candle.time && (b.candle.time - start) % interval == 0
    ensures var s := Roll(b, interval, at).candle.time;
            b.candle.time <= s && (s - start) % interval == 0
  {
    hide CandleStart;
    if b.candle.time + interval <= at {
      var s := CandleStart(b.candle.time, interval, at);
      CandleStartBounds(b.candle.time, interval, at);
      MultiplesAdd(b.candle.time - start, s - b.candle.time, interval);
    }
  }

  /** Low and high bound open and close after any run whatever, in order or not, and the candle always
      starts a whole number of intervals after the first. */
  lemma {:induction false} RunWellFormed(first: Ohlcv, interval: int, events: seq<Event>)
    requires interval > 0 && WellFormed(first)
    ensures var c := Run(first, interval, events).candle;
            WellFormed(c) && first.time <= c.time && (c.time - first.time) % interval == 0
  {
    if events != [] {
      var n := |events| - 1;
      var b := Run(first, interval, events[..n]);
      RunWellFormed(first, interval, events[..n]);
      StepWellFormed(b, interval, events[n]);
      RollAligned(b, interval, first.time, TimeOf(events[n]));
    }
  }
}
