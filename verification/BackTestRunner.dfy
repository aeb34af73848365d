/** Whole back tests: an arbitrary strategy that asks questions while the clock steps forward. */
module BackTestRunner {
  import opened Trading
  import opened Intervals
  import opened BackTestingData

  /** The rows of every pair. */
  type View = Pair -> seq<Ohlcv>

  /** What to ask next, given the iteration and every answer so far; None ends the iteration. */
  type Strategy = (nat, seq<Answer>) -> Option<Query>

  ghost predicate Proper(strategy: Strategy) {
    forall i, seen :: strategy(i, seen).Some? ==> strategy(i, seen).value.Valid()
  }

  ghost predicate AscendingView(view: View) {
    forall p :: Ascending(view(p))
  }

  function Clock(start: int, stepSize: int, i: nat): int {
    start + i * stepSize
  }

  lemma ClockNext(start: int, stepSize: int, i: nat)
    ensures Clock(start, stepSize, 0) == start
    ensures Clock(start, stepSize, i + 1) == Clock(start, stepSize, i) + stepSize
  {
    MulAdds(i, 1, stepSize);
  }

  // ---- What a run answers: a fresh search for every question ----

  ghost function Iteration(view: View, now: int, i: nat, strategy: Strategy, seen: seq<Answer>, limit: nat)
    : seq<Answer>
    requires AscendingView(view) && Proper(strategy)
    decreases limit
  {
    if limit == 0 || strategy(i, seen).None? then seen else
      var q := strategy(i, seen).value;
      Iteration(view, now, i, strategy, seen + [Fresh(view(q.pair), now, q)], limit - 1)
  }

  ghost function Answers(view: View, start: int, stepSize: int, strategy: Strategy, limit: nat, n: nat): seq<Answer>
    requires AscendingView(view) && Proper(strategy)
  {
    if n == 0 then [] else
      Iteration(view, Clock(start, stepSize, n - 1), n - 1, strategy,
                Answers(view, start, stepSize, strategy, limit, n - 1), limit)
  }

  /** An iteration asks what the strategy asks next, as long as it asks, up to `limit` questions, and gets the
      fresh answer to each. */
  lemma {:induction false} IterationMeaning(
    view: View, now: int, i: nat, strategy: Strategy, seen: seq<Answer>, limit: nat)
    requires AscendingView(view) && Proper(strategy)
    ensures var told := Iteration(view, now, i, strategy, seen, limit);
            && |seen| <= |told| <= |seen| + limit && seen == told[..|seen|]
            && (|told| < |seen| + limit ==> strategy(i, told).None?)
            && (forall k :: |seen| <= k < |told| ==>
                  && strategy(i, told[..k]).Some?
                  && var q := strategy(i, told[..k]).value; told[k] == Fresh(view(q.pair), now, q))
    decreases limit
  {
    hide Fresh;
    if limit == 0 || strategy(i, seen).None? {
      assert seen[..|seen|] == seen;
    } else {
      var q := strategy(i, seen).value;
      var next := seen + [Fresh(view(q.pair), now, q)];
      IterationMeaning(view, now, i, strategy, next, limit - 1);
      var told := Iteration(view, now, i, strategy, seen, limit);
      assert told[..|next|][..|seen|] == told[..|seen|] && told[..|next|][|seen|] == told[|seen|];
    }
  }

  method RunIteration(engine: BackTestingData, i: nat, strategy: Strategy, seen: seq<Answer>, limit: nat, ghost view: View)
    returns (answers: seq<Answer>)
    requires engine.Valid() && Proper(strategy) && AscendingView(view)
    requires forall p :: engine.Rows(p) == view(p)
    modifies engine`data, engine`loads, engine`iteratorCache
    ensures engine.Valid() && forall p :: engine.Rows(p) == view(p)
    ensures answers == Iteration(view, engine.dataTime, i, strategy, seen, limit)
  {
    hide Fresh;
    answers := seen;
    var left := limit;
    while left > 0 && strategy(i, answers).Some?
      invariant engine.Valid() && forall p :: engine.Rows(p) == view(p)
      invariant 0 <= left <= limit
      invariant Iteration(view, engine.dataTime, i, strategy, answers, left) ==
                Iteration(view, engine.dataTime, i, strategy, seen, limit)
      decreases left
    {
      var answer := engine.AnswerTo(strategy(i, answers).value);
      answers := answers + [answer];
      left := left - 1;
    }
  }

  /** The back test: one iteration of the strategy per time step, the clock moved on after each. However
      the questions are mixed and whatever is loaded when, every answer is the fresh one. */
  method Run(engine: BackTestingData, strategy: Strategy, limit: nat, ghost view: View)
    returns (answers: seq<Answer>, clocks: seq<int>)
    requires engine.Valid() && engine.dataTime == engine.startTime
    requires Proper(strategy) && AscendingView(view)
    requires forall p :: engine.Rows(p) == view(p)
    modifies engine
    ensures engine.Valid()
    ensures var n := if engine.timeSteps < 0 then 0 else engine.timeSteps;
            && answers == Answers(view, engine.startTime, engine.stepSize, strategy, limit, n)
            && |clocks| == n && (forall i :: 0 <= i < n ==> clocks[i] == Clock(engine.startTime, engine.stepSize, i))
            && engine.dataTime == Clock(engine.startTime, engine.stepSize, n)
  {
    hide Iteration, Ascending, Clock;
    ClockNext(engine.startTime, engine.stepSize, 0);
    answers := [];
    clocks := [];
    var i := 0;
    while i < engine.timeSteps
      invariant engine.Valid() && forall p :: engine.Rows(p) == view(p)
      invariant 0 <= i && (i <= engine.timeSteps || i == 0)
      invariant engine.dataTime == Clock(engine.startTime, engine.stepSize, i)
      invariant answers == Answers(view, engine.startTime, engine.stepSize, strategy, limit, i)
      invariant |clocks| == i
      invariant forall j :: 0 <= j < i ==> clocks[j] == Clock(engine.startTime, engine.stepSize, j)
    {
      answers := RunIteration(engine, i, strategy, answers, limit, view);
      clocks := clocks + [engine.dataTime];
      engine.Increment();
      ClockNext(engine.startTime, engine.stepSize, i);
      i := i + 1;
    }
  }

  // ---- No peeking ----

  function Past(rows: seq<Ohlcv>, now: int): seq<Ohlcv> {
    rows[..CountUpTo(rows, now)]
  }

  lemma CountInPast(rows: seq<Ohlcv>, now: int, t: int)
    requires Ascending(rows) && t <= now
    ensures CountUpTo(rows, t) == CountUpTo(Past(rows, now), t) <= |Past(rows, now)|
  {
    CountMeaning(rows, now);
    CountMeaning(rows, t);
    var k := CountUpTo(rows, t);
    assert k > 0 ==> rows[k - 1].time <= now;
    CountIs(Past(rows, now), t, k);
  }

  lemma PastOfPast(rows: seq<Ohlcv>, now: int, t: int)
    requires Ascending(rows) && t <= now
    ensures Past(rows, t) == Past(Past(rows, now), t)
  {
    CountInPast(rows, now, t);
  }

  lemma SliceOfPrefix<T>(s: seq<T>, n: nat, i: nat, j: nat)
    requires i <= j <= n <= |s|
    ensures s[..n][i..j] == s[i..j]
  {
  }

  /** A candle that ends by now is cut from the rows up to now. */
  lemma CandleFromPast(rows: seq<Ohlcv>, interval: int, upper: int, now: int)
    requires Ascending(rows) && rows != [] && rows[0].time < upper <= now && interval > 0
    ensures var past := Past(rows, now);
            && past != [] && past[0] == rows[0]
            && CandleEnding(rows, interval, upper) == CandleEnding(past, interval, upper)
  {
    var past := Past(rows, now);
    CountMeaning(rows, now);
    assert past != [] && past[0] == rows[0];
    var stamp := Stamp(rows, interval, upper);
    CountInPast(rows, now, stamp);
    CountInPast(rows, now, upper);
    CountInPast(rows, now, upper - 1);
    RangeNotEmpty(rows, interval, upper);
    var first, limit := First(rows, interval, upper), Limit(rows, interval, upper);
    assert limit <= |past|;
    SliceOfPrefix(rows, |past|, first, limit);
  }

  lemma SameCount(rows: seq<Ohlcv>, past: seq<Ohlcv>, now: int, interval: int, count: nat)
    requires rows != [] && past != [] && rows[0] == past[0] && interval > 0
    ensures CandleCount(rows, now, interval, count) == CandleCount(past, now, interval, count)
  {
  }

  lemma CandlesFromPast(rows: seq<Ohlcv>, now: int, interval: int, count: nat)
    requires Ascending(rows) && interval > 0
    ensures CandlesAt(rows, now, interval, count) == CandlesAt(Past(rows, now), now, interval, count)
  {
    hide CandleEnding, CandleCount;
    var past := Past(rows, now);
    CountMeaning(rows, now);
    NoCandles(rows, now, interval, count);
    NoCandles(past, now, interval, count);
    if rows != [] && rows[0].time < now {
      assert past != [] && past[0] == rows[0];
      SameCount(rows, past, now, interval, count);
      var cs := CandlesAt(rows, now, interval, count);
      forall i | 0 <= i < |cs|
        ensures rows[0].time < Upper(now, interval, i)
        ensures cs[i] == CandleEnding(past, interval, Upper(now, interval, i))
      {
        UpperInside(rows, now, interval, count, i);
        MulOrder(i, 0, interval);
        CandleFromPast(rows, interval, Upper(now, interval, i), now);
      }
      CandlesAre(past, now, interval, count, cs);
    }
  }

  lemma BookFromPast(rows: seq<Ohlcv>, now: int)
    requires Ascending(rows)
    ensures BookAt(rows, now) == BookAt(Past(rows, now), now)
  {
    CountInPast(rows, now, now);
  }

  /** Candles and order books depend on nothing after the clock. */
  lemma NoPeeking(rows: seq<Ohlcv>, other: seq<Ohlcv>, now: int, q: Query)
    requires Ascending(rows) && Ascending(other) && q.Valid() && !q.GetTrade?
    requires Past(rows, now) == Past(other, now)
    ensures Fresh(rows, now, q) == Fresh(other, now, q)
  {
    match q
    case GetOhlcv(_, interval, count) =>
      CandlesFromPast(rows, now, interval, count);
      CandlesFromPast(other, now, interval, count);
    case GetOrderBook(_, _) =>
      BookFromPast(rows, now);
      BookFromPast(other, now);
    case GetTrade(_) =>
  }

  /** The last trade does peek: with the same rows up to now it differs exactly when only one of the two
      has a later row, the row in force started before now, and its open and close differ. */
  lemma TradePeeks(rows: seq<Ohlcv>, other: seq<Ohlcv>, now: int)
    requires Ascending(rows) && Ascending(other)
    requires Past(rows, now) == Past(other, now) != []
    ensures var past := Past(rows, now);
            var row := past[|past| - 1];
            TradeAt(rows, now) != TradeAt(other, now) <==>
            (|rows| > |past|) != (|other| > |past|) && row.time < now && row.open != row.close
  {
    var past := Past(rows, now);
    assert rows[|past| - 1] == past[|past| - 1] == other[|past| - 1];
  }

  /** At 130 the last trade is at the open of the row in force while a later row exists, and at its close
      when none does. */
  lemma TradePeeksWitness(row: Ohlcv, later: Ohlcv)
    requires row.time == 100 && later.time == 160 && row.open != row.close
    ensures Ascending([row, later]) && Ascending([row])
    ensures Past([row, later], 130) == Past([row], 130) == [row]
    ensures TradeAt([row, later], 130).price == row.open && TradeAt([row], 130).price == row.close
  {
    CountIs([row, later], 130, 1);
    CountIs([row], 130, 1);
  }

  lemma {:induction false} IterationIgnoresFuture(
    view: View, other: View, now: int, i: nat, strategy: Strategy, seen: seq<Answer>, limit: nat)
    requires AscendingView(view) && AscendingView(other) && Proper(strategy)
    requires forall j, s :: strategy(j, s).Some? ==> !strategy(j, s).value.GetTrade?
    requires forall p :: Past(view(p), now) == Past(other(p), now)
    ensures Iteration(view, now, i, strategy, seen, limit) == Iteration(other, now, i, strategy, seen, limit)
    decreases limit
  {
    hide Fresh;
    if limit > 0 && strategy(i, seen).Some? {
      var q := strategy(i, seen).value;
      NoPeeking(view(q.pair), other(q.pair), now, q);
      IterationIgnoresFuture(view, other, now, i, strategy, seen + [Fresh(view(q.pair), now, q)], limit - 1);
    }
  }

  /** No strategy that reads candles and order books can tell, in `n` iterations, two data sets apart
      that agree on every row up to the clock of the last one. */
  lemma {:induction false} RunIgnoresFuture(
    view: View, other: View, start: int, stepSize: int, strategy: Strategy, limit: nat, n: nat)
    requires AscendingView(view) && AscendingView(other) && Proper(strategy) && stepSize > 0
    requires forall j, s :: strategy(j, s).Some? ==> !strategy(j, s).value.GetTrade?
    requires n > 0 ==>
      forall p :: Past(view(p), Clock(start, stepSize, n - 1)) == Past(other(p), Clock(start, stepSize, n - 1))
    ensures Answers(view, start, stepSize, strategy, limit, n) == Answers(other, start, stepSize, strategy, limit, n)
  {
    hide Past, CountUpTo, Ascending, Clock;
    if n > 0 {
      var now := Clock(start, stepSize, n - 1);
      if n > 1 {
        var before := Clock(start, stepSize, n - 2);
        ClockNext(start, stepSize, n - 2);
        forall p ensures Past(view(p), before) == Past(other(p), before) {
          PastOfPast(view(p), now, before);
          PastOfPast(other(p), now, before);
        }
      }
      RunIgnoresFuture(view, other, start, stepSize, strategy, limit, n - 1);
      IterationIgnoresFuture(view, other, now, n - 1, strategy,
                             Answers(view, start, stepSize, strategy, limit, n - 1), limit);
    }
  }
}
