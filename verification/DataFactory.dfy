/** Setting a back test up: its time limits, its number of steps, and eager or lazy loading. */
module DataFactory {
  import opened Trading
  import opened Intervals
  import opened BackTestingData
  import opened BackTestRunner
  import opened DataLoading

  const MAX_TIME := 0x7fff_ffff_ffff_ffff

  datatype BackTestingConfig = BackTestingConfig(startTime: int, endTime: int, stepSize: int, dynamicLoad: bool)

  /** Division that truncates toward zero. */
  function TruncDiv(a: int, b: int): int
    requires b > 0
  {
    if a >= 0 then a / b else -((-a) / b)
  }

  /** Conversion to a 32-bit int, modulo 2^32. */
  function ToInt32(x: int): int {
    (x + 0x8000_0000) % 0x1_0000_0000 - 0x8000_0000
  }

  function CalculateTimeSteps(startTime: int, endTime: int, stepSize: int): int
    requires stepSize > 0
  {
    ToInt32(TruncDiv(endTime - startTime, stepSize) + 1)
  }

  function Earlier(s: int, t: int): int {
    if t < s then t else s
  }

  function EarliestFront(source: DataSource, stepSize: int, pairs: seq<Pair>): int {
    if pairs == [] then MAX_TIME else
      var rest := EarliestFront(source, stepSize, pairs[..|pairs| - 1]);
      var rows := source(pairs[|pairs| - 1], stepSize);
      if rows == [] then rest else Earlier(rest, rows[0].time)
  }

  function LatestBack(source: DataSource, stepSize: int, pairs: seq<Pair>): int {
    if pairs == [] then 0 else
      var rest := LatestBack(source, stepSize, pairs[..|pairs| - 1]);
      var rows := source(pairs[|pairs| - 1], stepSize);
      if rows == [] then rest else Later(rest, rows[|rows| - 1].time)
  }

  lemma {:induction false} LimitsEncloseEnds(source: DataSource, stepSize: int, pairs: seq<Pair>, k: nat)
    requires k < |pairs| && source(pairs[k], stepSize) != []
    ensures var rows := source(pairs[k], stepSize);
            && EarliestFront(source, stepSize, pairs) <= rows[0].time
            && rows[|rows| - 1].time <= LatestBack(source, stepSize, pairs)
  {
    var n := |pairs| - 1;
    if k < n {
      assert pairs[..n][k] == pairs[k];
      LimitsEncloseEnds(source, stepSize, pairs[..n], k);
    }
  }

  lemma Between(rows: seq<Ohlcv>, j: nat)
    requires Ascending(rows) && j < |rows|
    ensures rows[0].time <= rows[j].time <= rows[|rows| - 1].time
  {
  }

  /** The limits enclose every row of every pair. */
  lemma LimitsEnclose(source: DataSource, stepSize: int, pairs: seq<Pair>, k: nat, j: nat)
    requires k < |pairs| && Ascending(source(pairs[k], stepSize)) && j < |source(pairs[k], stepSize)|
    ensures EarliestFront(source, stepSize, pairs) <= source(pairs[k], stepSize)[j].time
    ensures source(pairs[k], stepSize)[j].time <= LatestBack(source, stepSize, pairs)
  {
    LimitsEncloseEnds(source, stepSize, pairs, k);
    Between(source(pairs[k], stepSize), j);
  }

  /** Each limit is met by the first or last row of some pair, unless it is still the value it started at. */
  lemma {:induction false} LimitsAreMet(source: DataSource, stepSize: int, pairs: seq<Pair>)
    ensures var first, last := EarliestFront(source, stepSize, pairs), LatestBack(source, stepSize, pairs);
            && (first == MAX_TIME || exists p :: p in pairs && source(p, stepSize) != [] && source(p, stepSize)[0].time == first)
            && (last == 0 || exists p :: p in pairs && source(p, stepSize) != [] &&
                                         source(p, stepSize)[|source(p, stepSize)| - 1].time == last)
  {
    if pairs != [] {
      var n := |pairs| - 1;
      LimitsAreMet(source, stepSize, pairs[..n]);
      assert pairs[n] in pairs && forall p :: p in pairs[..n] ==> p in pairs;
    }
  }

  /** Loads every pair, skipping those without rows, and takes the limits from the rows unless the
      configuration sets them. */
  method LoadData(source: DataSource, config: BackTestingConfig, pairs: seq<Pair>)
    returns (ohlcvData: map<Pair, seq<Ohlcv>>, startTime: int, endTime: int)
    ensures ohlcvData == map p | p in pairs && source(p, config.stepSize) != [] :: source(p, config.stepSize)
    ensures startTime == if config.startTime != 0 then config.startTime else EarliestFront(source, config.stepSize, pairs)
    ensures endTime == if config.endTime != 0 then config.endTime else LatestBack(source, config.stepSize, pairs)
  {
    startTime, endTime := MAX_TIME, 0;
    ohlcvData := map[];
    for i := 0 to |pairs|
      invariant startTime == EarliestFront(source, config.stepSize, pairs[..i])
      invariant endTime == LatestBack(source, config.stepSize, pairs[..i])
      invariant forall p :: p in ohlcvData <==> p in pairs[..i] && source(p, config.stepSize) != []
      invariant forall p :: p in ohlcvData ==> ohlcvData[p] == source(p, config.stepSize)
    {
      assert pairs[..i + 1][..i] == pairs[..i] && pairs[..i + 1] == pairs[..i] + [pairs[i]];
      var data := source(pairs[i], config.stepSize);
      if data == [] {
        continue;
      }
      startTime := Earlier(startTime, data[0].time);
      endTime := Later(endTime, data[|data| - 1].time);
      if pairs[i] !in ohlcvData {
        ohlcvData := ohlcvData[pairs[i] := data];
      }
    }
    assert pairs[..|pairs|] == pairs;
    if config.startTime != 0 {
      startTime := config.startTime;
    }
    if config.endTime != 0 {
      endTime := config.endTime;
    }
  }

  /** Eagerly or lazily, the engine answers a listed pair from the rows of the source. Only a pair that is
      not listed is treated differently: loaded eagerly, it has no rows. */
  method LoadBackTestingData(source: DataSource, pairs: seq<Pair>, config: BackTestingConfig)
    returns (engine: BackTestingData)
    requires config.stepSize > 0
    requires forall p :: Ascending(source(p, config.stepSize))
    ensures fresh(engine) && engine.Valid() && engine.loads == multiset{}
    ensures engine.dataTime == engine.startTime && engine.stepSize == config.stepSize
    ensures engine.tradablePairs == pairs
    ensures engine.timeSteps == CalculateTimeSteps(engine.startTime, engine.endTime, config.stepSize)
    ensures engine.dataSource == if config.dynamicLoad then Some(source) else None
    ensures forall p :: engine.Rows(p) ==
                        if config.dynamicLoad || p in pairs then source(p, config.stepSize) else []
    ensures !config.dynamicLoad && config.startTime == 0 ==>
              engine.startTime == EarliestFront(source, config.stepSize, pairs)
    ensures !config.dynamicLoad && config.endTime == 0 ==>
              engine.endTime == LatestBack(source, config.stepSize, pairs)
    ensures config.dynamicLoad || config.startTime != 0 ==> engine.startTime == config.startTime
    ensures config.dynamicLoad || config.endTime != 0 ==> engine.endTime == config.endTime
  {
    var ohlcvData: map<Pair, seq<Ohlcv>> := map[];
    var startTime, endTime := config.startTime, config.endTime;
    var dataSource := Some(source);
    if !config.dynamicLoad {
      ohlcvData, startTime, endTime := LoadData(source, config, pairs);
      dataSource := None;
    }
    engine := new BackTestingData(pairs, ohlcvData, startTime, endTime, config.stepSize,
                                  CalculateTimeSteps(startTime, endTime, config.stepSize), dataSource);
  }

  /** Two views that agree on the pairs a strategy asks for give it the same answers: with equal clocks a
      lazily loaded data set cannot be told from an eagerly loaded one by asking for listed pairs. */
  lemma {:induction false} IterationSeesAskedRows(
    view: View, other: View, now: int, i: nat, strategy: Strategy, seen: seq<Answer>, limit: nat)
    requires AscendingView(view) && AscendingView(other) && Proper(strategy)
    requires forall j, s :: strategy(j, s).Some? ==>
                              view(strategy(j, s).value.pair) == other(strategy(j, s).value.pair)
    ensures Iteration(view, now, i, strategy, seen, limit) == Iteration(other, now, i, strategy, seen, limit)
    decreases limit
  {
    hide Fresh, Ascending;
    if limit > 0 && strategy(i, seen).Some? {
      var q := strategy(i, seen).value;
      IterationSeesAskedRows(view, other, now, i, strategy, seen + [Fresh(view(q.pair), now, q)], limit - 1);
    }
  }

  lemma {:induction false} LoadingModesAgree(
    source: DataSource, pairs: seq<Pair>, view: View, other: View,
    start: int, stepSize: int, strategy: Strategy, limit: nat, n: nat)
    requires AscendingView(view) && AscendingView(other) && Proper(strategy)
    requires forall p :: view(p) == source(p, stepSize)
    requires forall p :: other(p) == if p in pairs then source(p, stepSize) else []
    requires forall j, s :: strategy(j, s).Some? ==>
               var p := strategy(j, s).value.pair; p in pairs || source(p, stepSize) == []
    ensures Answers(view, start, stepSize, strategy, limit, n) == Answers(other, start, stepSize, strategy, limit, n)
  {
    hide Clock, Ascending, Iteration;
    if n > 0 {
      LoadingModesAgree(source, pairs, view, other, start, stepSize, strategy, limit, n - 1);
      IterationSeesAskedRows(view, other, Clock(start, stepSize, n - 1), n - 1, strategy,
                             Answers(view, start, stepSize, strategy, limit, n - 1), limit);
    }
  }

  /** What the original demands of a configuration before it uses it: lazy loading needs both limits, since
      it cannot take them from the rows. */
  predicate Accepted(config: BackTestingConfig) {
    && (config.endTime != 0 ==> config.endTime > config.startTime)
    && (config.dynamicLoad ==> config.startTime != 0 && config.endTime != 0)
    && config.stepSize > 0
  }

  /** The same test run over lazily and over eagerly loaded data, with a configuration accepted for both: a
      strategy that asks for listed pairs, or for pairs without rows, gets the same answers at the same
      clocks. Lazily each pair is loaded at most once, eagerly none is loaded during the run. */
  method RunBothWays(source: DataSource, pairs: seq<Pair>, config: BackTestingConfig, strategy: Strategy, limit: nat)
    returns (lazyAnswers: seq<Answer>, eagerAnswers: seq<Answer>,
             ghost lazyLoads: multiset<Pair>, ghost eagerLoads: multiset<Pair>)
    requires Accepted(config.(dynamicLoad := true)) && Proper(strategy)
    requires forall p :: Ascending(source(p, config.stepSize))
    requires forall j, s :: strategy(j, s).Some? ==>
               var p := strategy(j, s).value.pair; p in pairs || source(p, config.stepSize) == []
    ensures lazyAnswers == eagerAnswers
    ensures (forall p :: lazyLoads[p] <= 1) && eagerLoads == multiset{}
  {
    hide Answers, Proper;
    ghost var stepSize := config.stepSize;
    ghost var view: View := p => source(p, stepSize);
    ghost var listed: View := p => if p in pairs then source(p, stepSize) else [];
    var lazy := LoadBackTestingData(source, pairs, config.(dynamicLoad := true));
    var eager := LoadBackTestingData(source, pairs, config.(dynamicLoad := false));
    var lazyClocks, eagerClocks;
    lazyAnswers, lazyClocks := Run(lazy, strategy, limit, view);
    eagerAnswers, eagerClocks := Run(eager, strategy, limit, listed);
    lazyLoads, eagerLoads := lazy.loads, eager.loads;
    LoadingModesAgree(source, pairs, view, listed, lazy.startTime, stepSize, strategy, limit, |lazyClocks|);
  }

  // ---- No loaded row is skipped ----

  ghost predicate Visited(rows: seq<Ohlcv>, start: int, stepSize: int, n: int, j: nat) {
    exists i: nat :: i < n && Cursor(rows, Clock(start, stepSize, i)) == Some(j)
  }

  /** The first clock at or after a row comes before the next row. */
  lemma ClockReaches(start: int, stepSize: int, t: int) returns (i: nat)
    requires stepSize > 0 && start <= t
    ensures t <= Clock(start, stepSize, i) < t + stepSize
  {
    CeilDivFits(t - start, stepSize);
    MulOrder(CeilDiv(t - start, stepSize), -1, stepSize);
    i := CeilDiv(t - start, stepSize);
  }

  /** The clock stays within the limits exactly while iterations are left. */
  lemma ClockWithin(start: int, end: int, stepSize: int, i: nat)
    requires stepSize > 0 && start <= end
    ensures start <= Clock(start, stepSize, i)
    ensures Clock(start, stepSize, i) <= end <==> i < TruncDiv(end - start, stepSize) + 1
  {
    var q := (end - start) / stepSize;
    MulOrder(i, q, stepSize);
    MulOrder(0, i, stepSize);
  }

  lemma Int32Fits(x: int)
    requires -0x8000_0000 <= x < 0x8000_0000
    ensures ToInt32(x) == x
  {
  }

  lemma NextIsFar(rows: seq<Ohlcv>, stepSize: int, j: nat)
    requires Gaps(rows, stepSize) && j + 1 < |rows|
    ensures rows[j].time + stepSize <= rows[j + 1].time
  {
    assert rows[j + 1].time - rows[j + 1 - 1].time >= stepSize;
  }

  /** The last row is in force from the first clock that reaches it on. */
  lemma LastVisited(rows: seq<Ohlcv>, start: int, stepSize: int, n: nat, first: nat)
    requires stepSize > 0 && Ascending(rows) && rows != [] && n > 0
    requires rows[|rows| - 1].time <= Clock(start, stepSize, first) < rows[|rows| - 1].time + stepSize
    ensures Visited(rows, start, stepSize, n, |rows| - 1) <==> rows[|rows| - 1].time <= Clock(start, stepSize, n - 1)
  {
    var last := |rows| - 1;
    forall i: nat | i < n
      ensures Clock(start, stepSize, i) <= Clock(start, stepSize, n - 1)
      ensures Cursor(rows, Clock(start, stepSize, i)) == Some(last) <==> rows[last].time <= Clock(start, stepSize, i)
    {
      MulOrder(i, n - 1, stepSize);
      CountMeaning(rows, Clock(start, stepSize, i));
    }
  }

  /** Every row of a pair is the row in force in some iteration of the test, except that the last one is
      only if the clock of the last iteration reaches it. */
  lemma NoRowSkipped(rows: seq<Ohlcv>, start: int, end: int, stepSize: int, j: nat)
    requires stepSize > 0 && Gaps(rows, stepSize) && j < |rows|
    requires start <= rows[0].time && rows[|rows| - 1].time <= end
    requires TruncDiv(end - start, stepSize) + 1 < 0x8000_0000
    ensures start <= end && CalculateTimeSteps(start, end, stepSize) > 0
    ensures var n := CalculateTimeSteps(start, end, stepSize);
            Visited(rows, start, stepSize, n, j) <==>
            j < |rows| - 1 || rows[j].time <= Clock(start, stepSize, n - 1)
  {
    hide Clock, Gaps, CountUpTo, Ascending, ToInt32;
    GapsAscend(rows, stepSize);
    var n := TruncDiv(end - start, stepSize) + 1;
    Between(rows, j);
    Int32Fits(n);
    var i := ClockReaches(start, stepSize, rows[j].time);
    ClockWithin(start, end, stepSize, i);
    ClockWithin(start, end, stepSize, n - 1);
    if j < |rows| - 1 {
      NextIsFar(rows, stepSize, j);
      Between(rows, j + 1);
    }
    CountIs(rows, Clock(start, stepSize, i), j + 1);
    assert Cursor(rows, Clock(start, stepSize, i)) == Some(j);
    if j == |rows| - 1 {
      LastVisited(rows, start, stepSize, n, i);
    }
  }

  /** The source that reads each pair's rows from its file. */
  function CsvSource(files: Pair -> seq<Ohlcv>): DataSource {
    (pair: Pair, stepSize: int) => SortByTime(Thin(-1, stepSize, files(pair)))
  }

  lemma TruncDivNotNegative(x: int, d: int)
    requires d > 0 && x >= 0
    ensures TruncDiv(x, d) >= 0
  {
    MulOrder(x / d, -1, d);
  }

  lemma StepsCounted(start: int, end: int, stepSize: int)
    requires stepSize > 0 && start <= end && TruncDiv(end - start, stepSize) + 1 < 0x8000_0000
    ensures CalculateTimeSteps(start, end, stepSize) == TruncDiv(end - start, stepSize) + 1
  {
    TruncDivNotNegative(end - start, stepSize);
    Int32Fits(TruncDiv(end - start, stepSize) + 1);
  }

  /** With no limits configured, no row loaded for any pair is skipped by the test over its own limits. */
  lemma NoLoadedRowSkipped(files: Pair -> seq<Ohlcv>, pairs: seq<Pair>, stepSize: int, k: nat, j: nat)
    requires stepSize > 0 && k < |pairs| && NoSentinel(files(pairs[k]))
    requires j < |CsvSource(files)(pairs[k], stepSize)|
    requires var start, end := EarliestFront(CsvSource(files), stepSize, pairs), LatestBack(CsvSource(files), stepSize, pairs);
             TruncDiv(end - start, stepSize) + 1 < 0x8000_0000
    ensures var source := CsvSource(files);
            var rows := source(pairs[k], stepSize);
            var start, end := EarliestFront(source, stepSize, pairs), LatestBack(source, stepSize, pairs);
            var n := CalculateTimeSteps(start, end, stepSize);
            && n > 0
            && (Visited(rows, start, stepSize, n, j) <==>
                j < |rows| - 1 || rows[j].time <= Clock(start, stepSize, n - 1))
            && (forall i: nat :: i < n ==> start <= Clock(start, stepSize, i) <= end)
  {
    hide EarliestFront, LatestBack, Visited, Clock, Thin, SortByTime;
    var source := CsvSource(files);
    var start, end := EarliestFront(source, stepSize, pairs), LatestBack(source, stepSize, pairs);
    ThinIsSorted(stepSize, files(pairs[k]));
    ThinGaps(-1, stepSize, files(pairs[k]));
    LimitsEncloseEnds(source, stepSize, pairs, k);
    NoRowSkipped(source(pairs[k], stepSize), start, end, stepSize, j);
    StepsCounted(start, end, stepSize);
    forall i: nat | i < CalculateTimeSteps(start, end, stepSize)
      ensures start <= Clock(start, stepSize, i) <= end
    {
      ClockWithin(start, end, stepSize, i);
    }
  }

  /** Row `j` is the row in force at one of the clocks. */
  ghost predicate InForce(rows: seq<Ohlcv>, clocks: seq<int>, j: nat) {
    exists i: nat :: i < |clocks| && Cursor(rows, clocks[i]) == Some(j)
  }

  lemma VisitedAt(rows: seq<Ohlcv>, start: int, stepSize: int, clocks: seq<int>, j: nat)
    requires forall i :: 0 <= i < |clocks| ==> clocks[i] == Clock(start, stepSize, i)
    ensures InForce(rows, clocks, j) <==> Visited(rows, start, stepSize, |clocks|, j)
  {
  }

  /** At these clocks, all within the limits, row `j` of a pair is in force at some time, or it is the last
      one and the last clock does not reach it. */
  ghost predicate Covered(source: DataSource, stepSize: int, pairs: seq<Pair>, clocks: seq<int>, k: nat, j: nat)
    requires k < |pairs| && j < |source(pairs[k], stepSize)|
  {
    var rows := source(pairs[k], stepSize);
    && clocks != []
    && (InForce(rows, clocks, j) <==> j < |rows| - 1 || rows[j].time <= clocks[|clocks| - 1])
    && (forall i :: 0 <= i < |clocks| ==>
          EarliestFront(source, stepSize, pairs) <= clocks[i] <= LatestBack(source, stepSize, pairs))
  }

  lemma RunCovers(files: Pair -> seq<Ohlcv>, pairs: seq<Pair>, stepSize: int, clocks: seq<int>, k: nat, j: nat)
    requires stepSize > 0 && k < |pairs| && NoSentinel(files(pairs[k]))
    requires j < |CsvSource(files)(pairs[k], stepSize)|
    requires var start, end := EarliestFront(CsvSource(files), stepSize, pairs), LatestBack(CsvSource(files), stepSize, pairs);
             && TruncDiv(end - start, stepSize) + 1 < 0x8000_0000
             && |clocks| == Later(0, CalculateTimeSteps(start, end, stepSize))
             && forall i :: 0 <= i < |clocks| ==> clocks[i] == Clock(start, stepSize, i)
    ensures Covered(CsvSource(files), stepSize, pairs, clocks, k, j)
  {
    hide EarliestFront, LatestBack, Visited, InForce, Clock, Thin, SortByTime, TruncDiv, ToInt32, Cursor;
    NoLoadedRowSkipped(files, pairs, stepSize, k, j);
    VisitedAt(CsvSource(files)(pairs[k], stepSize), EarliestFront(CsvSource(files), stepSize, pairs), stepSize, clocks, j);
  }

  /** A test over all rows of some files, with no limits configured: at the clocks it really runs at no
      loaded row is skipped. */
  method RunOverFiles(files: Pair -> seq<Ohlcv>, pairs: seq<Pair>, stepSize: int, strategy: Strategy, limit: nat)
    returns (answers: seq<Answer>, clocks: seq<int>)
    requires stepSize > 0 && Proper(strategy) && forall p :: NoSentinel(files(p))
    requires var start, end := EarliestFront(CsvSource(files), stepSize, pairs), LatestBack(CsvSource(files), stepSize, pairs);
             TruncDiv(end - start, stepSize) + 1 < 0x8000_0000
    ensures forall k: nat, j: nat :: k < |pairs| && j < |CsvSource(files)(pairs[k], stepSize)| ==>
              Covered(CsvSource(files), stepSize, pairs, clocks, k, j)
  {
    hide Answers, Proper, EarliestFront, LatestBack, Clock, Thin, SortByTime, Covered, TruncDiv, ToInt32;
    forall p ensures Ascending(CsvSource(files)(p, stepSize)) {
      ThinIsSorted(stepSize, files(p));
    }
    var engine := LoadBackTestingData(CsvSource(files), pairs, BackTestingConfig(0, 0, stepSize, false));
    answers, clocks := Run(engine, strategy, limit, p => if p in pairs then CsvSource(files)(p, stepSize) else []);
    forall k: nat, j: nat | k < |pairs| && j < |CsvSource(files)(pairs[k], stepSize)|
      ensures Covered(CsvSource(files), stepSize, pairs, clocks, k, j)
    {
      RunCovers(files, pairs, stepSize, clocks, k, j);
    }
  }
}
