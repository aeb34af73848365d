/** Loading rows: thinning them to the step size, sorting them, and finding the time limits of a test. */
module DataLoading {
  import opened Trading
  import opened BackTestingData

  // ---- Thinning ----

  predicate Keeps(last: int, stepSize: int, time: int) {
    last == -1 || time - last >= stepSize
  }

  /** The rows kept when the last kept row so far was stamped `last`; -1 stands for "none yet". */
  function Thin(last: int, stepSize: int, rows: seq<Ohlcv>): seq<Ohlcv>
    decreases |rows|
  {
    if rows == [] then []
    else if Keeps(last, stepSize, rows[0].time) then [rows[0]] + Thin(rows[0].time, stepSize, rows[1..])
    else Thin(last, stepSize, rows[1..])
  }

  class OhlcvDataSelector {
    const stepSize: int
    var lastTime: int

    constructor (stepSize: int)
      ensures this.stepSize == stepSize && lastTime == -1
    {
      this.stepSize := stepSize;
      lastTime := -1;
    }

    method Select(row: Ohlcv) returns (keep: bool)
      modifies this
      ensures keep == Keeps(old(lastTime), stepSize, row.time)
      ensures lastTime == if keep then row.time else old(lastTime)
    {
      if lastTime != -1 && row.time - lastTime < stepSize {
        return false;
      }
      lastTime := row.time;
      return true;
    }
  }

  /** No row is stamped with the value that stands for "none yet"; stamps are not negative in practice. */
  ghost predicate NoSentinel(rows: seq<Ohlcv>) {
    forall i :: 0 <= i < |rows| ==> rows[i].time != -1
  }

  ghost predicate Gaps(rows: seq<Ohlcv>, stepSize: int) {
    forall i :: 0 < i < |rows| ==> rows[i].time - rows[i - 1].time >= stepSize
  }

  /** Kept rows are at least one step apart, in whatever order the rows came. */
  lemma {:induction false} ThinGaps(last: int, stepSize: int, rows: seq<Ohlcv>)
    requires NoSentinel(rows) && stepSize > 0
    ensures Gaps(Thin(last, stepSize, rows), stepSize)
    ensures var kept := Thin(last, stepSize, rows);
            last != -1 && kept != [] ==> kept[0].time - last >= stepSize
    decreases |rows|
  {
    if rows != [] {
      ThinGaps(if Keeps(last, stepSize, rows[0].time) then rows[0].time else last, stepSize, rows[1..]);
    }
  }

  lemma {:induction false} GapsAscend(rows: seq<Ohlcv>, stepSize: int)
    requires Gaps(rows, stepSize) && stepSize > 0
    ensures Ascending(rows)
  {
    if rows != [] {
      var n := |rows| - 1;
      GapsAscend(rows[..n], stepSize);
      forall i, j | 0 <= i < j < |rows| ensures rows[i].time < rows[j].time {
        if j == n && i < n - 1 { assert rows[..n][i].time < rows[..n][n - 1].time; }
        if j < n { assert rows[..n][i].time < rows[..n][j].time; }
      }
    }
  }

  /** While the selector holds -1 after keeping a row stamped -1, it lets any row through: this says that,
      going on from `last`, it lets one through that is less than a step later. */
  predicate Leaks(last: int, stepSize: int, rows: seq<Ohlcv>)
    decreases |rows|
  {
    rows != [] &&
    var time := rows[0].time;
    || (last == -1 && time - last < stepSize)
    || Leaks(if Keeps(last, stepSize, time) then time else last, stepSize, rows[1..])
  }

  lemma GapsTail(rows: seq<Ohlcv>, stepSize: int)
    requires Gaps(rows, stepSize) && rows != []
    ensures Gaps(rows[1..], stepSize)
    ensures |rows| > 1 ==> rows[1].time - rows[0].time >= stepSize
  {
    forall i | 0 < i < |rows[1..]| ensures rows[1..][i].time - rows[1..][i - 1].time >= stepSize {
      assert rows[i + 1].time - rows[i + 1 - 1].time >= stepSize;
    }
  }

  lemma GapsCons(first: Ohlcv, second: Ohlcv, rest: seq<Ohlcv>, stepSize: int)
    ensures Gaps([first, second] + rest, stepSize) <==>
            second.time - first.time >= stepSize && Gaps([second] + rest, stepSize)
  {
    var all, tail := [first, second] + rest, [second] + rest;
    assert all[1..] == tail;
    if Gaps(all, stepSize) { GapsTail(all, stepSize); }
    if second.time - first.time >= stepSize && Gaps(tail, stepSize) {
      forall i | 0 < i < |all| ensures all[i].time - all[i - 1].time >= stepSize {
        if i > 1 { assert tail[i - 1].time - tail[i - 1 - 1].time >= stepSize; }
      }
    }
  }

  lemma {:induction false} LeaksExactly(first: Ohlcv, stepSize: int, rows: seq<Ohlcv>)
    requires stepSize > 0
    ensures Gaps([first] + Thin(first.time, stepSize, rows), stepSize) <==> !Leaks(first.time, stepSize, rows)
    decreases |rows|
  {
    if rows != [] {
      if Keeps(first.time, stepSize, rows[0].time) {
        var kept := Thin(rows[0].time, stepSize, rows[1..]);
        LeaksExactly(rows[0], stepSize, rows[1..]);
        GapsCons(first, rows[0], kept, stepSize);
        assert [first] + ([rows[0]] + kept) == [first, rows[0]] + kept;
      } else {
        LeaksExactly(first, stepSize, rows[1..]);
      }
    }
  }

  lemma {:induction false} NoLeakAfter(last: int, stepSize: int, rows: seq<Ohlcv>)
    requires last >= 0 && stepSize > 0 && forall i :: 0 <= i < |rows| ==> rows[i].time >= -1
    ensures !Leaks(last, stepSize, rows)
    decreases |rows|
  {
    if rows != [] {
      NoLeakAfter(if Keeps(last, stepSize, rows[0].time) then rows[0].time else last, stepSize, rows[1..]);
    }
  }

  /** Exactly when kept rows are a step apart, for any stamps: no row slips through behind one stamped -1.
      When no stamp is below -1, that is decided by the first two rows. */
  lemma ThinGapsExactly(stepSize: int, rows: seq<Ohlcv>)
    requires stepSize > 0
    ensures Gaps(Thin(-1, stepSize, rows), stepSize) <==> rows == [] || !Leaks(rows[0].time, stepSize, rows[1..])
    ensures (forall i :: 0 <= i < |rows| ==> rows[i].time >= -1) ==>
              (Gaps(Thin(-1, stepSize, rows), stepSize) <==>
               !(|rows| > 1 && rows[0].time == -1 && rows[1].time < stepSize - 1))
  {
    if rows != [] {
      var first, rest := rows[0], rows[1..];
      LeaksExactly(first, stepSize, rest);
      if forall i :: 0 <= i < |rows| ==> rows[i].time >= -1 {
        if first.time >= 0 {
          NoLeakAfter(first.time, stepSize, rest);
        } else if rest != [] && rest[0].time >= stepSize - 1 {
          NoLeakAfter(rest[0].time, stepSize, rest[1..]);
        }
      }
    }
  }

  /** Two rows a second apart, the first stamped -1. */
  function SentinelRows(): seq<Ohlcv> {
    [Ohlcv(-1, 0.0, 0.0, 0.0, 0.0, 0.0), Ohlcv(0, 0.0, 0.0, 0.0, 0.0, 0.0)]
  }

  /** A row stamped -1 is taken for "none yet": the row after it is kept however close it is. */
  lemma SentinelLeaks()
    ensures Thin(-1, 60, SentinelRows()) == SentinelRows() && !Gaps(SentinelRows(), 60)
  {
    var rows := SentinelRows();
    ThinGapsExactly(60, rows);
    assert rows[1..] == [rows[1]] && [rows[1]][1..] == [];
    assert Thin(0, 60, []) == [];
    assert Thin(-1, 60, [rows[1]]) == [rows[1]];
    assert [rows[0]] + [rows[1]] == rows;
  }

  ghost predicate Subsequence(picked: seq<Ohlcv>, rows: seq<Ohlcv>) {
    picked == [] ||
    (rows != [] &&
     ((picked[0] == rows[0] && Subsequence(picked[1..], rows[1..])) || Subsequence(picked, rows[1..])))
  }

  lemma {:induction false} ThinIsSubsequence(last: int, stepSize: int, rows: seq<Ohlcv>)
    ensures Subsequence(Thin(last, stepSize, rows), rows)
    decreases |rows|
  {
    if rows != [] {
      ThinIsSubsequence(if Keeps(last, stepSize, rows[0].time) then rows[0].time else last, stepSize, rows[1..]);
    }
  }

  ghost predicate NonDecreasing(rows: seq<Ohlcv>) {
    forall i, j :: 0 <= i < j < |rows| ==> rows[i].time <= rows[j].time
  }

  lemma {:induction false} PickedComesFrom(picked: seq<Ohlcv>, rows: seq<Ohlcv>, t: int)
    requires Subsequence(picked, rows) && picked != []
    requires forall i :: 0 <= i < |rows| ==> t <= rows[i].time
    ensures t <= picked[0].time
  {
    if picked[0] != rows[0] || !Subsequence(picked[1..], rows[1..]) {
      PickedComesFrom(picked, rows[1..], t);
    }
  }

  lemma {:induction false} TailPicked(picked: seq<Ohlcv>, rows: seq<Ohlcv>)
    requires Subsequence(picked, rows) && picked != []
    ensures Subsequence(picked[1..], rows)
  {
    if picked[0] == rows[0] && Subsequence(picked[1..], rows[1..]) {
    } else {
      TailPicked(picked, rows[1..]);
    }
  }

  /** No other selection of rows a step apart keeps more of them than thinning does. */
  lemma {:induction false} ThinIsOptimal(last: int, stepSize: int, rows: seq<Ohlcv>, picked: seq<Ohlcv>)
    requires NoSentinel(rows) && NonDecreasing(rows) && stepSize > 0
    requires Subsequence(picked, rows) && Gaps(picked, stepSize)
    requires last != -1 && picked != [] ==> picked[0].time - last >= stepSize
    ensures |picked| <= |Thin(last, stepSize, rows)|
    decreases |rows|
  {
    if picked != [] {
      var takes := picked[0] == rows[0] && Subsequence(picked[1..], rows[1..]);
      assert Gaps(picked[1..], stepSize) by { GapsTail(picked, stepSize); }
      if Keeps(last, stepSize, rows[0].time) {
        if !takes {
          PickedComesFrom(picked, rows, rows[0].time);
          TailPicked(picked, rows[1..]);
        }
        ThinIsOptimal(rows[0].time, stepSize, rows[1..], picked[1..]);
      } else {
        ThinIsOptimal(last, stepSize, rows[1..], picked);
      }
    }
  }

  // ---- Sorting ----

  function Insert(row: Ohlcv, sorted: seq<Ohlcv>): seq<Ohlcv> {
    if sorted == [] || row.time <= sorted[0].time then [row] + sorted
    else [sorted[0]] + Insert(row, sorted[1..])
  }

  /** The rows in order of time. */
  function SortByTime(rows: seq<Ohlcv>): seq<Ohlcv> {
    if rows == [] then [] else Insert(rows[0], SortByTime(rows[1..]))
  }

  lemma {:induction false} InsertKeeps(row: Ohlcv, sorted: seq<Ohlcv>)
    ensures multiset(Insert(row, sorted)) == multiset(sorted) + multiset{row}
  {
    if sorted != [] && row.time > sorted[0].time {
      var rest := Insert(row, sorted[1..]);
      InsertKeeps(row, sorted[1..]);
      assert sorted == [sorted[0]] + sorted[1..];
      assert multiset([sorted[0]] + rest) == multiset{sorted[0]} + multiset(rest);
    }
  }

  lemma {:induction false} InsertSorts(row: Ohlcv, sorted: seq<Ohlcv>)
    requires NonDecreasing(sorted)
    ensures NonDecreasing(Insert(row, sorted))
    ensures Insert(row, sorted) != []
    ensures Insert(row, sorted)[0] == row || (sorted != [] && Insert(row, sorted)[0] == sorted[0])
  {
    if sorted != [] && row.time > sorted[0].time {
      InsertSorts(row, sorted[1..]);
    }
  }

  lemma {:induction false} SortSorts(rows: seq<Ohlcv>)
    ensures NonDecreasing(SortByTime(rows))
    ensures multiset(SortByTime(rows)) == multiset(rows)
  {
    if rows != [] {
      SortSorts(rows[1..]);
      InsertSorts(rows[0], SortByTime(rows[1..]));
      InsertKeeps(rows[0], SortByTime(rows[1..]));
      assert rows == [rows[0]] + rows[1..];
    }
  }

  lemma HeadForced(rows: seq<Ohlcv>, sorted: seq<Ohlcv>)
    requires Ascending(rows) && NonDecreasing(sorted) && multiset(sorted) == multiset(rows) && rows != []
    ensures sorted != [] && sorted[0] == rows[0]
  {
    assert rows[0] in multiset(sorted);
    var i :| 0 <= i < |sorted| && sorted[i] == rows[0];
    assert sorted[0] in multiset(rows);
    var j :| 0 <= j < |rows| && rows[j] == sorted[0];
  }

  lemma TailMultiset(rows: seq<Ohlcv>)
    requires rows != []
    ensures multiset(rows[1..]) == multiset(rows) - multiset{rows[0]}
  {
    assert rows == [rows[0]] + rows[1..];
  }

  /** Rows already strictly in order have only themselves as a sorted rearrangement. */
  lemma {:induction false} SortForced(rows: seq<Ohlcv>, sorted: seq<Ohlcv>)
    requires Ascending(rows) && NonDecreasing(sorted) && multiset(sorted) == multiset(rows)
    ensures sorted == rows
  {
    if rows == [] {
      assert |multiset(sorted)| == 0;
    } else {
      HeadForced(rows, sorted);
      TailMultiset(rows);
      TailMultiset(sorted);
      SortForced(rows[1..], sorted[1..]);
      assert sorted == [sorted[0]] + sorted[1..];
    }
  }

  /** Sorting after thinning changes nothing. */
  lemma ThinIsSorted(stepSize: int, rows: seq<Ohlcv>)
    requires NoSentinel(rows) && stepSize > 0
    ensures SortByTime(Thin(-1, stepSize, rows)) == Thin(-1, stepSize, rows)
    ensures Ascending(Thin(-1, stepSize, rows))
  {
    var kept := Thin(-1, stepSize, rows);
    ThinGaps(-1, stepSize, rows);
    GapsAscend(kept, stepSize);
    SortSorts(kept);
    SortForced(kept, SortByTime(kept));
  }

  /** Reads the rows of one file, keeps those the selector lets through, and sorts them. */
  method LoadRows(fileRows: seq<Ohlcv>, stepSize: int) returns (rows: seq<Ohlcv>)
    ensures rows == SortByTime(Thin(-1, stepSize, fileRows))
    ensures NoSentinel(fileRows) && stepSize > 0 ==> rows == Thin(-1, stepSize, fileRows)
  {
    var selector := new OhlcvDataSelector(stepSize);
    rows := [];
    for i := 0 to |fileRows|
      invariant selector.stepSize == stepSize
      invariant rows + Thin(selector.lastTime, stepSize, fileRows[i..]) == Thin(-1, stepSize, fileRows)
    {
      assert fileRows[i..][0] == fileRows[i] && fileRows[i..][1..] == fileRows[i + 1..];
      var keep := selector.Select(fileRows[i]);
      if keep {
        rows := rows + [fileRows[i]];
      }
    }
    assert rows == Thin(-1, stepSize, fileRows);
    if NoSentinel(fileRows) && stepSize > 0 {
      ThinIsSorted(stepSize, fileRows);
    }
    rows := SortByTime(rows);
  }
}
