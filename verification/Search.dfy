/** Searching a sequence by the times of its elements. */
module Search {
  /** How many elements are at or before `t`, in a sequence ordered by time. */
  function CountUpTo<T>(s: seq<T>, time: T -> int, t: int): (k: nat)
    ensures k <= |s|
  {
    if s == [] || time(s[|s| - 1]) <= t then |s| else CountUpTo(s[..|s| - 1], time, t)
  }

  lemma {:induction false} CountMeaning<T>(s: seq<T>, time: T -> int, t: int)
    ensures var k := CountUpTo(s, time, t);
            && (k > 0 ==> time(s[k - 1]) <= t)
            && forall i :: k <= i < |s| ==> t < time(s[i])
  {
    if s != [] && t < time(s[|s| - 1]) { CountMeaning(s[..|s| - 1], time, t); }
  }

  lemma {:induction false} CountPositive<T>(s: seq<T>, time: T -> int, t: int)
    requires s != [] && time(s[0]) <= t
    ensures CountUpTo(s, time, t) > 0
  {
    if |s| > 1 { CountPositive(s[..|s| - 1], time, t); }
  }

  lemma CountIs<T>(s: seq<T>, time: T -> int, t: int, k: nat)
    requires k <= |s| && (k > 0 ==> time(s[k - 1]) <= t)
    requires forall i :: k <= i < |s| ==> t < time(s[i])
    ensures CountUpTo(s, time, t) == k
  {
    CountMeaning(s, time, t);
  }
}
