/** Adding up a value over a sequence. */
module Sums {
  function SumOf<T>(s: seq<T>, value: T -> real): real {
    if s == [] then 0.0 else SumOf(s[..|s| - 1], value) + value(s[|s| - 1])
  }

  lemma SumOfOne<T>(x: T, value: T -> real)
    ensures SumOf([x], value) == value(x)
  {
    assert [x][..0] == [];
  }

  lemma {:induction false} SumOfJoin<T>(a: seq<T>, b: seq<T>, value: T -> real)
    ensures SumOf(a + b, value) == SumOf(a, value) + SumOf(b, value)
    decreases |b|
  {
    if b == [] {
      assert a + b == a;
    } else {
      var n := |b| - 1;
      assert (a + b)[..|a + b| - 1] == a + b[..n];
      SumOfJoin(a, b[..n], value);
    }
  }
}
