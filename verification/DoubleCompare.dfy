/** Comparing prices with a tolerance. */
module DoubleCompare {
  const EPSILON: real := 1.0 / 4503599627370496.0

  function Abs(x: real): real {
    if x < 0.0 then -x else x
  }

  function Largest(a: real, b: real): real {
    if Abs(b) > Abs(a) then Abs(b) else Abs(a)
  }

  predicate DoubleEqual(a: real, b: real) {
    Abs(a - b) <= 4.0 * EPSILON || Abs(a - b) <= Largest(a, b) * EPSILON
  }

  predicate DoubleLessThan(a: real, b: real) {
    !DoubleEqual(a, b) && a < b
  }

  predicate DoubleGreaterThan(a: real, b: real) {
    !DoubleEqual(a, b) && a > b
  }

  lemma Scaled(x: real, y: real)
    ensures x <= y ==> x * EPSILON <= y * EPSILON
  {
  }

  /** The tolerant comparison is a strict partial order on all numbers. */
  lemma LessThanIsStrictOrder(a: real, b: real, c: real)
    ensures !DoubleLessThan(a, a)
    ensures DoubleLessThan(a, b) ==> !DoubleLessThan(b, a)
    ensures DoubleLessThan(a, b) && DoubleLessThan(b, c) ==> DoubleLessThan(a, c)
    ensures DoubleEqual(a, b) <==> !DoubleLessThan(a, b) && !DoubleLessThan(b, a)
  {
    Scaled(Largest(a, c), Largest(a, b));
    Scaled(Largest(a, c), Largest(b, c));
  }

  /** It does not sort all numbers into ranks: equality within the tolerance is not transitive. */
  lemma EqualIsNotTransitive()
    ensures var a, b, c := 0.0, 3.0 * EPSILON, 6.0 * EPSILON;
            DoubleEqual(a, b) && DoubleEqual(b, c) && DoubleLessThan(a, c)
  {
  }

  /** The prices a whole number of ticks from zero, up to `n` ticks either way. */
  datatype Grid = Grid(tick: real, n: nat) {
    /** The tick exceeds the absolute tolerance, and the relative one at the largest price; a grid of the
        price 0 alone needs neither. */
    predicate Valid() {
      tick > 0.0 && (n > 0 ==> 4.0 * EPSILON < tick && n as real * EPSILON < 1.0)
    }

    function Price(k: int): real {
      k as real * tick
    }

    predicate InRange(k: int) {
      -(n as int) <= k <= n
    }

    ghost predicate Has(price: real) {
      exists k :: InRange(k) && price == Price(k)
    }
  }

  /** The comparison tells any two prices of the grid apart. */
  ghost predicate Separates(g: Grid) {
    forall j, k :: g.InRange(j) && g.InRange(k) && j != k ==> !DoubleEqual(g.Price(j), g.Price(k))
  }

  lemma NextTick(g: Grid, k: int)
    ensures g.Price(k + 1) == g.Price(k) + g.tick
  {
    var x := k as real;
    assert (k + 1) as real == x + 1.0;
    assert (x + 1.0) * g.tick == x * g.tick + g.tick;
  }

  lemma {:induction false} PriceGap(g: Grid, k: int, m: int)
    requires g.tick > 0.0 && k < m
    ensures g.tick <= g.Price(m) - g.Price(k)
    decreases m - k
  {
    NextTick(g, m - 1);
    if k < m - 1 {
      PriceGap(g, k, m - 1);
    }
  }

  lemma PriceOfZero(g: Grid)
    ensures g.Price(0) == 0.0 && g.Price(1) == g.tick
  {
    NextTick(g, 0);
  }

  lemma PriceOrder(g: Grid, k: int, m: int)
    requires g.tick > 0.0 && k <= m
    ensures g.Price(k) <= g.Price(m)
  {
    if k < m { PriceGap(g, k, m); }
  }

  lemma {:induction false} PriceMirrored(g: Grid, k: nat)
    ensures g.Price(-(k as int)) == -g.Price(k)
  {
    hide Grid.Price;
    if k == 0 {
      PriceOfZero(g);
    } else {
      PriceMirrored(g, k - 1);
      NextTick(g, k - 1);
      NextTick(g, -(k as int));
    }
  }

  /** No price of the grid is further from zero than its last. */
  lemma PriceBound(g: Grid, k: int)
    requires g.tick > 0.0 && g.InRange(k)
    ensures Abs(g.Price(k)) <= g.Price(g.n)
  {
    hide Grid.Price;
    PriceMirrored(g, g.n);
    PriceOrder(g, k, g.n);
    PriceOrder(g, -(g.n as int), k);
  }

  lemma Tolerance(x: real, t: real, e: real, p: real)
    requires t > 0.0 && p == x * t
    ensures p * e < t <==> x * e < 1.0
  {
    var y := x * e;
    assert p * e == y * t;
    if y >= 1.0 { assert (y - 1.0) * t >= 0.0; assert y * t == (y - 1.0) * t + t; }
    if y < 1.0 { assert (1.0 - y) * t > 0.0; assert y * t == t - (1.0 - y) * t; }
  }

  /** The relative tolerance at the largest price is less than a tick exactly if it is less than one at
      `n`. */
  lemma LargestTolerance(g: Grid)
    requires g.tick > 0.0
    ensures g.Price(g.n) * EPSILON < g.tick <==> g.n as real * EPSILON < 1.0
  {
    Tolerance(g.n as real, g.tick, EPSILON, g.Price(g.n));
  }

  lemma FarIsUnequal(g: Grid, a: real, b: real)
    requires g.Valid() && g.n > 0
    requires Abs(a) <= g.Price(g.n) && Abs(b) <= g.Price(g.n) && g.tick <= Abs(a - b)
    ensures !DoubleEqual(a, b)
  {
    hide Grid.Price;
    LargestTolerance(g);
    Scaled(Largest(a, b), g.Price(g.n));
  }

  lemma AbsOf(x: real)
    ensures x <= Abs(x) && -x <= Abs(x)
  {
  }

  lemma ValidSeparates(g: Grid, j: int, k: int)
    requires g.Valid() && g.InRange(j) && g.InRange(k) && j != k
    ensures !DoubleEqual(g.Price(j), g.Price(k))
  {
    hide Grid.Price, DoubleEqual;
    PriceBound(g, j);
    PriceBound(g, k);
    if j < k { PriceGap(g, j, k); } else { PriceGap(g, k, j); }
    AbsOf(g.Price(j) - g.Price(k));
    FarIsUnequal(g, g.Price(j), g.Price(k));
  }

  /** What telling apart 0 and the first price, and the last two prices, takes. */
  lemma SeparatesNeeds(g: Grid)
    requires g.tick > 0.0 && g.n > 0 && Separates(g)
    ensures 4.0 * EPSILON < g.tick && g.Price(g.n) * EPSILON < g.tick
  {
    hide Grid.Price;
    PriceOfZero(g);
    assert !DoubleEqual(g.Price(0), g.Price(1));
    assert !DoubleEqual(g.Price(g.n - 1), g.Price(g.n));
    NextTick(g, g.n - 1);
    PriceOrder(g, 0, g.n - 1);
  }

  /** The comparison tells the prices of a grid apart exactly when the tick exceeds four times epsilon and
      the number of ticks to the largest price is less than one over epsilon. */
  lemma GridIsExactlySeparated(g: Grid)
    requires g.tick > 0.0
    ensures Separates(g) <==> g.n > 0 ==> 4.0 * EPSILON < g.tick && g.n as real * EPSILON < 1.0
  {
    hide Grid.Price, DoubleEqual;
    if g.Valid() {
      forall j, k | g.InRange(j) && g.InRange(k) && j != k ensures !DoubleEqual(g.Price(j), g.Price(k)) {
        ValidSeparates(g, j, k);
      }
    } else if Separates(g) {
      SeparatesNeeds(g);
      LargestTolerance(g);
    }
  }

  /** On such a grid the comparison is the exact one. */
  lemma GridIsExact(g: Grid, a: real, b: real)
    requires g.Valid() && g.Has(a) && g.Has(b)
    ensures DoubleEqual(a, b) <==> a == b
    ensures DoubleLessThan(a, b) <==> a < b
    ensures DoubleGreaterThan(a, b) <==> a > b
  {
    var j :| g.InRange(j) && a == g.Price(j);
    var k :| g.InRange(k) && b == g.Price(k);
    hide Grid.Price, DoubleEqual;
    LessThanIsStrictOrder(a, b, a);
    if a != b {
      ValidSeparates(g, j, k);
    }
  }
}
