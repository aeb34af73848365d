/** Counting whole intervals. */
module Intervals {
  lemma {:induction false} MulSteps(p: int, q: int, d: int)
    requires d > 0 && p < q
    ensures p * d + d <= q * d
    decreases q - p
  {
    assert (q - 1) * d == q * d - d;
    if p < q - 1 { MulSteps(p, q - 1, d); }
  }

  lemma MulOrder(p: int, q: int, d: int)
    requires d > 0
    ensures p < q ==> p * d + d <= q * d
    ensures q < p ==> q * d + d <= p * d
  {
    if p < q { MulSteps(p, q, d); }
    if q < p { MulSteps(q, p, d); }
  }

  /** Division is the only count of whole intervals that fits. */
  lemma DivUnique(x: int, d: int, q: int)
    requires d > 0 && q * d <= x < q * d + d
    ensures x / d == q
  {
    MulOrder(x / d, q, d);
  }

  lemma MulAdds(p: int, q: int, d: int)
    ensures (p + q) * d == p * d + q * d
  {
  }

  lemma MultiplesAdd(a: int, b: int, d: int)
    requires d > 0 && a % d == 0 && b % d == 0
    ensures (a + b) % d == 0
  {
    var p, q := a / d, b / d;
    assert a == p * d && b == q * d;
    MulAdds(p, q, d);
    DivUnique(a + b, d, p + q);
  }

  /** How many intervals of length `d` it takes to cover `x`. */
  function CeilDiv(x: int, d: int): int
    requires d > 0
  {
    (x + d - 1) / d
  }

  lemma CeilDivFits(x: int, d: int)
    requires d > 0
    ensures x <= CeilDiv(x, d) * d < x + d
  {
  }
}
