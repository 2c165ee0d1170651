/// `Math.round(num / den)` on an exact rational quotient, as used by the overdue-rate
/// percentage and by the average number of checkouts per item.
module Rounding {

  /** `Math.round(num / den)`: the floor of `num / den + 1/2`, so halves round up. */
  function RoundQuotient(num: int, den: int): (r: int)
    requires den > 0
    ensures 2 * den * r - den <= 2 * num < 2 * den * r + den
  {
    var q := (2 * num + den) / (2 * den);
    assert 2 * den * q <= 2 * num + den < 2 * den * q + 2 * den;
    q
  }

  /** Rounding is monotone in the numerator. */
  lemma RoundQuotientMonotone(n1: int, n2: int, den: int)
    requires den > 0 && n1 <= n2
    ensures RoundQuotient(n1, den) <= RoundQuotient(n2, den)
  {
    var r1, r2 := RoundQuotient(n1, den), RoundQuotient(n2, den);
    if r1 > r2 {
      MulMonotone(2 * den, r2 + 1, r1);
      assert false;
    }
  }

  /** A quotient known to lie between two integers rounds to a value between them. */
  lemma RoundQuotientWithin(num: int, den: int, lo: int, hi: int)
    requires den > 0 && lo * den <= num <= hi * den
    ensures lo <= RoundQuotient(num, den) <= hi
  {
    var r := RoundQuotient(num, den);
    if r > hi {
      MulMonotone(2 * den, hi + 1, r);
      assert false;
    }
    if r < lo {
      MulMonotone(2 * den, r + 1, lo);
      assert false;
    }
  }

  /** An exact multiple rounds to itself. */
  lemma RoundQuotientExact(k: int, den: int)
    requires den > 0
    ensures RoundQuotient(k * den, den) == k
  {
    RoundQuotientWithin(k * den, den, k, k);
  }

  lemma MulMonotone(c: int, a: int, b: int)
    requires c >= 0 && a <= b
    ensures c * a <= c * b
  {
  }
}
