/** Facts about division that the machine arithmetic of several modules rests on. */
module Arith {

  lemma MultipleIsFar(m: int, d: int)
    requires m > 0
    ensures d >= 1 ==> m * d >= m
    ensures d <= -1 ==> m * d <= -m
  {
    if d >= 1 {
      assert m * (d - 1) >= 0;
    } else if d <= -1 {
      assert m * (-1 - d) >= 0;
    }
  }

  /** Quotient and remainder are the only pair that fits. */
  lemma Quotient(x: int, m: int, q: int, r: int)
    requires 0 <= r < m && x == m * q + r
    ensures x / m == q && x % m == r
  {
    MultipleIsFar(m, q - x / m);
    assert m * (q - x / m) == x % m - r;
  }

  /** x * y as repeated addition: a name for a product that the solver treats as one unknown, which keeps identities
      over many products linear. */
  ghost function Times(x: int, y: int): int
    decreases if x < 0 then -x else x
  {
    if x == 0 then 0 else if x < 0 then Times(x + 1, y) - y else Times(x - 1, y) + y
  }

  lemma {:induction false} TimesIsProduct(x: int, y: int)
    ensures Times(x, y) == x * y
    decreases if x < 0 then -x else x
  {
    if x < 0 {
      TimesIsProduct(x + 1, y);
    } else if x > 0 {
      TimesIsProduct(x - 1, y);
    }
  }

  function Pow2(n: nat): (p: int)
    ensures p >= 1
  {
    if n == 0 then 1 else 2 * Pow2(n - 1)
  }

  lemma {:induction false} Pow2Sum(m: nat, n: nat)
    ensures Pow2(m + n) == Pow2(m) * Pow2(n)
    decreases m
  {
    if m != 0 {
      Pow2Sum(m - 1, n);
      assert 2 * (Pow2(m - 1) * Pow2(n)) == (2 * Pow2(m - 1)) * Pow2(n);
    }
  }

  lemma Monotone(p: int, x: int, y: int)
    requires p >= 0 && x <= y
    ensures p * x <= p * y
  {
    assert p * (y - x) >= 0;
  }
}
