/** Integers modulo P = 2^255 - 19, the field of section 5.1 of RFC 8032, and powers in it. */
module Residues {
  import opened Arith

  const P: int := 0x7fff_ffff_ffff_ffff_ffff_ffff_ffff_ffff_ffff_ffff_ffff_ffff_ffff_ffff_ffff_ffed
  const TWO255: int := 0x8000_0000_0000_0000_0000_0000_0000_0000_0000_0000_0000_0000_0000_0000_0000_0000

  ghost predicate Congruent(a: int, b: int) {
    a % P == b % P
  }

  lemma CongruentBy(a: int, b: int, q: int)
    requires a == b - P * q
    ensures Congruent(a, b)
  {
    Quotient(a, P, b / P - q, b % P);
  }

  /** Congruent numbers differ by a multiple of P. */
  lemma Multiple(a: int, b: int) returns (q: int)
    requires Congruent(a, b)
    ensures a == b - P * q
  {
    q := b / P - a / P;
  }

  lemma CongruentSum(a: int, a': int, b: int, b': int)
    requires Congruent(a, a') && Congruent(b, b')
    ensures Congruent(a + b, a' + b') && Congruent(a - b, a' - b')
  {
    var i := Multiple(a, a');
    var j := Multiple(b, b');
    CongruentBy(a + b, a' + b', i + j);
    CongruentBy(a - b, a' - b', i - j);
  }

  lemma ExpandProduct(a': int, i: int, b': int, j: int, p: int)
    ensures (a' - p * i) * (b' - p * j) == a' * b' - p * (i * b' + a' * j - p * (i * j))
  {
    assert (a' - p * i) * (b' - p * j) == a' * (b' - p * j) - (p * i) * (b' - p * j);
    assert a' * (b' - p * j) == a' * b' - p * (a' * j);
    assert (p * i) * (b' - p * j) == p * (i * b') - p * (p * (i * j)) by {
      assert (p * i) * (b' - p * j) == p * (i * (b' - p * j));
      assert i * (b' - p * j) == i * b' - p * (i * j);
    }
  }

  lemma CongruentProduct(a: int, a': int, b: int, b': int)
    requires Congruent(a, a') && Congruent(b, b')
    ensures Congruent(a * b, a' * b')
  {
    var i := Multiple(a, a');
    var j := Multiple(b, b');
    ExpandProduct(a', i, b', j, P);
    CongruentBy(a * b, a' * b', i * b' + a' * j - P * (i * j));
  }

  ghost function Pow(x: int, n: nat): int
    decreases n, x  // naming x keeps the solver from unfolding a literal exponent
  {
    if n == 0 then 1 else x * Pow(x, n - 1)
  }

  lemma {:induction false} PowSum(x: int, m: nat, n: nat)
    ensures Pow(x, m + n) == Pow(x, m) * Pow(x, n)
    decreases m
  {
    if m != 0 {
      PowSum(x, m - 1, n);
      assert x * (Pow(x, m - 1) * Pow(x, n)) == (x * Pow(x, m - 1)) * Pow(x, n);
    }
  }

  lemma {:induction false} PowProduct(x: int, m: nat, n: nat)
    ensures Pow(x, m * n) == Pow(Pow(x, m), n)
    decreases n
  {
    if n != 0 {
      PowProduct(x, m, n - 1);
      assert m * n == m + m * (n - 1);
      PowSum(x, m, m * (n - 1));
    }
  }

  lemma Interleave(x: int, y: int, a: int, b: int)
    ensures (x * y) * (a * b) == (x * a) * (y * b)
  {
  }

  lemma {:induction false} PowOfProduct(x: int, y: int, n: nat)
    ensures Pow(x * y, n) == Pow(x, n) * Pow(y, n)
    decreases n
  {
    if n != 0 {
      PowOfProduct(x, y, n - 1);
      Interleave(x, y, Pow(x, n - 1), Pow(y, n - 1));
    }
  }

  lemma {:induction false} PowCongruent(x: int, y: int, n: nat)
    requires Congruent(x, y)
    ensures Congruent(Pow(x, n), Pow(y, n))
    decreases n
  {
    if n != 0 {
      PowCongruent(x, y, n - 1);
      CongruentProduct(x, y, Pow(x, n - 1), Pow(y, n - 1));
    }
  }

  lemma {:induction false} PowOfOne(n: nat)
    ensures Pow(1, n) == 1
    decreases n
  {
    if n != 0 {
      PowOfOne(n - 1);
    }
  }
}
