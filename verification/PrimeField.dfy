/** What primality of P = 2^255 - 19 gives: Euclid's lemma and Fermat's little theorem. */
module PrimeField {
  import opened Arith
  import opened Residues

  ghost predicate Divides(d: int, n: int) {
    d != 0 && n % d == 0
  }

  /** The one fact about P that is not proved here. */
  ghost predicate PIsPrime() {
    forall d :: 1 < d < P ==> !Divides(d, P)
  }

  // ---- Euclid's lemma ----

  /** The least multiplier from n on that makes a a multiple of P. */
  ghost function Least(a: int, n: int): (m: int)
    requires 1 <= n <= P && (a * P) % P == 0
    ensures n <= m <= P && (a * m) % P == 0
    ensures forall k :: n <= k < m ==> (a * k) % P != 0
    decreases P - n
  {
    if (a * n) % P == 0 || n == P then n else Least(a, n + 1)
  }

  /** Remainders of multipliers are multipliers. */
  lemma RemainderAnnihilates(a: int, x: int, m: int)
    requires m > 0 && (a * x) % P == 0 && (a * m) % P == 0
    ensures (a * (x % m)) % P == 0
  {
    var q := x / m;
    assert x == m * q + x % m;
    assert a * (x % m) == a * x - (a * m) * q;
    CongruentProduct(a * m, 0, q, q);
    CongruentSum(a * x, 0, (a * m) * q, 0);
  }

  lemma MultipleOfP(a: int)
    ensures (a * P) % P == 0 && (P * a) % P == 0
  {
    Quotient(a * P, P, a, 0);
  }

  lemma Euclid(a: int, b: int)
    requires PIsPrime() && (a * b) % P == 0
    ensures a % P == 0 || b % P == 0
  {
    MultipleOfP(a);
    var one := 1;
    var m := Least(a, one);
    RemainderAnnihilates(a, P, m);
    RemainderAnnihilates(a, b, m);
    assert P % m == 0 && b % m == 0;
    assert Divides(m, P);
    assert m == 1 || m == P;
  }

  // ---- Fermat's little theorem ----

  ghost function Product(s: seq<int>): int {
    if s == [] then 1 else Product(s[..|s| - 1]) * s[|s| - 1]
  }

  ghost function Factorial(n: nat): int {
    if n == 0 then 1 else Factorial(n - 1) * n
  }

  ghost predicate Distinct(s: seq<int>) {
    forall i, j :: 0 <= i < j < |s| ==> s[i] != s[j]
  }

  ghost predicate OneTo(s: seq<int>, n: nat) {
    forall i :: 0 <= i < |s| ==> 1 <= s[i] <= n
  }

  lemma {:induction false} ProductConcat(s: seq<int>, t: seq<int>)
    ensures Product(s + t) == Product(s) * Product(t)
    decreases |t|
  {
    if t == [] {
      assert s + t == s;
    } else {
      var n := |t| - 1;
      ProductConcat(s, t[..n]);
      assert (s + t)[..|s + t| - 1] == s + t[..n];
      assert Product(s) * (Product(t[..n]) * t[n]) == (Product(s) * Product(t[..n])) * t[n];
    }
  }

  /** The list without element j. */
  lemma Without(s: seq<int>, j: nat)
    requires j < |s|
    ensures Product(s) == Product(s[..j] + s[j + 1..]) * s[j]
  {
    ProductConcat(s[..j], s[j + 1..]);
    ProductConcat(s[..j + 1], s[j + 1..]);
    assert s[..j + 1] + s[j + 1..] == s;
    assert s[..j + 1][..j] == s[..j];
    Swap(Product(s[..j]), s[j], Product(s[j + 1..]));
  }

  lemma Swap(x: int, y: int, z: int)
    ensures (x * y) * z == (x * z) * y
  {
  }

  lemma WithoutLargest(s: seq<int>, n: nat, j: nat)
    requires n >= 1 && Distinct(s) && OneTo(s, n) && j < |s| && s[j] == n
    ensures Distinct(s[..j] + s[j + 1..]) && OneTo(s[..j] + s[j + 1..], n - 1)
  {
  }

  /** No more than n different numbers from 1 to n. */
  lemma {:induction false} Pigeonhole(s: seq<int>, n: nat)
    requires Distinct(s) && OneTo(s, n)
    ensures |s| <= n
    decreases n
  {
    if s != [] {
      assert 1 <= s[0] <= n;
      if n in s {
        var j :| 0 <= j < |s| && s[j] == n;
        WithoutLargest(s, n, j);
        Pigeonhole(s[..j] + s[j + 1..], n - 1);
      } else {
        assert OneTo(s, n - 1);
        Pigeonhole(s, n - 1);
      }
    }
  }

  /** n different numbers from 1 to n multiply to the factorial. */
  lemma {:induction false} PermutedFactorial(s: seq<int>, n: nat)
    requires Distinct(s) && OneTo(s, n) && |s| == n
    ensures Product(s) == Factorial(n)
    decreases n
  {
    if n > 0 {
      if n !in s {
        assert OneTo(s, n - 1);
        Pigeonhole(s, n - 1);
      }
      var j :| 0 <= j < |s| && s[j] == n;
      WithoutLargest(s, n, j);
      Without(s, j);
      PermutedFactorial(s[..j] + s[j + 1..], n - 1);
    }
  }

  /** The residues of a, 2 a, ..., n a. */
  ghost function Multiples(a: int, n: nat): (s: seq<int>)
    ensures |s| == n && forall i :: 0 <= i < n ==> s[i] == (a * (i + 1)) % P
  {
    seq(n, i => (a * (i + 1)) % P)
  }

  lemma MultipleNotZero(a: int, i: int)
    requires PIsPrime() && a % P != 0 && 0 < i < P
    ensures 1 <= (a * i) % P <= P - 1
  {
    if (a * i) % P == 0 {
      Euclid(a, i);
    }
  }

  lemma TwoMultiplesDiffer(a: int, i: int, j: int)
    requires PIsPrime() && a % P != 0 && 0 < i < j < P
    ensures (a * i) % P != (a * j) % P
  {
    if (a * i) % P == (a * j) % P {
      CongruentSum(a * j, a * i, a * i, a * i);
      assert a * j - a * i == a * (j - i);
      MultipleNotZero(a, j - i);
    }
  }

  /** They are different and not zero below P. */
  lemma MultiplesDiffer(a: int, n: nat)
    requires PIsPrime() && a % P != 0 && n < P
    ensures Distinct(Multiples(a, n)) && OneTo(Multiples(a, n), P - 1)
  {
    forall i | 0 <= i < n
      ensures 1 <= Multiples(a, n)[i] <= P - 1
    {
      MultipleNotZero(a, i + 1);
    }
    forall i, j | 0 <= i < j < n
      ensures Multiples(a, n)[i] != Multiples(a, n)[j]
    {
      TwoMultiplesDiffer(a, i + 1, j + 1);
    }
  }

  lemma Rearranged(x: int, f: int, a: int, n: int)
    ensures (x * f) * (a * n) == (a * x) * (f * n)
  {
    assert (x * f) * (a * n) == ((x * f) * a) * n;
    assert (a * x) * (f * n) == ((a * x) * f) * n;
    assert (x * f) * a == (a * x) * f;
  }

  lemma {:induction false} ProductOfMultiples(a: int, n: nat)
    ensures Congruent(Product(Multiples(a, n)), Pow(a, n) * Factorial(n))
    decreases n
  {
    if n > 0 {
      var s := Multiples(a, n);
      assert s[..n - 1] == Multiples(a, n - 1);
      ProductOfMultiples(a, n - 1);
      CongruentProduct(Product(s[..n - 1]), Pow(a, n - 1) * Factorial(n - 1), s[n - 1], a * n);
      Rearranged(Pow(a, n - 1), Factorial(n - 1), a, n);
    }
  }

  lemma {:induction false} FactorialNotZero(n: nat)
    requires PIsPrime() && n < P
    ensures Factorial(n) % P != 0
    decreases n
  {
    if n > 0 {
      FactorialNotZero(n - 1);
      if Factorial(n) % P == 0 {
        Euclid(Factorial(n - 1), n);
      }
    }
  }

  lemma Fermat(a: int, n: nat)
    requires PIsPrime() && a % P != 0 && n == P - 1
    ensures Congruent(Pow(a, n), 1)
  {
    var f, x := Factorial(n), Pow(a, n);
    MultiplesDiffer(a, n);
    PermutedFactorial(Multiples(a, n), n);
    ProductOfMultiples(a, n);
    CongruentSum(x * f, f, f, f);
    assert x * f - f == (x - 1) * f;
    FactorialNotZero(n);
    Euclid(x - 1, f);
    CongruentSum(x - 1, 0, 1, 1);
  }
}
