/** An abelian group given by its operations, integer multiples in it, and linear combinations. Curve points in any of
    the source's four coordinate systems are elements; geAdd, geSub, Double and the conversions are the operations. */
module Groups {

  datatype Group<!T(!new)> = Group(zero: T, add: (T, T) -> T, neg: T -> T)

  // The laws, one instance at a time, so that a proof names the instances it uses.

  ghost predicate Associative<T(!new)>(g: Group<T>, a: T, b: T, c: T) {
    g.add(g.add(a, b), c) == g.add(a, g.add(b, c))
  }

  ghost predicate Commutative<T(!new)>(g: Group<T>, a: T, b: T) {
    g.add(a, b) == g.add(b, a)
  }

  ghost predicate Neutral<T(!new)>(g: Group<T>, a: T) {
    g.add(g.zero, a) == a && g.add(a, g.zero) == a
  }

  ghost predicate Inverse<T(!new)>(g: Group<T>, a: T) {
    g.add(a, g.neg(a)) == g.zero && g.add(g.neg(a), a) == g.zero
  }

  ghost predicate Abelian<T(!new)>(g: Group<T>) {
    && (forall a, b, c :: Associative(g, a, b, c))
    && (forall a, b :: Commutative(g, a, b))
    && (forall a :: Neutral(g, a))
    && (forall a :: Inverse(g, a))
  }

  /** n a, for any integer n. */
  function Mul<T(!new)>(g: Group<T>, n: int, a: T): T
    decreases if n < 0 then -n else n
  {
    if n == 0 then g.zero else if n > 0 then g.add(Mul(g, n - 1, a), a) else g.add(Mul(g, n + 1, a), g.neg(a))
  }

  lemma Interchange<T(!new)>(g: Group<T>, a: T, b: T, c: T, d: T)
    requires Abelian(g)
    ensures g.add(g.add(a, b), g.add(c, d)) == g.add(g.add(a, c), g.add(b, d))
  {
    assert Associative(g, a, b, g.add(c, d));
    assert Associative(g, b, c, d);
    assert Commutative(g, b, c);
    assert Associative(g, c, b, d);
    assert Associative(g, a, c, g.add(b, d));
  }

  lemma MulNext<T(!new)>(g: Group<T>, n: int, a: T)
    requires Abelian(g)
    ensures Mul(g, n + 1, a) == g.add(Mul(g, n, a), a)
  {
    if n < 0 {
      var m := Mul(g, n + 1, a);
      assert Associative(g, m, g.neg(a), a);
      assert Inverse(g, a) && Neutral(g, m);
    }
  }

  lemma MulPrevious<T(!new)>(g: Group<T>, n: int, a: T)
    requires Abelian(g)
    ensures Mul(g, n - 1, a) == g.add(Mul(g, n, a), g.neg(a))
  {
    if n > 0 {
      var m := Mul(g, n - 1, a);
      assert Associative(g, m, a, g.neg(a));
      assert Inverse(g, a) && Neutral(g, m);
    }
  }

  lemma {:induction false} MulSum<T(!new)>(g: Group<T>, m: int, n: int, a: T)
    requires Abelian(g)
    ensures Mul(g, m + n, a) == g.add(Mul(g, m, a), Mul(g, n, a))
    decreases if n < 0 then -n else n
  {
    if n == 0 {
      assert Neutral(g, Mul(g, m, a));
    } else if n > 0 {
      MulSum(g, m, n - 1, a);
      MulNext(g, m + n - 1, a);
      assert Associative(g, Mul(g, m, a), Mul(g, n - 1, a), a);
    } else {
      MulSum(g, m, n + 1, a);
      MulPrevious(g, m + n + 1, a);
      assert Associative(g, Mul(g, m, a), Mul(g, n + 1, a), g.neg(a));
    }
  }

  lemma MulOne<T(!new)>(g: Group<T>, a: T)
    requires Abelian(g)
    ensures Mul(g, 1, a) == a && Mul(g, 0, a) == g.zero && Mul(g, -1, a) == g.neg(a)
    ensures Mul(g, 2, a) == g.add(a, a)
  {
    assert Mul(g, 1, a) == g.add(Mul(g, 0, a), a) && Neutral(g, a);
    assert Mul(g, -1, a) == g.add(Mul(g, 0, a), g.neg(a)) && Neutral(g, g.neg(a));
    MulNext(g, 1, a);
  }

  lemma Cancel<T(!new)>(g: Group<T>, a: T, b: T)
    requires Abelian(g) && g.add(a, b) == g.zero
    ensures b == g.neg(a)
  {
    assert Associative(g, g.neg(a), a, b);
    assert Inverse(g, a) && Neutral(g, b) && Neutral(g, g.neg(a));
  }

  lemma MulNegated<T(!new)>(g: Group<T>, n: int, a: T)
    requires Abelian(g)
    ensures Mul(g, -n, a) == g.neg(Mul(g, n, a))
  {
    MulSum(g, n, -n, a);
    Cancel(g, Mul(g, n, a), Mul(g, -n, a));
  }

  lemma NextMultiple(m: int, n: int)
    ensures (m + 1) * n == m * n + n && (m - 1) * n == m * n - n
  {
  }

  lemma {:induction false} MulProduct<T(!new)>(g: Group<T>, m: int, n: int, a: T)
    requires Abelian(g)
    ensures Mul(g, m * n, a) == Mul(g, m, Mul(g, n, a))
    decreases if m < 0 then -m else m
  {
    if m > 0 {
      MulProduct(g, m - 1, n, a);
      NextMultiple(m, n);
      MulSum(g, (m - 1) * n, n, a);
    } else if m < 0 {
      MulProduct(g, m + 1, n, a);
      NextMultiple(m, n);
      MulSum(g, (m + 1) * n, -n, a);
      MulNegated(g, n, a);
    }
  }

  lemma NegOfSum<T(!new)>(g: Group<T>, a: T, b: T)
    requires Abelian(g)
    ensures g.neg(g.add(a, b)) == g.add(g.neg(a), g.neg(b))
  {
    Interchange(g, a, b, g.neg(a), g.neg(b));
    assert Inverse(g, a) && Inverse(g, b) && Neutral(g, g.zero);
    Cancel(g, g.add(a, b), g.add(g.neg(a), g.neg(b)));
  }

  lemma {:induction false} MulOfSum<T(!new)>(g: Group<T>, n: int, a: T, b: T)
    requires Abelian(g)
    ensures Mul(g, n, g.add(a, b)) == g.add(Mul(g, n, a), Mul(g, n, b))
    decreases if n < 0 then -n else n
  {
    if n == 0 {
      assert Neutral(g, g.zero);
    } else if n > 0 {
      MulOfSum(g, n - 1, a, b);
      Interchange(g, Mul(g, n - 1, a), Mul(g, n - 1, b), a, b);
    } else {
      MulOfSum(g, n + 1, a, b);
      NegOfSum(g, a, b);
      Interchange(g, Mul(g, n + 1, a), Mul(g, n + 1, b), g.neg(a), g.neg(b));
    }
  }

  lemma {:induction false} MulOfZero<T(!new)>(g: Group<T>, n: int)
    requires Abelian(g)
    ensures Mul(g, n, g.zero) == g.zero
    decreases if n < 0 then -n else n
  {
    assert Neutral(g, g.zero);
    if n > 0 {
      MulOfZero(g, n - 1);
    } else if n < 0 {
      MulOfZero(g, n + 1);
      Cancel(g, g.zero, g.zero);
    }
  }

  /** The sum of s_j p_j. */
  ghost function Combination<T(!new)>(g: Group<T>, s: seq<int>, p: seq<T>): T
    requires |s| <= |p|
    decreases |s|
  {
    if s == [] then g.zero
    else g.add(Combination(g, s[..|s| - 1], p), Mul(g, s[|s| - 1], p[|s| - 1]))
  }

  /** Shifting every coefficient up by a digit and adding a new lowest one: Horner's rule for combinations. */
  lemma {:induction false} CombinationHorner<T(!new)>(g: Group<T>, k: int, hi: seq<int>, lo: seq<int>, s: seq<int>,
    p: seq<T>)
    requires Abelian(g) && |hi| == |lo| == |s| <= |p|
    requires forall j :: 0 <= j < |s| ==> s[j] == lo[j] + k * hi[j]
    ensures Combination(g, s, p) == g.add(Mul(g, k, Combination(g, hi, p)), Combination(g, lo, p))
    decreases |s|
  {
    if s == [] {
      MulOfZero(g, k);
      assert Neutral(g, g.zero);
    } else {
      var n := |s| - 1;
      CombinationHorner(g, k, hi[..n], lo[..n], s[..n], p);
      var h, l := Combination(g, hi[..n], p), Combination(g, lo[..n], p);
      MulOfSum(g, k, h, Mul(g, hi[n], p[n]));
      MulProduct(g, k, hi[n], p[n]);
      MulSum(g, k * hi[n], lo[n], p[n]);
      Interchange(g, Mul(g, k, h), l, Mul(g, k * hi[n], p[n]), Mul(g, lo[n], p[n]));
    }
  }

  lemma {:induction false} CombinationOfZeros<T(!new)>(g: Group<T>, s: seq<int>, p: seq<T>)
    requires Abelian(g) && |s| <= |p| && forall j :: 0 <= j < |s| ==> s[j] == 0
    ensures Combination(g, s, p) == g.zero
    decreases |s|
  {
    if s != [] {
      CombinationOfZeros(g, s[..|s| - 1], p);
      assert Neutral(g, g.zero);
    }
  }
}
