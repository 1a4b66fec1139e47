/** Why the decoder of crypto/curve25519/edwards_25519_group.go finds the x coordinate: with u = y^2 - 1 and
    v = d y^2 + 1, the candidate u v^3 (u v^7)^((P - 5) / 8) or its product with a square root of -1 solves
    v x^2 = u whenever anything does (section 5.1.3 of RFC 8032). */
module CurveRoot {
  import opened PrimeField
  import opened Residues

  ghost function Cube(v: int): int {
    (v * v) * v
  }

  /** u v^7, as the source computes it. */
  ghost function Seventh(u: int, v: int): int {
    ((Cube(v) * Cube(v)) * v) * u
  }

  const E: nat := (P - 5) / 8

  ghost function Candidate(u: int, v: int): int {
    (Pow(Seventh(u, v), E) * Cube(v)) * u
  }

  lemma SeventhIsSquare(v: int, x: int, w: int)
    requires w == ((v * v) * (v * v)) * x
    ensures ((Cube(v) * Cube(v)) * v) * (v * (x * x)) == w * w
  {
  }

  /** If v x^2 = u then u v^7 is the square of w = v^4 x, and its power is a power of w. */
  lemma PowerOfSquare(u: int, v: int, x: int, w: int)
    requires Congruent(v * (x * x), u) && w == ((v * v) * (v * v)) * x
    ensures Congruent(Pow(Seventh(u, v), E), Pow(w, 2 * E))
  {
    var c := (Cube(v) * Cube(v)) * v;
    CongruentProduct(c, c, u, v * (x * x));
    SeventhIsSquare(v, x, w);
    PowCongruent(Seventh(u, v), w * w, E);
    assert Pow(w, 2) == w * Pow(w, 1) && Pow(w, 1) == w * Pow(w, 0);
    PowProduct(w, 2, E);
  }

  lemma RegroupSquare(p: int, v: int, x: int, w: int)
    requires w == ((v * v) * (v * v)) * x
    ensures (((p * Cube(v)) * (v * (x * x))) * ((p * Cube(v)) * (v * (x * x)))) * v
      == ((p * p) * (w * w)) * (v * (x * x))
  {
    var c, y := Cube(v), x * x;
    assert c * v == (v * v) * (v * v);
    assert (p * c) * (v * y) == p * ((c * v) * y);
    var g := (c * v) * y;
    assert g == w * x;
    assert (p * g) * (p * g) == (p * p) * (g * g);
    assert g * g == (w * w) * y;
    assert ((p * p) * ((w * w) * y)) * v == ((p * p) * (w * w)) * (v * y);
  }

  /** Then the candidate r satisfies v r^2 = s u with s = w^((P - 1) / 2). */
  lemma CandidateSquared(u: int, v: int, x: int, w: int)
    requires Congruent(v * (x * x), u) && w == ((v * v) * (v * v)) * x
    ensures Congruent((Candidate(u, v) * Candidate(u, v)) * v, Pow(w, 4 * E + 2) * u)
  {
    var q, p, c, r := Pow(Seventh(u, v), E), Pow(w, 2 * E), Cube(v), Candidate(u, v);
    var t := (p * c) * (v * (x * x));
    PowerOfSquare(u, v, x, w);
    CongruentProduct(q, p, c, c);
    CongruentProduct(q * c, p * c, u, v * (x * x));
    CongruentProduct(r, t, r, t);
    CongruentProduct(r * r, t * t, v, v);
    RegroupSquare(p, v, x, w);
    PowSum(w, 2 * E, 2 * E);
    assert Pow(w, 2) == w * Pow(w, 1) && Pow(w, 1) == w * Pow(w, 0);
    PowSum(w, 4 * E, 2);
    CongruentProduct(Pow(w, 4 * E + 2), Pow(w, 4 * E + 2), v * (x * x), u);
  }

  lemma SignOfRoot(s: int)
    requires PIsPrime() && Congruent(s * s, 1)
    ensures Congruent(s, 1) || Congruent(s, -1)
  {
    CongruentSum(s * s, 1, 1, 1);
    assert (s - 1) * (s + 1) == s * s - 1;
    Euclid(s - 1, s + 1);
    if (s - 1) % P == 0 {
      CongruentSum(s - 1, 0, 1, 1);
    } else {
      assert (s + 1) % P == 0;
      CongruentSum(s + 1, 0, 1, 1);
    }
  }

  lemma NonZeroProduct(a: int, b: int)
    requires PIsPrime() && a % P != 0 && b % P != 0
    ensures (a * b) % P != 0
  {
    if (a * b) % P == 0 {
      Euclid(a, b);
    }
  }

  lemma ZeroFactor(a: int, b: int)
    requires a % P == 0
    ensures Congruent(a * b, 0) && Congruent(b * a, 0)
  {
    CongruentProduct(a, 0, b, b);
  }

  /** Whenever v x^2 = u has a solution, the candidate is a root of u / v or of -u / v. */
  lemma RootFound(u: int, v: int, x: int)
    requires PIsPrime() && v % P != 0 && Congruent(v * (x * x), u)
    ensures Congruent((Candidate(u, v) * Candidate(u, v)) * v, u)
      || Congruent((Candidate(u, v) * Candidate(u, v)) * v, -u)
  {
    var w := ((v * v) * (v * v)) * x;
    CandidateSquared(u, v, x, w);
    var s := Pow(w, 4 * E + 2);
    if x % P == 0 {
      ZeroFactor(x, x);
      ZeroFactor(x * x, v);
      ZeroFactor(u, s);
    } else {
      NonZeroProduct(v, v);
      NonZeroProduct(v * v, v * v);
      NonZeroProduct((v * v) * (v * v), x);
      PowSum(w, 4 * E + 2, 4 * E + 2);
      assert 8 * E + 4 == P - 1;
      Fermat(w, 8 * E + 4);
      SignOfRoot(s);
      if Congruent(s, 1) {
        CongruentProduct(s, 1, u, u);
      } else {
        CongruentProduct(s, -1, u, u);
      }
    }
  }
}
