/** Positional numbers, most significant digit first, and the strings of digits that determine each other. */
module Digits {
  import opened Arith
  import opened Bytes
  import opened Residues

  /** The number the digits spell in the base. */
  function N(base: nat, s: seq<byte>): int {
    if s == [] then 0 else base * N(base, s[..|s| - 1]) + s[|s| - 1] as int
  }

  ghost predicate Proper(base: nat, s: seq<byte>) {
    forall i :: 0 <= i < |s| ==> (s[i] as int) < base
  }

  lemma {:induction false} PowPositive(b: nat, n: nat)
    requires b >= 1
    ensures Pow(b, n) >= 1
    decreases n
  {
    if n > 0 {
      PowPositive(b, n - 1);
      Monotone(b, 1, Pow(b, n - 1));
    }
  }

  lemma SplitStep(base: int, x: int, p: int, y: int, d: int)
    ensures base * (x * p + y) + d == x * (base * p) + (base * y + d)
  {
    assert base * (x * p + y) == base * (x * p) + base * y;
    assert base * (x * p) == x * (base * p);
  }

  lemma {:induction false} SplitNumber(base: nat, s: seq<byte>, t: seq<byte>)
    ensures N(base, s + t) == N(base, s) * Pow(base, |t|) + N(base, t)
    decreases |t|
  {
    if t == [] {
      assert s + t == s;
    } else {
      var u := t[..|t| - 1];
      assert (s + t)[..|s + t| - 1] == s + u;
      SplitNumber(base, s, u);
      SplitStep(base, N(base, s), Pow(base, |u|), N(base, u), t[|t| - 1] as int);
    }
  }

  lemma {:induction false} NumberBound(base: nat, s: seq<byte>)
    requires base >= 1 && Proper(base, s)
    ensures 0 <= N(base, s) < Pow(base, |s|)
    decreases |s|
  {
    if s != [] {
      NumberBound(base, s[..|s| - 1]);
      Monotone(base, N(base, s[..|s| - 1]) + 1, Pow(base, |s| - 1));
      assert base * (N(base, s[..|s| - 1]) + 1) == base * N(base, s[..|s| - 1]) + base;
      Monotone(base, 0, N(base, s[..|s| - 1]));
    }
  }

  lemma {:induction false} ZerosSpellZero(base: nat, s: seq<byte>)
    requires forall i :: 0 <= i < |s| ==> s[i] == 0
    ensures N(base, s) == 0
    decreases |s|
  {
    if s != [] {
      ZerosSpellZero(base, s[..|s| - 1]);
    }
  }

  /** Leading zeros. */
  ghost function Z(s: seq<byte>): (z: nat)
    ensures z <= |s| && (forall i :: 0 <= i < z ==> s[i] == 0) && (z < |s| ==> s[z] != 0)
  {
    if s == [] || s[0] != 0 then 0 else
      assert forall i :: 1 <= i < |s| ==> s[i] == s[1..][i - 1];
      1 + Z(s[1..])
  }

  lemma ZeroCount(s: seq<byte>, z: nat)
    requires z <= |s| && (forall i :: 0 <= i < z ==> s[i] == 0) && (z < |s| ==> s[z] != 0)
    ensures Z(s) == z
  {
  }

  lemma {:induction false} DropZeros(base: nat, s: seq<byte>, z: nat)
    requires z <= |s| && forall i :: 0 <= i < z ==> s[i] == 0
    ensures N(base, s) == N(base, s[z..])
  {
    assert s == s[..z] + s[z..];
    SplitNumber(base, s[..z], s[z..]);
    ZerosSpellZero(base, s[..z]);
  }

  /** A list that starts with a digit that is not zero is at least a power of the base. */
  lemma LeadingDigit(base: nat, s: seq<byte>)
    requires base >= 1 && Proper(base, s) && |s| >= 1 && s[0] != 0
    ensures N(base, s) >= Pow(base, |s| - 1)
  {
    assert s == s[..1] + s[1..];
    SplitNumber(base, s[..1], s[1..]);
    NumberBound(base, s[1..]);
    assert N(base, s[..1]) == base * N(base, s[..1][..0]) + s[0] as int;
    PowPositive(base, |s| - 1);
    Monotone(Pow(base, |s| - 1), 1, s[0] as int);
    assert N(base, s[..1]) == s[0] as int;
  }

  lemma {:induction false} PowMonotone(base: nat, m: nat, n: nat)
    requires base >= 1 && m <= n
    ensures Pow(base, m) <= Pow(base, n)
    decreases n
  {
    if m < n {
      PowMonotone(base, m, n - 1);
      PowPositive(base, n - 1);
      Monotone(Pow(base, n - 1), 1, base);
    }
  }

  lemma {:induction false} EqualLengthUnique(base: nat, s: seq<byte>, t: seq<byte>)
    requires base >= 1 && Proper(base, s) && Proper(base, t) && |s| == |t| && N(base, s) == N(base, t)
    ensures s == t
    decreases |s|
  {
    if s != [] {
      var n := |s| - 1;
      Quotient(N(base, s), base, N(base, s[..n]), s[n] as int);
      Quotient(N(base, t), base, N(base, t[..n]), t[n] as int);
      EqualLengthUnique(base, s[..n], t[..n]);
      assert s == s[..n] + [s[n]] && t == t[..n] + [t[n]];
    }
  }

  lemma NoShorter(base: nat, s: seq<byte>, t: seq<byte>)
    requires base >= 2 && Proper(base, s) && Proper(base, t) && N(base, s) == N(base, t)
    requires |t| >= 1 && t[0] != 0
    ensures |s| >= |t|
  {
    LeadingDigit(base, t);
    NumberBound(base, s);
    if |s| < |t| {
      PowMonotone(base, |s|, |t| - 1);
    }
  }

  lemma NonZeroNumber(base: nat, s: seq<byte>)
    requires base >= 1 && Proper(base, s) && |s| >= 1 && s[0] != 0
    ensures N(base, s) >= 1
  {
    LeadingDigit(base, s);
    PowPositive(base, |s| - 1);
  }

  lemma UniqueWithoutZeros(base: nat, u: seq<byte>, v: seq<byte>)
    requires base >= 2 && Proper(base, u) && Proper(base, v) && N(base, u) == N(base, v)
    requires (u != [] ==> u[0] != 0) && (v != [] ==> v[0] != 0)
    ensures u == v
  {
    if u != [] {
      NoShorter(base, v, u);
      NonZeroNumber(base, u);
    }
    if v != [] {
      NoShorter(base, u, v);
      NonZeroNumber(base, v);
    }
    EqualLengthUnique(base, u, v);
  }

  /** As many leading zeros and the same number make the same digits. */
  lemma DigitsUnique(base: nat, s: seq<byte>, t: seq<byte>)
    requires base >= 2 && Proper(base, s) && Proper(base, t) && Z(s) == Z(t) && N(base, s) == N(base, t)
    ensures s == t
  {
    var z := Z(s);
    DropZeros(base, s, z);
    DropZeros(base, t, z);
    assert Proper(base, s[z..]) && Proper(base, t[z..]);
    UniqueWithoutZeros(base, s[z..], t[z..]);
    SameParts(s, t, z);
  }

  lemma SameParts(s: seq<byte>, t: seq<byte>, z: nat)
    requires z <= |s| && z <= |t| && s[z..] == t[z..]
    requires forall i :: 0 <= i < z ==> s[i] == t[i]
    ensures s == t
  {
    assert s == s[..z] + s[z..] && t == t[..z] + t[z..] && s[..z] == t[..z];
  }
}
