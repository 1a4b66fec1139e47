/** Scalar multiplication (GeScalarMult, GeScalarMultBase, MultiScalarMultKey and
    GeDoubleScalarMultPrecompVartime2 of crypto/curve25519), over any abelian group. */
module ScalarMult {
  import opened Arith
  import opened Bytes
  import opened Groups
  import opened MachineInts
  import opened Options
  import opened Radix16
  import opened Recoding
  import opened ScalarBytes
  import opened ScalarLimbs
  import opened Scalars

  // ---- Selecting from a table without branching on the digit ----

  /** The top bit of the difference pattern less one: set only when the pattern is zero. */
  function Equal(b: bv32, c: bv32): bv32 {
    ((b ^ c) - 1) >> 31
  }

  lemma EqualTellsEquality(b: bv32, c: bv32)
    requires b < 0x8000_0000 && c < 0x8000_0000
    ensures Equal(b, c) == if b == c then 1 else 0
  {
    assert b ^ c < 0x8000_0000;
    assert b ^ c == 0 <==> b == c;
  }

  /** The multiples a, 2a, ..., 8a. */
  ghost predicate Multiples<T(!new)>(g: Group<T>, table: seq<T>, a: T) {
    |table| == 8 && forall k :: 0 <= k < 8 ==> table[k] == Mul(g, k + 1, a)
  }

  /** The table entry for |b|, negated for a negative digit; zero for zero. */
  method SelectPoint<T(!new)>(g: Group<T>, table: seq<T>, b: int8, ghost a: T) returns (cur: T)
    requires Abelian(g) && Multiples(g, table, a) && -8 <= b <= 8
    ensures cur == Mul(g, b as int, a)
  {
    var bNegative: int8 := if b < 0 then 1 else 0;
    var bAbs := b - (if bNegative == 1 then b else 0) * 2;
    cur := g.zero;
    for k := 0 to 8
      invariant cur == if 1 <= bAbs as int <= k then Mul(g, bAbs as int, a) else g.zero
    {
      EqualTellsEquality(bAbs as bv32, (k + 1) as bv32);
      if Equal(bAbs as bv32, (k + 1) as bv32) == 1 {
        cur := table[k];
      }
    }
    var minusCur := g.neg(cur);
    MulNegated(g, bAbs as int, a);
    if bNegative == 1 {
      cur := minusCur;
    }
  }

  // ---- One point ----

  method Double<T(!new)>(g: Group<T>, r: T, ghost n: int, ghost a: T) returns (t: T)
    requires Abelian(g) && r == Mul(g, n, a)
    ensures t == Mul(g, 2 * n, a)
  {
    MulSum(g, n, n, a);
    t := g.add(r, r);
  }

  /** Four doublings. */
  method Times16<T(!new)>(g: Group<T>, r: T, ghost n: int, ghost a: T) returns (t: T)
    requires Abelian(g) && r == Mul(g, n, a)
    ensures t == Mul(g, 16 * n, a)
  {
    t := Double(g, r, n, a);
    t := Double(g, t, 2 * n, a);
    t := Double(g, t, 4 * n, a);
    t := Double(g, t, 8 * n, a);
  }

  /** The multiples from a to 8 a (also PreComputeForMultiScalar). */
  method SmallMultiples<T(!new)>(g: Group<T>, a: T) returns (table: seq<T>)
    requires Abelian(g)
    ensures Multiples(g, table, a)
  {
    table := [a];
    MulOne(g, a);
    for i := 0 to 7
      invariant |table| == i + 1 && forall k :: 0 <= k <= i ==> table[k] == Mul(g, k + 1, a)
    {
      assert Commutative(g, a, table[i]);
      table := table + [g.add(a, table[i])];
    }
  }

  /** r = a A for a key with the top bit clear. */
  method GeScalarMult<T(!new)>(g: Group<T>, a: seq<byte>, A: T) returns (r: T)
    requires Abelian(g) && |a| == 32 && a[31] <= 127
    ensures r == Mul(g, LE(a), A)
  {
    var e := CarriedDigits(a);
    var table := SmallMultiples(g, A);
    r := g.zero;
    var i := 63;
    while i >= 0
      invariant -1 <= i <= 63
      invariant r == Mul(g, Val16(e, i + 1), A)
    {
      var u := Times16(g, r, Val16(e, i + 1), A);
      var cur := SelectPoint(g, table, e[i], A);
      MulSum(g, 16 * Val16(e, i + 1), e[i] as int, A);
      r := g.add(u, cur);
      i := i - 1;
    }
  }

  // ---- The base point ----

  ghost function EvenFrom(e: seq<int8>, k: nat): int
    decreases |e| - 2 * k
  {
    if 2 * k >= |e| then 0 else e[2 * k] as int + 256 * EvenFrom(e, k + 1)
  }

  ghost function OddFrom(e: seq<int8>, k: nat): int
    decreases |e| - 2 * k
  {
    if 2 * k + 1 >= |e| then 0 else e[2 * k + 1] as int + 256 * OddFrom(e, k + 1)
  }

  lemma {:induction false} EvenAndOdd(e: seq<int8>, k: nat)
    requires |e| == 64 && k <= 32
    ensures Val16(e, 2 * k) == EvenFrom(e, k) + 16 * OddFrom(e, k)
    decreases 32 - k
  {
    if k < 32 {
      EvenAndOdd(e, k + 1);
      assert Val16(e, 2 * k) == e[2 * k] as int + 16 * (e[2 * k + 1] as int + 16 * Val16(e, 2 * k + 2));
    }
  }

  /** The table of base point multiples: entry (p, i) is (i + 1) 256^p B. */
  ghost predicate BaseTable<T(!new)>(g: Group<T>, base: seq<seq<T>>, B: T) {
    |base| == 32 && forall p :: 0 <= p < 32 ==> Multiples(g, base[p], Mul(g, Pow256(p), B))
  }

  lemma AddDigit(s: int, d: int, p: int, rest: int, total: int)
    requires s + p * (d + 256 * rest) == total
    ensures (s + d * p) + (256 * p) * rest == total
  {
  }

  /** One term of the base point sum: digit d at position p. */
  method AddBaseMultiple<T(!new)>(g: Group<T>, h: T, base: seq<seq<T>>, p: nat, d: int8, ghost s: int, ghost B: T)
    returns (r: T)
    requires Abelian(g) && BaseTable(g, base, B) && p < 32 && -8 <= d <= 8 && h == Mul(g, s, B)
    ensures r == Mul(g, s + Times(d as int, Pow256(p)), B)
  {
    TimesIsProduct(d as int, Pow256(p));
    var t := SelectPoint(g, base[p], d, Mul(g, Pow256(p), B));
    MulProduct(g, d as int, Pow256(p), B);
    MulSum(g, s, d as int * Pow256(p), B);
    r := g.add(h, t);
  }

  /** The terms below position k, in the order the loops add them. */
  ghost function OddBelow(e: seq<int8>, k: nat): int
    requires 2 * k <= |e|
  {
    if k == 0 then 0 else OddBelow(e, k - 1) + Times(e[2 * k - 1] as int, Pow256(k - 1))
  }

  ghost function EvenBelow(e: seq<int8>, k: nat): int
    requires 2 * k <= |e|
  {
    if k == 0 then 0 else EvenBelow(e, k - 1) + Times(e[2 * k - 2] as int, Pow256(k - 1))
  }

  lemma {:induction false} OddSplit(e: seq<int8>, k: nat)
    requires |e| == 64 && k <= 32
    ensures OddBelow(e, k) + Pow256(k) * OddFrom(e, k) == OddFrom(e, 0)
  {
    if k > 0 {
      OddSplit(e, k - 1);
      assert OddFrom(e, k - 1) == e[2 * k - 1] as int + 0x100 * OddFrom(e, k);
      TimesIsProduct(e[2 * k - 1] as int, Pow256(k - 1));
      AddDigit(OddBelow(e, k - 1), e[2 * k - 1] as int, Pow256(k - 1), OddFrom(e, k), OddFrom(e, 0));
    }
  }

  lemma {:induction false} EvenSplit(e: seq<int8>, k: nat)
    requires |e| == 64 && k <= 32
    ensures EvenBelow(e, k) + Pow256(k) * EvenFrom(e, k) == EvenFrom(e, 0)
  {
    if k > 0 {
      EvenSplit(e, k - 1);
      assert EvenFrom(e, k - 1) == e[2 * k - 2] as int + 0x100 * EvenFrom(e, k);
      TimesIsProduct(e[2 * k - 2] as int, Pow256(k - 1));
      AddDigit(EvenBelow(e, k - 1), e[2 * k - 2] as int, Pow256(k - 1), EvenFrom(e, k), EvenFrom(e, 0));
    }
  }

  lemma Totals(e: seq<int8>, k: nat)
    requires |e| == 64 && k == 32
    ensures Val16(e, 0) == EvenBelow(e, k) + 16 * OddBelow(e, k)
  {
    OddSplit(e, k);
    EvenSplit(e, k);
    assert OddFrom(e, k) == 0 && EvenFrom(e, k) == 0;
    EvenAndOdd(e, 0);
  }

  /** One round over the odd digits. */
  method OddStep<T(!new)>(g: Group<T>, e: seq<int8>, base: seq<seq<T>>, i: nat, h: T, ghost k: nat, ghost B: T)
    returns (r: T)
    requires Abelian(g) && SignedDigits(e) && BaseTable(g, base, B)
    requires k < 32 && i == 2 * k + 1 && h == Mul(g, OddBelow(e, k), B)
    ensures r == Mul(g, OddBelow(e, k + 1), B)
  {
    Quotient(i, 2, k, 1);
    var p := i / 2;
    r := AddBaseMultiple(g, h, base, p, e[i], OddBelow(e, k), B);
  }

  /** The loop over the odd digits, from zero. */
  method SumOdd<T(!new)>(g: Group<T>, e: seq<int8>, base: seq<seq<T>>, ghost B: T) returns (h: T)
    requires Abelian(g) && SignedDigits(e) && BaseTable(g, base, B)
    ensures h == Mul(g, OddBelow(e, |e| / 2), B)
  {
    h := g.zero;
    ghost var k := 0;
    var i := 1;
    while i < 64
      invariant k <= 32 && i == 2 * k + 1
      invariant h == Mul(g, OddBelow(e, k), B)
    {
      h := OddStep(g, e, base, i, h, k, B);
      i, k := i + 2, k + 1;
    }
  }

  /** One round over the even digits. */
  method EvenStep<T(!new)>(g: Group<T>, e: seq<int8>, base: seq<seq<T>>, i: nat, h: T, ghost k: nat, ghost n: int,
      ghost B: T) returns (r: T)
    requires Abelian(g) && SignedDigits(e) && BaseTable(g, base, B)
    requires k < 32 && i == 2 * k && h == Mul(g, n + EvenBelow(e, k), B)
    ensures r == Mul(g, n + EvenBelow(e, k + 1), B)
  {
    Quotient(i, 2, k, 0);
    var p := i / 2;
    r := AddBaseMultiple(g, h, base, p, e[i], n + EvenBelow(e, k), B);
  }

  /** The loop over the even digits, from a multiple n B. */
  method SumEven<T(!new)>(g: Group<T>, e: seq<int8>, base: seq<seq<T>>, start: T, ghost n: int,
    ghost B: T) returns (h: T)
    requires Abelian(g) && SignedDigits(e) && BaseTable(g, base, B) && start == Mul(g, n, B)
    ensures h == Mul(g, n + EvenBelow(e, |e| / 2), B)
  {
    h := start;
    ghost var k := 0;
    var i := 0;
    while i < 64
      invariant k <= 32 && i == 2 * k
      invariant h == Mul(g, n + EvenBelow(e, k), B)
    {
      h := EvenStep(g, e, base, i, h, k, n, B);
      i, k := i + 2, k + 1;
    }
  }

  /** h = a B: odd digits first, times sixteen, then even digits. */
  method GeScalarMultBase<T(!new)>(g: Group<T>, a: seq<byte>, base: seq<seq<T>>, ghost B: T) returns (h: T)
    requires Abelian(g) && |a| == 32 && a[31] <= 127 && BaseTable(g, base, B)
    ensures h == Mul(g, LE(a), B)
  {
    var e := CarriedDigits(a);
    h := SumOdd(g, e, base, B);
    h := Times16(g, h, OddBelow(e, |e| / 2), B);
    h := SumEven(g, e, base, h, 16 * OddBelow(e, |e| / 2), B);
    Totals(e, |e| / 2);
  }

  /** The keys that points are given and returned as: decoding may fail. */
  datatype Codec<!T(!new)> = Codec(decode: seq<byte> -> Option<T>, encode: T -> seq<byte>)

  /** A number below the group order is far below 2^255. */
  lemma ReducedTopByte(a: seq<byte>)
    requires |a| == 32 && LE(a) < ELL
    ensures a[31] <= 127
  {
    Weights();
    Pow256Sum(21, 7);
    Pow256Sum(28, 3);
    PartSplit(a, 0, 31, 1);
    Part1(a, 31);
    PartBound(a, 0, 31);
    SmallFactor(Part(a, 0, 31), Pow256(31), a[31] as int);
  }

  lemma SmallFactor(low: int, p: int, t: int)
    requires p >= 1 && low >= 0 && low + p * t < 128 * p
    ensures t <= 127
  {
    MultipleIsFar(p, t - 127);
    assert p * (t - 127) == p * t - 127 * p;
  }

  /** The key of a B for any 32-byte scalar: the scalar is reduced first, in the caller's memory. */
  method ScalarmultBase<T(!new)>(g: Group<T>, codec: Codec<T>, a: array<byte>, base: seq<seq<T>>, ghost B: T)
    returns (aG: seq<byte>)
    requires Abelian(g) && a.Length == 32 && BaseTable(g, base, B)
    modifies a
    ensures LE(a[..]) == old(LE(a[..])) % ELL
    ensures aG == codec.encode(Mul(g, old(LE(a[..])) % ELL, B))
  {
    ScReduce32(a);
    ReducedTopByte(a[..]);
    var point := GeScalarMultBase(g, a[..], base, B);
    aG := codec.encode(point);
  }

  // ---- Many points ----

  ghost function Numbers(scalars: seq<seq<byte>>): (s: seq<int>)
    ensures |s| == |scalars| && forall j :: 0 <= j < |s| ==> s[j] == LE(scalars[j])
  {
    seq(|scalars|, j requires 0 <= j < |scalars| => LE(scalars[j]))
  }

  /** Digit i of every scalar. */
  ghost function Column(digits: seq<seq<int8>>, i: nat): (s: seq<int>)
    requires i < 64 && forall j :: 0 <= j < |digits| ==> |digits[j]| == 64
    ensures |s| == |digits| && forall j :: 0 <= j < |s| ==> s[j] == digits[j][i] as int
  {
    seq(|digits|, j requires 0 <= j < |digits| => digits[j][i] as int)
  }

  /** What digits i and up of every scalar stand for. */
  ghost function Tails(digits: seq<seq<int8>>, i: nat): (s: seq<int>)
    ensures |s| == |digits| && forall j :: 0 <= j < |s| ==> s[j] == Val16(digits[j], i)
  {
    seq(|digits|, j requires 0 <= j < |digits| => Val16(digits[j], i))
  }

  /** One round: the sum of every point times its digit i. */
  method SumColumn<T(!new)>(g: Group<T>, tables: seq<seq<T>>, digits: seq<seq<int8>>, i: nat, ghost points: seq<T>)
    returns (sum: T)
    requires Abelian(g) && |digits| <= |tables| && |digits| <= |points| && i < 64
    requires forall j :: 0 <= j < |digits| ==> |digits[j]| == 64
    requires forall j :: 0 <= j < |digits| ==> SignedDigits(digits[j])
    requires forall j :: 0 <= j < |digits| ==> Multiples(g, tables[j], points[j])
    ensures sum == Combination(g, Column(digits, i), points)
  {
    sum := g.zero;
    ghost var s := Column(digits, i);
    for j := 0 to |digits|
      invariant sum == Combination(g, s[..j], points)
    {
      var cur := SelectPoint(g, tables[j], digits[j][i], points[j]);
      assert s[..j + 1][..j] == s[..j];
      sum := g.add(sum, cur);
    }
    assert s[..|digits|] == s;
  }

  /** The digits of every scalar. */
  method AllDigits(scalars: seq<seq<byte>>) returns (digits: seq<seq<int8>>)
    requires forall j :: 0 <= j < |scalars| ==> |scalars[j]| == 32 && scalars[j][31] <= 127
    ensures |digits| == |scalars| && forall j :: 0 <= j < |digits| ==> |digits[j]| == 64
    ensures forall j :: 0 <= j < |digits| ==> SignedDigits(digits[j]) && Val16(digits[j], 0) == LE(scalars[j])
  {
    digits := [];
    for j := 0 to |scalars|
      invariant |digits| == j
      invariant forall k :: 0 <= k < j ==> |digits[k]| == 64
      invariant forall k :: 0 <= k < j ==> SignedDigits(digits[k]) && Val16(digits[k], 0) == LE(scalars[k])
    {
      var e := SignedRadix16(scalars[j]);
      digits := digits + [e];
    }
  }

  /** The loop shared by MultiScalarMultKey and MultiScalarMultKeyCached. */
  method SumOfMultiples<T(!new)>(g: Group<T>, tables: seq<seq<T>>, scalars: seq<seq<byte>>,
    ghost points: seq<T>)
    returns (r: T)
    requires Abelian(g) && |scalars| <= |tables| && |scalars| <= |points|
    requires forall j :: 0 <= j < |scalars| ==> |scalars[j]| == 32 && scalars[j][31] <= 127
    requires forall j :: 0 <= j < |scalars| ==> Multiples(g, tables[j], points[j])
    ensures r == Combination(g, Numbers(scalars), points)
  {
    var digits := AllDigits(scalars);
    r := g.zero;
    CombinationOfZeros(g, Tails(digits, 64), points);
    var i := 63;
    while i >= 0
      invariant -1 <= i <= 63
      invariant r == Combination(g, Tails(digits, i + 1), points)
    {
      MulOne(g, r);
      var u := Times16(g, r, 1, r);
      var sum := SumColumn(g, tables, digits, i, points);
      CombinationHorner(g, 16, Tails(digits, i + 1), Column(digits, i), Tails(digits, i), points);
      r := g.add(u, sum);
      i := i - 1;
    }
    assert Tails(digits, 0) == Numbers(scalars);
  }

  /** The key of the sum of s_j P_j from the tables of the points. */
  method MultiScalarMultKeyCached<T(!new)>(g: Group<T>, codec: Codec<T>, tables: seq<seq<T>>, scalars: seq<seq<byte>>,
    ghost points: seq<T>)
    returns (result: seq<byte>)
    requires Abelian(g) && |scalars| <= |tables| && |scalars| <= |points|
    requires forall j :: 0 <= j < |scalars| ==> |scalars[j]| == 32 && scalars[j][31] <= 127
    requires forall j :: 0 <= j < |scalars| ==> Multiples(g, tables[j], points[j])
    ensures result == codec.encode(Combination(g, Numbers(scalars), points))
  {
    var r := SumOfMultiples(g, tables, scalars, points);
    result := codec.encode(r);
  }

  /** The first n keys decode to these points. */
  ghost predicate DecodeTo<T(!new)>(codec: Codec<T>, keys: seq<seq<byte>>, n: nat, points: seq<T>)
    requires n <= |keys|
  {
    |points| == n && forall j :: 0 <= j < n ==> codec.decode(keys[j]) == Some(points[j])
  }

  /** The key of the sum of s_j P_j for any number of keys and scalars with top byte at most 127. The source does not
      look at whether a key decodes; what it makes of one that does not is left open. */
  method MultiScalarMultKey<T(!new)>(g: Group<T>, codec: Codec<T>, keys: seq<seq<byte>>, scalars: seq<seq<byte>>)
    returns (result: seq<byte>)
    requires Abelian(g) && |scalars| <= |keys|
    requires forall j :: 0 <= j < |scalars| ==> |scalars[j]| == 32 && scalars[j][31] <= 127
    ensures forall points :: DecodeTo(codec, keys, |scalars|, points) ==>
                             result == codec.encode(Combination(g, Numbers(scalars), points))
  {
    var tables: seq<seq<T>> := [];
    var decoded: seq<T> := [];
    for j := 0 to |scalars|
      invariant |tables| == j && |decoded| == j
      invariant forall k :: 0 <= k < j ==> Multiples(g, tables[k], decoded[k])
      invariant forall k :: 0 <= k < j && codec.decode(keys[k]).Some? ==> codec.decode(keys[k]).value == decoded[k]
    {
      var p := codec.decode(keys[j]);
      var point := if p.Some? then p.value else g.zero;
      var table := SmallMultiples(g, point);
      tables, decoded := tables + [table], decoded + [point];
    }
    result := MultiScalarMultKeyCached(g, codec, tables, scalars, decoded);
    forall points | DecodeTo(codec, keys, |scalars|, points)
      ensures points == decoded
    {
      assert forall j :: 0 <= j < |points| ==> codec.decode(keys[j]) == Some(points[j]);
    }
  }

  // ---- Two points with sliding windows ----

  /** The odd multiples a, 3a, ..., 15a. */
  ghost predicate OddMultiples<T(!new)>(g: Group<T>, table: seq<T>, a: T) {
    |table| == 8 && forall k :: 0 <= k < 8 ==> table[k] == Mul(g, 2 * k + 1, a)
  }

  method GePrecompute<T(!new)>(g: Group<T>, a: T) returns (table: seq<T>)
    requires Abelian(g)
    ensures OddMultiples(g, table, a)
  {
    MulOne(g, a);
    table := [a];
    var s2 := g.add(a, a);
    for i := 0 to 7
      invariant |table| == i + 1 && forall k :: 0 <= k <= i ==> table[k] == Mul(g, 2 * k + 1, a)
    {
      MulSum(g, 2, 2 * i + 1, a);
      table := table + [g.add(s2, table[i])];
    }
  }

  /** Adds digit d of a scalar, zero or odd, from the table of odd multiples. */
  method AddWindow<T(!new)>(g: Group<T>, t: T, table: seq<T>, d: int8, ghost a: T) returns (r: T)
    requires Abelian(g) && OddMultiples(g, table, a) && WindowDigit(d)
    ensures r == g.add(t, Mul(g, d as int, a))
  {
    r := t;
    if d > 0 {
      r := g.add(t, table[d / 2]);
    } else if d < 0 {
      MulNegated(g, -d as int, a);
      r := g.add(t, g.neg(table[(-d) / 2]));
    } else {
      assert Neutral(g, t);
    }
  }

  lemma {:induction false} NothingAbove(r: seq<int8>, i: nat)
    requires forall k :: i <= k < |r| ==> r[k] == 0
    ensures Val2(r, i) == 0
    decreases |r| - i
  {
    if i < |r| {
      NothingAbove(r, i + 1);
    }
  }

  lemma DoubledSum<T(!new)>(g: Group<T>, x: T, y: T, m: int, n: int, c: int, d: int, a: T, b: T)
    requires Abelian(g) && x == Mul(g, m, a) && y == Mul(g, n, b)
    ensures g.add(g.add(g.add(g.add(x, y), g.add(x, y)), Mul(g, c, a)), Mul(g, d, b))
         == g.add(Mul(g, c + 2 * m, a), Mul(g, d + 2 * n, b))
  {
    Interchange(g, x, y, x, y);
    MulSum(g, m, m, a);
    MulSum(g, n, n, b);
    var p, q, u, v := Mul(g, 2 * m, a), Mul(g, 2 * n, b), Mul(g, c, a), Mul(g, d, b);
    assert Associative(g, g.add(p, q), u, v);
    Interchange(g, p, q, u, v);
    MulSum(g, 2 * m, c, a);
    MulSum(g, 2 * n, d, b);
  }

  /** The topmost position where a digit is not zero, or -1. */
  method TopDigit(d: seq<int8>, e: seq<int8>) returns (i: int)
    requires |d| == 256 && |e| == 256
    ensures -1 <= i < 256 && Val2(d, i + 1) == 0 && Val2(e, i + 1) == 0
    ensures i >= 0 ==> d[i] != 0 || e[i] != 0
  {
    i := 255;
    while i >= 0
      invariant -1 <= i <= 255
      invariant forall k :: i < k < 256 ==> d[k] == 0
      invariant forall k :: i < k < 256 ==> e[k] == 0
    {
      if d[i] != 0 || e[i] != 0 {
        break;
      }
      i := i - 1;
    }
    NothingAbove(d, i + 1);
    NothingAbove(e, i + 1);
  }

  /** The descending loop: double, then add the two window digits. */
  method SumWindows<T(!new)>(g: Group<T>, d: seq<int8>, Ai: seq<T>, e: seq<int8>, Bi: seq<T>, ghost A: T, ghost B: T)
    returns (r: T)
    requires Abelian(g) && OddMultiples(g, Ai, A) && OddMultiples(g, Bi, B) && |d| == 256 && |e| == 256
    requires forall k :: 0 <= k < 256 ==> WindowDigit(d[k])
    requires forall k :: 0 <= k < 256 ==> WindowDigit(e[k])
    ensures r == g.add(Mul(g, Val2(d, 0), A), Mul(g, Val2(e, 0), B))
  {
    r := g.zero;
    assert Neutral(g, g.zero);
    var i := TopDigit(d, e);
    while i >= 0
      invariant -1 <= i <= 255
      invariant r == g.add(Mul(g, Val2(d, i + 1), A), Mul(g, Val2(e, i + 1), B))
    {
      DoubledSum(g, Mul(g, Val2(d, i + 1), A), Mul(g, Val2(e, i + 1), B), Val2(d, i + 1), Val2(e, i + 1),
        d[i] as int, e[i] as int, A, B);
      var t := g.add(r, r);
      t := AddWindow(g, t, Ai, d[i], A);
      r := AddWindow(g, t, Bi, e[i], B);
      i := i - 1;
    }
  }

  /** r = a A + b B from the odd multiples of A and of B; a scalar that loses a carry counts as 2^256 less. */
  method GeDoubleScalarMultPrecompVartime2<T(!new)>(g: Group<T>, a: seq<byte>, Ai: seq<T>, b: seq<byte>, Bi: seq<T>,
      ghost A: T, ghost B: T) returns (r: T)
    requires Abelian(g) && OddMultiples(g, Ai, A) && OddMultiples(g, Bi, B) && |a| == 32 && |b| == 32
    ensures r == g.add(Mul(g, SlideValue(a), A), Mul(g, SlideValue(b), B))
    ensures !CarryLost(a) && !CarryLost(b) ==> r == g.add(Mul(g, LE(a), A), Mul(g, LE(b), B))
  {
    var aSlide, bSlide := new int8[256], new int8[256];
    Slide(aSlide, a);
    Slide(bSlide, b);
    r := SumWindows(g, aSlide[..], Ai, bSlide[..], Bi, A, B);
  }

  /** The same, building the table for A first. */
  method GeDoubleScalarMultPrecompVartime<T(!new)>(g: Group<T>, a: seq<byte>, A: T, b: seq<byte>, Bi: seq<T>,
    ghost B: T)
    returns (r: T)
    requires Abelian(g) && OddMultiples(g, Bi, B) && |a| == 32 && |b| == 32
    ensures r == g.add(Mul(g, SlideValue(a), A), Mul(g, SlideValue(b), B))
    ensures !CarryLost(a) && !CarryLost(b) ==> r == g.add(Mul(g, LE(a), A), Mul(g, LE(b), B))
  {
    var Ai := GePrecompute(g, A);
    r := GeDoubleScalarMultPrecompVartime2(g, a, Ai, b, Bi, A, B);
  }
}
