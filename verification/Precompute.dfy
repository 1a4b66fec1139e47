/** Tables of multiples and the loops that use them (crypto/curve25519/precompute.go), over any abelian group. */
module Precompute {
  import opened Arith
  import opened Bytes
  import opened Groups
  import opened MachineInts
  import opened Recoding
  import opened ScalarMult
  import ScalarKeys

  // ---- Powers of two ----

  /** Entry i is 2^i a. */
  ghost predicate PowerTable<T(!new)>(g: Group<T>, table: seq<T>, a: T) {
    |table| == 256 && PowersUpTo(g, table, a)
  }

  method GenPrecompute<T(!new)>(g: Group<T>, table: array<T>, a: T)
    requires Abelian(g) && table.Length == 256
    modifies table
    ensures PowerTable(g, table[..], a)
  {
    MulOne(g, a);
    table[0] := a;
    var t := a;
    for i := 1 to 256
      invariant t == Mul(g, Pow2(i - 1), a)
      invariant PowersUpTo(g, table[..i], a)
    {
      ghost var before := table[..i];
      t := NextPower(g, t, i, a);
      table[i] := t;
      assert table[..i] == before && table[..i + 1] == before + [t];
    }
    assert table[..256] == table[..];
  }

  /** The first entries of a power table. */
  ghost predicate PowersUpTo<T(!new)>(g: Group<T>, s: seq<T>, a: T) {
    forall k :: 0 <= k < |s| ==> s[k] == Mul(g, Pow2(k), a)
  }

  method NextPower<T(!new)>(g: Group<T>, t: T, i: nat, ghost a: T) returns (r: T)
    requires Abelian(g) && i >= 1 && t == Mul(g, Pow2(i - 1), a)
    ensures r == Mul(g, Pow2(i), a)
  {
    r := Double(g, t, Pow2(i - 1), a);
  }

  /** The number the bits below i stand for. */
  ghost function BitsBelow(s: seq<byte>, i: nat): int
    requires i <= 8 * |s|
  {
    if i == 0 then 0 else BitsBelow(s, i - 1) + Times(Bit(s, i - 1) as int, Pow2(i - 1))
  }

  lemma AddBit(s: int, d: int, p: int, rest: int, total: int)
    requires s + p * (d + 2 * rest) == total
    ensures (s + d * p) + (2 * p) * rest == total
  {
  }

  lemma {:induction false} BitsBelowAndAbove(s: seq<byte>, i: nat)
    requires i <= 8 * |s|
    ensures BitsBelow(s, i) + Pow2(i) * Val2(KeyBits(s), i) == Val2(KeyBits(s), 0)
  {
    if i > 0 {
      BitsBelowAndAbove(s, i - 1);
      TimesIsProduct(Bit(s, i - 1) as int, Pow2(i - 1));
      AddBit(BitsBelow(s, i - 1), Bit(s, i - 1) as int, Pow2(i - 1), Val2(KeyBits(s), i), Val2(KeyBits(s), 0));
    }
  }

  lemma BitsBelowSpellKey(s: seq<byte>, n: nat)
    requires n == 8 * |s|
    ensures BitsBelow(s, n) == LE(s)
  {
    BitsBelowAndAbove(s, n);
    BitsSpellKey(KeyBits(s), s, 0);
    assert Val2(KeyBits(s), n) == 0;
  }

  /** The sum of the table entries at the set bits is s a, for every 256-bit s. */
  method ScalarMultPrecompute<T(!new)>(g: Group<T>, s: seq<byte>, table: seq<T>, ghost a: T) returns (output: T)
    requires Abelian(g) && |s| == 32 && PowerTable(g, table, a)
    ensures output == Mul(g, LE(s), a)
  {
    output := g.zero;
    for i := 0 to 256
      invariant output == Mul(g, BitsBelow(s, i), a)
    {
      output := AddBitEntry(g, s, table, output, i, a);
    }
    BitsBelowSpellKey(s, 256);
  }

  method AddBitEntry<T(!new)>(g: Group<T>, s: seq<byte>, table: seq<T>, output: T, i: nat, ghost a: T) returns (r: T)
    requires Abelian(g) && |s| == 32 && PowerTable(g, table, a) && i < 256 && output == Mul(g, BitsBelow(s, i), a)
    ensures r == Mul(g, BitsBelow(s, i + 1), a)
  {
    r := output;
    TimesIsProduct(Bit(s, i) as int, Pow2(i));
    if Bit(s, i) == 1 {
      MulSum(g, BitsBelow(s, i), Pow2(i), a);
      r := g.add(output, table[i]);
    }
  }

  // ---- Byte multiples ----

  /** Entry (i, j) is j 256^i a. */
  ghost predicate SuperTable<T(!new)>(g: Group<T>, table: seq<seq<T>>, a: T) {
    && |table| == 32
    && (forall i :: 0 <= i < 32 ==> |table[i]| == 256)
    && (forall i, j :: 0 <= i < 32 && 0 <= j < 256 ==> table[i][j] == Mul(g, j * Pow256(i), a))
  }

  lemma OneByte(s: seq<byte>, i: nat)
    requires i < |s| && forall k :: 0 <= k < |s| && k != i ==> s[k] == 0
    ensures LE(s) == s[i] as int * Pow256(i)
  {
    var zero := s[i := 0];
    ScalarKeys.ZeroPart(zero, 0, |s|);
    ScalarKeys.WriteByte(zero, 0, |s|, i, s[i]);
    assert zero[i := s[i]] == s;
  }

  /** One row of the super table: a scalar with a single nonzero byte for each entry. */
  method SuperRow<T(!new)>(g: Group<T>, i: nat, ptable: seq<T>, ghost a: T) returns (row: seq<T>)
    requires Abelian(g) && PowerTable(g, ptable, a) && i < 32
    ensures |row| == 256 && forall j :: 0 <= j < 256 ==> row[j] == Mul(g, j * Pow256(i), a)
  {
    row := [];
    var scalar := new byte[32](_ => 0);
    for j := 0 to 256
      invariant |row| == j && forall k :: 0 <= k < j ==> row[k] == Mul(g, k * Pow256(i), a)
      invariant forall k :: 0 <= k < 32 && k != i ==> scalar[k] == 0
    {
      scalar[i] := j as byte;
      OneByte(scalar[..], i);
      var entry := ScalarMultPrecompute(g, scalar[..], ptable, a);
      row := row + [entry];
    }
  }

  method GenSuperPrecompute<T(!new)>(g: Group<T>, ptable: seq<T>, ghost a: T) returns (stable: seq<seq<T>>)
    requires Abelian(g) && PowerTable(g, ptable, a)
    ensures SuperTable(g, stable, a)
  {
    stable := [];
    for i := 0 to 32
      invariant |stable| == i
      invariant forall k :: 0 <= k < i ==> |stable[k]| == 256
      invariant forall k, j :: 0 <= k < i && 0 <= j < 256 ==> stable[k][j] == Mul(g, j * Pow256(k), a)
    {
      var row := SuperRow(g, i, ptable, a);
      stable := stable + [row];
    }
  }

  lemma NextByte(s: seq<byte>, i: nat)
    requires i < |s|
    ensures Part(s, 0, i + 1) == Part(s, 0, i) + s[i] as int * Pow256(i)
  {
    PartSplit(s, 0, i, 1);
    Part1(s, i);
  }

  /** One table entry for each byte adds up to s a. */
  method ScalarMultSuperPrecompute<T(!new)>(g: Group<T>, s: seq<byte>, stable: seq<seq<T>>, ghost a: T)
    returns (output: T)
    requires Abelian(g) && |s| == 32 && SuperTable(g, stable, a)
    ensures output == Mul(g, LE(s), a)
  {
    output := g.zero;
    for i := 0 to 32
      invariant output == Mul(g, Part(s, 0, i), a)
    {
      NextByte(s, i);
      MulSum(g, Part(s, 0, i), s[i] as int * Pow256(i), a);
      output := g.add(output, stable[i][s[i] as int]);
    }
  }

  // ---- Small multiples of two points ----

  /** Entry i is i a. */
  ghost predicate MultipleTable<T(!new)>(g: Group<T>, table: seq<T>, a: T) {
    |table| == 256 && forall i :: 0 <= i < 256 ==> table[i] == Mul(g, i, a)
  }

  method MulPrecompute<T(!new)>(g: Group<T>, r: array<T>, s: T)
    requires Abelian(g) && r.Length == 256
    modifies r
    ensures MultipleTable(g, r[..], s)
  {
    MulOne(g, s);
    r[0] := g.zero;
    r[1] := s;
    var s2 := g.add(s, s);
    for i := 0 to 254
      invariant forall k :: 0 <= k < i + 2 ==> r[k] == Mul(g, k, s)
    {
      MulSum(g, 2, i, s);
      r[i + 2] := g.add(s2, r[i]);
    }
  }

  /** m a + n b. */
  ghost function Pair<T(!new)>(g: Group<T>, m: int, a: T, n: int, b: T): T {
    g.add(Mul(g, m, a), Mul(g, n, b))
  }

  lemma PairSum<T(!new)>(g: Group<T>, m: int, n: int, m': int, n': int, a: T, b: T)
    requires Abelian(g)
    ensures g.add(Pair(g, m, a, n, b), Pair(g, m', a, n', b)) == Pair(g, m + m', a, n + n', b)
  {
    Interchange(g, Mul(g, m, a), Mul(g, n, b), Mul(g, m', a), Mul(g, n', b));
    MulSum(g, m, m', a);
    MulSum(g, n, n', b);
  }

  /** Entry i is (i mod 16) a + (i div 16) b. */
  ghost predicate JointTable<T(!new)>(g: Group<T>, table: seq<T>, a: T, b: T) {
    |table| == 256 && forall i :: 0 <= i < 256 ==> table[i] == Pair(g, i % 16, a, i / 16, b)
  }

  method GenDoublePrecompute<T(!new)>(g: Group<T>, table: array<T>, a: T, b: T)
    requires Abelian(g) && table.Length == 256
    modifies table
    ensures JointTable(g, table[..], a, b)
  {
    var atable, btable := new T[256](_ => g.zero), new T[256](_ => g.zero);
    MulPrecompute(g, atable, a);
    MulPrecompute(g, btable, b);
    var am, bm := atable[..], btable[..];
    for i := 0 to 256
      invariant forall k :: 0 <= k < i ==> table[k] == Pair(g, k % 16, a, k / 16, b)
    {
      var apart, bpart := i % 16, i / 16 % 16;
      var apoint := g.add(g.zero, am[apart]);
      var bpoint := g.add(g.zero, bm[bpart]);
      assert Neutral(g, am[apart]) && Neutral(g, bm[bpart]);
      table[i] := g.add(apoint, bpoint);
    }
  }

  /** Sixteen times a pair. */
  method PairTimes16<T(!new)>(g: Group<T>, p: T, ghost m: int, ghost n: int, ghost a: T, ghost b: T) returns (r: T)
    requires Abelian(g) && p == Pair(g, m, a, n, b)
    ensures r == Pair(g, 16 * m, a, 16 * n, b)
  {
    PairSum(g, m, n, m, n, a, b);
    r := g.add(p, p);
    PairSum(g, 2 * m, 2 * n, 2 * m, 2 * n, a, b);
    r := g.add(r, r);
    PairSum(g, 4 * m, 4 * n, 4 * m, 4 * n, a, b);
    r := g.add(r, r);
    PairSum(g, 8 * m, 8 * n, 8 * m, 8 * n, a, b);
    r := g.add(r, r);
  }

  /** Four bits of each scalar: sixteenfold, plus one entry of the joint table. */
  method NibbleRound<T(!new)>(g: Group<T>, p: T, x: nat, y: nat, table: seq<T>, ghost m: int, ghost n: int, ghost a: T,
      ghost b: T) returns (r: T)
    requires Abelian(g) && JointTable(g, table, a, b) && x < 16 && y < 16 && p == Pair(g, m, a, n, b)
    ensures r == Pair(g, 16 * m + x, a, 16 * n + y, b)
  {
    r := PairTimes16(g, p, m, n, a, b);
    var point := x + y * 16;
    Quotient(point, 16, y, x);
    PairSum(g, 16 * m, 16 * n, x, y, a, b);
    r := g.add(r, table[point]);
  }

  lemma TwoNibbles(s: seq<byte>, i: nat)
    requires |s| == 32 && i < 32
    ensures Part(s, i, 32 - i) == 16 * (16 * Part(s, i + 1, 31 - i) + s[i] as int / 16) + s[i] as int % 16
  {
  }

  /** s1 a + s2 b, for all 256-bit scalars. */
  method DoubleScalarDoubleBaseMulPrecomputed<T(!new)>(g: Group<T>, s1: seq<byte>, s2: seq<byte>, table: seq<T>,
      ghost a: T, ghost b: T) returns (output: T)
    requires Abelian(g) && |s1| == 32 && |s2| == 32 && JointTable(g, table, a, b)
    ensures output == Pair(g, LE(s1), a, LE(s2), b)
  {
    assert Neutral(g, g.zero);
    var p := g.zero;
    output := g.zero;
    var i := 31;
    while i >= 0
      invariant -1 <= i <= 31
      invariant output == p == Pair(g, Part(s1, i + 1, 31 - i), a, Part(s2, i + 1, 31 - i), b)
    {
      ghost var m, n := Part(s1, i + 1, 31 - i), Part(s2, i + 1, 31 - i);
      TwoNibbles(s1, i);
      TwoNibbles(s2, i);
      p := NibbleRound(g, p, s1[i] as int / 16, s2[i] as int / 16, table, m, n, a, b);
      output := NibbleRound(g, p, s1[i] as int % 16, s2[i] as int % 16, table, 16 * m + s1[i] as int / 16,
        16 * n + s2[i] as int / 16, a, b);
      p := output;
      i := i - 1;
    }
  }

  // ---- Sixty-four pairs of points ----

  /** The sum of m_j a_j + n_j b_j. */
  ghost function Pairs<T(!new)>(g: Group<T>, m: seq<int>, a: seq<T>, n: seq<int>, b: seq<T>): T
    requires |m| <= |a| && |n| <= |b|
  {
    g.add(Combination(g, m, a), Combination(g, n, b))
  }

  ghost predicate JointTables<T(!new)>(g: Group<T>, tables: seq<seq<T>>, a: seq<T>, b: seq<T>) {
    |a| == |b| == |tables| && forall j :: 0 <= j < |tables| ==> JointTable(g, tables[j], a[j], b[j])
  }

  lemma OneMorePair<T(!new)>(g: Group<T>, m: seq<int>, a: seq<T>, n: seq<int>, b: seq<T>, j: nat)
    requires Abelian(g) && j < |m| == |n| <= |a| && |m| <= |b|
    ensures Pairs(g, m[..j + 1], a, n[..j + 1], b)
      == g.add(Pairs(g, m[..j], a, n[..j], b), Pair(g, m[j], a[j], n[j], b[j]))
  {
    assert m[..j + 1][..j] == m[..j] && n[..j + 1][..j] == n[..j];
    Interchange(g, Combination(g, m[..j], a), Combination(g, n[..j], b), Mul(g, m[j], a[j]), Mul(g, n[j], b[j]));
  }

  lemma PairsHorner<T(!new)>(g: Group<T>, m: seq<int>, x: seq<int>, m': seq<int>, a: seq<T>,
      n: seq<int>, y: seq<int>, n': seq<int>, b: seq<T>)
    requires Abelian(g) && |m| == |x| == |m'| == |n| == |y| == |n'| == |a| == |b|
    requires forall j :: 0 <= j < |m| ==> m'[j] == x[j] + 16 * m[j]
    requires forall j :: 0 <= j < |n| ==> n'[j] == y[j] + 16 * n[j]
    ensures g.add(Mul(g, 16, Pairs(g, m, a, n, b)), Pairs(g, x, a, y, b)) == Pairs(g, m', a, n', b)
  {
    var p, q, u, v := Combination(g, m, a), Combination(g, n, b), Combination(g, x, a), Combination(g, y, b);
    MulOfSum(g, 16, p, q);
    Interchange(g, Mul(g, 16, p), Mul(g, 16, q), u, v);
    CombinationHorner(g, 16, m, x, m', a);
    CombinationHorner(g, 16, n, y, n', b);
  }

  /** Four bits of every scalar: sixteenfold, then one entry of each joint table that is not the zero entry. */
  method NibbleRounds<T(!new)>(g: Group<T>, p: T, x: seq<int>, y: seq<int>, tables: seq<seq<T>>, ghost m: seq<int>,
      ghost n: seq<int>, ghost m': seq<int>, ghost n': seq<int>, ghost a: seq<T>, ghost b: seq<T>) returns (r: T)
    requires Abelian(g) && JointTables(g, tables, a, b) && |x| == |y| == |m| == |n| == |m'| == |n'| == |tables|
    requires forall j :: 0 <= j < |x| ==> 0 <= x[j] < 16
    requires forall j :: 0 <= j < |y| ==> 0 <= y[j] < 16
    requires forall j :: 0 <= j < |m| ==> m'[j] == x[j] + 16 * m[j]
    requires forall j :: 0 <= j < |n| ==> n'[j] == y[j] + 16 * n[j]
    requires p == Pairs(g, m, a, n, b)
    ensures r == Pairs(g, m', a, n', b)
  {
    MulOne(g, p);
    var start := Times16(g, p, 1, p);
    r := start;
    assert Neutral(g, start) && Neutral(g, g.zero);
    for j := 0 to |tables|
      invariant r == g.add(start, Pairs(g, x[..j], a, y[..j], b))
    {
      r := AddEntry(g, r, x[j], y[j], tables[j], a[j], b[j]);
      OneMorePair(g, x, a, y, b, j);
      assert Associative(g, start, Pairs(g, x[..j], a, y[..j], b), Pair(g, x[j], a[j], y[j], b[j]));
    }
    assert x[..|tables|] == x && y[..|tables|] == y;
    PairsHorner(g, m, x, m', a, n, y, n', b);
  }

  method AddEntry<T(!new)>(g: Group<T>, output: T, x: int, y: int, table: seq<T>, ghost a: T, ghost b: T) returns (r: T)
    requires Abelian(g) && JointTable(g, table, a, b) && 0 <= x < 16 && 0 <= y < 16
    ensures r == g.add(output, Pair(g, x, a, y, b))
  {
    var point := x + y * 16;
    Quotient(point, 16, y, x);
    r := output;
    if point != 0 {
      r := g.add(output, table[point]);
    } else {
      assert Neutral(g, g.zero) && Neutral(g, output);
    }
  }

  /** Bytes i and up of every scalar. */
  ghost function TailNumbers(s: seq<seq<byte>>, i: nat): (t: seq<int>)
    requires i <= 32 && forall j :: 0 <= j < |s| ==> |s[j]| == 32
    ensures |t| == |s| && forall j :: 0 <= j < |s| ==> t[j] == Part(s[j], i, 32 - i)
  {
    seq(|s|, j requires 0 <= j < |s| => Part(s[j], i, 32 - i))
  }

  /** Byte i of every scalar, its high or its low half. */
  function Nibble(s: seq<seq<byte>>, i: nat, high: bool): (t: seq<int>)
    requires i < 32 && forall j :: 0 <= j < |s| ==> |s[j]| == 32
    ensures |t| == |s|
    ensures forall j :: 0 <= j < |s| ==> t[j] == if high then s[j][i] as int / 16 else s[j][i] as int % 16
  {
    seq(|s|, j requires 0 <= j < |s| => if high then s[j][i] as int / 16 else s[j][i] as int % 16)
  }

  /** Bytes above i and the high half of byte i. */
  ghost function MiddleNumbers(s: seq<seq<byte>>, i: nat): (t: seq<int>)
    requires i < 32 && forall j :: 0 <= j < |s| ==> |s[j]| == 32
    ensures |t| == |s| && forall j :: 0 <= j < |s| ==> t[j] == s[j][i] as int / 16 + 16 * Part(s[j], i + 1, 31 - i)
  {
    seq(|s|, j requires 0 <= j < |s| => s[j][i] as int / 16 + 16 * Part(s[j], i + 1, 31 - i))
  }

  lemma TailFromMiddle(s: seq<seq<byte>>, i: nat)
    requires i < 32 && forall j :: 0 <= j < |s| ==> |s[j]| == 32
    ensures forall j :: 0 <= j < |s| ==> TailNumbers(s, i)[j] == Nibble(s, i, false)[j] + 16 * MiddleNumbers(s, i)[j]
  {
    forall j | 0 <= j < |s|
      ensures TailNumbers(s, i)[j] == Nibble(s, i, false)[j] + 16 * MiddleNumbers(s, i)[j]
    {
      TwoNibbles(s[j], i);
    }
  }

  lemma NibbleRange(s: seq<seq<byte>>, i: nat, high: bool)
    requires i < 32 && forall j :: 0 <= j < |s| ==> |s[j]| == 32
    ensures forall j :: 0 <= j < |s| ==> 0 <= Nibble(s, i, high)[j] < 16
  {
  }

  /** Byte i of every scalar, high half first. */
  method ByteRound<T(!new)>(g: Group<T>, start: T, s1: seq<seq<byte>>, s2: seq<seq<byte>>, i: nat, tables: seq<seq<T>>,
      ghost a: seq<T>, ghost b: seq<T>) returns (output: T)
    requires Abelian(g) && |s1| == |s2| == |tables| && JointTables(g, tables, a, b) && i < 32
    requires forall j :: 0 <= j < |s1| ==> |s1[j]| == 32
    requires forall j :: 0 <= j < |s2| ==> |s2[j]| == 32
    requires start == Pairs(g, TailNumbers(s1, i + 1), a, TailNumbers(s2, i + 1), b)
    ensures output == Pairs(g, TailNumbers(s1, i), a, TailNumbers(s2, i), b)
  {
    NibbleRange(s1, i, true);
    NibbleRange(s2, i, true);
    var p := NibbleRounds(g, start, Nibble(s1, i, true), Nibble(s2, i, true), tables, TailNumbers(s1, i + 1),
      TailNumbers(s2, i + 1), MiddleNumbers(s1, i), MiddleNumbers(s2, i), a, b);
    NibbleRange(s1, i, false);
    NibbleRange(s2, i, false);
    TailFromMiddle(s1, i);
    TailFromMiddle(s2, i);
    output := NibbleRounds(g, p, Nibble(s1, i, false), Nibble(s2, i, false), tables, MiddleNumbers(s1, i),
      MiddleNumbers(s2, i), TailNumbers(s1, i), TailNumbers(s2, i), a, b);
  }

  lemma NothingLeft<T(!new)>(g: Group<T>, s1: seq<seq<byte>>, a: seq<T>, s2: seq<seq<byte>>, b: seq<T>)
    requires Abelian(g) && |s1| <= |a| && |s2| <= |b|
    requires forall j :: 0 <= j < |s1| ==> |s1[j]| == 32
    requires forall j :: 0 <= j < |s2| ==> |s2[j]| == 32
    ensures Pairs(g, TailNumbers(s1, 32), a, TailNumbers(s2, 32), b) == g.zero
  {
    CombinationOfZeros(g, TailNumbers(s1, 32), a);
    CombinationOfZeros(g, TailNumbers(s2, 32), b);
    assert Neutral(g, g.zero);
  }

  lemma WholeNumbers(s: seq<seq<byte>>)
    requires forall j :: 0 <= j < |s| ==> |s[j]| == 32
    ensures TailNumbers(s, 0) == Numbers(s)
  {
  }

  /** The sum over every pair of s1_j a_j + s2_j b_j. */
  method DoubleScalarDoubleBaseMulPrecomputed64<T(!new)>(g: Group<T>, s1: seq<seq<byte>>, s2: seq<seq<byte>>,
      tables: seq<seq<T>>, ghost a: seq<T>, ghost b: seq<T>) returns (output: T)
    requires Abelian(g) && |s1| == |s2| == |tables| == 64 && JointTables(g, tables, a, b)
    requires forall j :: 0 <= j < |s1| ==> |s1[j]| == 32
    requires forall j :: 0 <= j < |s2| ==> |s2[j]| == 32
    ensures output == Pairs(g, Numbers(s1), a, Numbers(s2), b)
  {
    NothingLeft(g, s1, a, s2, b);
    output := g.zero;
    var i := 31;
    while i >= 0
      invariant -1 <= i <= 31
      invariant output == Pairs(g, TailNumbers(s1, i + 1), a, TailNumbers(s2, i + 1), b)
    {
      output := ByteRound(g, output, s1, s2, i, tables, a, b);
      i := i - 1;
    }
    WholeNumbers(s1);
    WholeNumbers(s2);
  }
}
