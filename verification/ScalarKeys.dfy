/** The validity test of crypto/curve25519/edwards_25519_scalar.go and the Scalar object of crypto/scalar.go. */
module ScalarKeys {
  import opened Arith
  import opened Bytes
  import Digits
  import opened MachineInts
  import opened ScalarBytes
  import opened ScalarLimbs
  import opened Scalars

  // ---- ScValid ----

  /** The sign of a 64-bit number: all ones for a negative number, zero otherwise. */
  function Shr63(x: int64): int {
    if x < 0 then -1 else 0
  }

  /** Go's -a, which leaves the smallest int64 as it is. */
  function Negated(a: int64): int64 {
    if a == -0x8000_0000_0000_0000 then a else -a
  }

  function Signum(a: int64): int {
    Shr63(a) - Shr63(Negated(a))
  }

  /** The source compares against the words of the group order less one. */
  function ScValid(s: seq<byte>): bool
    requires |s| == 32
  {
    var s0, s1, s2, s3 := Load4(s, 0), Load4(s, 4), Load4(s, 8), Load4(s, 12);
    var s4, s5, s6, s7 := Load4(s, 16), Load4(s, 20), Load4(s, 24), Load4(s, 28);
    (Signum(1559614444 - s0) + Signum(1477600026 - s1) * 2 + Signum(2734136534 - s2) * 4 + Signum(350157278 - s3) * 8
     + Signum(-s4) * 16 + Signum(-s5) * 32 + Signum(-s6) * 64 + Signum(268435456 - s7) * 128) / 256 == 0
  }

  /** Word differences, least significant first: the number they add up to, and the signs the source adds up. */
  ghost function Weighed(d: seq<int64>): int {
    if d == [] then 0 else d[0] as int + 0x1_0000_0000 * Weighed(d[1..])
  }

  ghost function Signs(d: seq<int64>): int {
    if d == [] then 0 else Signum(d[0]) + 2 * Signs(d[1..])
  }

  /** The sum of signs has the sign of the number, as long as each word difference is a 32-bit one. */
  lemma {:induction false} SignsDecide(d: seq<int64>)
    requires forall i :: 0 <= i < |d| ==> -0x1_0000_0000 < d[i] < 0x1_0000_0000
    ensures Weighed(d) < 0 <==> Signs(d) < 0
    ensures Weighed(d) > 0 <==> Signs(d) > 0
    ensures -Pow2(|d|) < Signs(d) < Pow2(|d|)
  {
    if d != [] {
      SignsDecide(d[1..]);
    }
  }

  ghost function D8(d0: int64, d1: int64, d2: int64, d3: int64, d4: int64, d5: int64, d6: int64,
    d7: int64): seq<int64> {
    [d0, d1, d2, d3, d4, d5, d6, d7]
  }

  lemma UnrolledSigns(d: seq<int64>)
    requires |d| == 8
    ensures Signs(d) == Signum(d[0]) + Signum(d[1]) * 2 + Signum(d[2]) * 4 + Signum(d[3]) * 8
                        + Signum(d[4]) * 16 + Signum(d[5]) * 32 + Signum(d[6]) * 64 + Signum(d[7]) * 128
  {
    assert Signs(d) == Signum(d[0]) + 2 * (Signum(d[1]) + 2 * Signs(d[2..])) by {
      assert d[1..][1..] == d[2..];
    }
    assert Signs(d[2..]) == Signum(d[2]) + 2 * (Signum(d[3]) + 2 * Signs(d[4..])) by {
      assert d[2..][1..] == d[3..] && d[3..][1..] == d[4..];
    }
    assert Signs(d[4..]) == Signum(d[4]) + 2 * (Signum(d[5]) + 2 * Signs(d[6..])) by {
      assert d[4..][1..] == d[5..] && d[5..][1..] == d[6..];
    }
    assert Signs(d[6..]) == Signum(d[6]) + 2 * (Signum(d[7]) + 2 * Signs([])) by {
      assert d[6..][1..] == d[7..] && d[7..][1..] == [];
    }
  }

  lemma UnrolledWeighed(d: seq<int64>)
    requires |d| >= 4
    ensures Weighed(d) == d[0] as int + 0x1_0000_0000 * d[1] as int + 0x1_0000_0000_0000_0000 * d[2] as int
                          + 0x1_0000_0000_0000_0000_0000_0000 * d[3] as int
                          + 0x1_0000_0000_0000_0000_0000_0000_0000_0000 * Weighed(d[4..])
  {
    assert d[1..][1..] == d[2..] && d[2..][1..] == d[3..] && d[3..][1..] == d[4..];
    assert Weighed(d[1..]) == d[1] as int + 0x1_0000_0000 * Weighed(d[2..]);
    assert Weighed(d[2..]) == d[2] as int + 0x1_0000_0000 * Weighed(d[3..]);
    assert Weighed(d[3..]) == d[3] as int + 0x1_0000_0000 * Weighed(d[4..]);
  }

  lemma Word(s: seq<byte>, i: nat)
    requires i + 4 <= |s|
    ensures Part(s, i, 4) == Load4(s, i) as int
    ensures Pow256(4) == 0x1_0000_0000
  {
    PartSplit(s, i, 3, 1);
    Part3(s, i);
    Part1(s, i + 3);
    assert Pow256(4) == 256 * Pow256(3) && Pow256(3) == 256 * Pow256(2);
    assert Pow256(2) == 256 * Pow256(1) && Pow256(1) == 256 * Pow256(0);
  }

  /** Four words make half a key. */
  lemma FourWords(s: seq<byte>, i: nat)
    requires i + 16 <= |s|
    ensures Part(s, i, 16) == Load4(s, i) as int + 0x1_0000_0000 * Load4(s, i + 4) as int
                              + 0x1_0000_0000_0000_0000 * Load4(s, i + 8) as int
                              + 0x1_0000_0000_0000_0000_0000_0000 * Load4(s, i + 12) as int
  {
    Word(s, i);
    Word(s, i + 4);
    Word(s, i + 8);
    Word(s, i + 12);
    PartSplitBy(s, i, 4, 12, 0x1_0000_0000);
    PartSplitBy(s, i + 4, 4, 8, 0x1_0000_0000);
    PartSplitBy(s, i + 8, 4, 4, 0x1_0000_0000);
  }

  lemma EightWords(s: seq<byte>)
    requires |s| == 32
    ensures LE(s) == Part(s, 0, 16) + 0x1_0000_0000_0000_0000_0000_0000_0000_0000 * Part(s, 16, 16)
  {
    Word(s, 0);
    Pow256Sum(4, 4);
    Pow256Sum(8, 8);
    PartSplitBy(s, 0, 16, 16, 0x1_0000_0000_0000_0000_0000_0000_0000_0000);
  }

  ghost function WordDifferences(s: seq<byte>): (d: seq<int64>)
    requires |s| == 32
  {
    D8(1559614444 - Load4(s, 0), 1477600026 - Load4(s, 4), 2734136534 - Load4(s, 8), 350157278 - Load4(s, 12),
       -Load4(s, 16), -Load4(s, 20), -Load4(s, 24), 268435456 - Load4(s, 28))
  }

  /** The words in the source are those of the group order less one. */
  lemma DistanceToOrder(s: seq<byte>)
    requires |s| == 32
    ensures Weighed(WordDifferences(s)) == ELL - 1 - LE(s)
  {
    var d := WordDifferences(s);
    UnrolledWeighed(d);
    UnrolledWeighed(d[4..]);
    assert d[4..][4..] == [];
    EightWords(s);
    FourWords(s, 0);
    FourWords(s, 16);
  }

  lemma ScValidAddsSigns(s: seq<byte>)
    requires |s| == 32
    ensures ScValid(s) <==> Signs(WordDifferences(s)) / 256 == 0
  {
    UnrolledSigns(WordDifferences(s));
  }

  /** ScValid accepts exactly the canonical scalars. */
  lemma ScValidIsCanonical(s: seq<byte>)
    requires |s| == 32
    ensures ScValid(s) <==> LE(s) < ELL
  {
    var d := WordDifferences(s);
    ScValidAddsSigns(s);
    DistanceToOrder(s);
    assert |d| == 8 && forall i :: 0 <= i < |d| ==> -0x1_0000_0000 < d[i] < 0x1_0000_0000;
    SignsDecide(d);
    assert Pow2(8) == 256;
  }

  // ---- Numbers and keys ----

  ghost function Reversed(b: seq<byte>): (r: seq<byte>)
    ensures |r| == |b| && forall i :: 0 <= i < |b| ==> r[i] == b[|b| - 1 - i]
  {
    seq(|b|, i requires 0 <= i < |b| => b[|b| - 1 - i])
  }

  lemma {:induction false} PartShift(b: seq<byte>, c: seq<byte>, lo: nat, lo': nat, n: nat)
    requires lo + n <= |b| && lo' + n <= |c| && b[lo..lo + n] == c[lo'..lo' + n]
    ensures Part(b, lo, n) == Part(c, lo', n)
    decreases n
  {
    if n != 0 {
      assert b[lo] == b[lo..lo + n][0] && c[lo'] == c[lo'..lo' + n][0];
      assert b[lo + 1..lo + n] == b[lo..lo + n][1..] && c[lo' + 1..lo' + n] == c[lo'..lo' + n][1..];
      PartShift(b, c, lo + 1, lo' + 1, n - 1);
    }
  }

  /** Read most significant byte first, as math/big does, the reversed bytes give the number. */
  lemma {:induction false} ReversedReadsBackwards(b: seq<byte>)
    ensures Digits.N(256, Reversed(b)) == LE(b)
    decreases |b|
  {
    if b != [] {
      ReversedReadsBackwards(b[1..]);
      assert Reversed(b)[..|b| - 1] == Reversed(b[1..]);
      PartShift(b, b[1..], 1, 0, |b| - 1);
    }
  }

  /** Writing x over a zero byte at i adds x * 256^i. */
  lemma {:induction false} WriteByte(b: seq<byte>, lo: nat, n: nat, i: nat, x: byte)
    requires lo <= i < lo + n <= |b| && b[i] == 0
    ensures Part(b[i := x], lo, n) == Part(b, lo, n) + Pow256(i - lo) * x as int
    decreases n
  {
    if lo == i {
      PartShift(b[i := x], b, lo + 1, lo + 1, n - 1);
    } else {
      WriteByte(b, lo + 1, n - 1, i, x);
      ScaledTail(b[lo] as int, Part(b, lo + 1, n - 1), Pow256(i - lo - 1), x as int);
    }
  }

  lemma {:induction false} ZeroPart(b: seq<byte>, lo: nat, n: nat)
    requires lo + n <= |b| && forall i :: lo <= i < lo + n ==> b[i] == 0
    ensures Part(b, lo, n) == 0
    decreases n
  {
    if n != 0 {
      ZeroPart(b, lo + 1, n - 1);
    }
  }

  lemma {:induction false} Pow256Grows(m: nat, n: nat)
    requires m <= n
    ensures Pow256(m) <= Pow256(n)
    decreases n
  {
    if m < n {
      Pow256Grows(m, n - 1);
    }
  }

  lemma RemainingDigits(p: int, p256: int, v: int, q: int, r: int)
    requires p >= 1 && p256 == 256 * p && q >= 0 && v == 256 * q + r
    ensures p * v == p256 * q + p * r && p256 * q >= 0
  {
  }

  lemma NinthDigit(i: nat, v: int)
    requires i >= 8 && v >= 1
    ensures Pow256(i) * v >= TWO64
  {
    Pow256Grows(8, i);
    Pow256Sum(4, 4);
    Word([0, 0, 0, 0], 0);
    assert Pow256(i) * (v - 1) >= 0;
  }

  lemma EightDigits(i: nat, v: int)
    requires v >= 1 && Pow256(i) * v < TWO64
    ensures i < 8
  {
    if i >= 8 {
      NinthDigit(i, v);
    }
  }

  /** One round of d2h: the next digit leaves `val` and enters the key. */
  lemma D2hStep(b: seq<byte>, i: nat, val: int, value: int)
    requires |b| == 32 && i < 32 && b[i] == 0 && 0 <= val && 0 <= LE(b)
    requires LE(b) + Pow256(i) * val == value
    ensures 0 <= LE(b[i := (val % 256) as byte]) <= value
    ensures LE(b[i := (val % 256) as byte]) + Pow256(i + 1) * (val / 256) == value
  {
    RemainingDigits(Pow256(i), Pow256(i + 1), val, val / 256, val % 256);
    WriteByte(b, 0, 32, i, (val % 256) as byte);
    PartBound(b[i := (val % 256) as byte], 0, 32);
  }

  /** d2h: a 64-bit value as a key. */
  method D2h(value: uint64) returns (key: array<byte>)
    ensures fresh(key) && key.Length == 32
    ensures LE(key[..]) == value as int
  {
    key := new byte[32](_ => 0);
    ZeroPart(key[..], 0, 32);
    var val := value;
    var i := 0;
    while val > 0
      invariant 0 <= i <= 8
      invariant forall j :: i <= j < 32 ==> key[j] == 0
      invariant 0 <= LE(key[..]) && LE(key[..]) + Pow256(i) * val as int == value as int
      decreases val
    {
      ghost var b := key[..];
      EightDigits(i, val as int);
      D2hStep(b, i, val as int, value as int);
      key[i] := (val % 256) as byte;
      assert key[..] == b[i := (val % 256) as byte];
      val := val / 256;
      i := i + 1;
    }
  }

  /** Reverse: a copy of the key with its bytes in the opposite order, by swapping from the two ends. */
  method Reverse(x: array<byte>) returns (result: array<byte>)
    requires x.Length == 32
    ensures fresh(result) && result[..] == Reversed(x[..])
  {
    result := new byte[32](i requires 0 <= i < 32 reads x => x[i]);
    var i := 0;
    while i < 16
      invariant 0 <= i <= 16
      invariant forall j :: 0 <= j < i || 32 - i <= j < 32 ==> result[j] == x[31 - j]
      invariant forall j :: i <= j < 32 - i ==> result[j] == x[j]
    {
      result[i], result[31 - i] := result[31 - i], result[i];
      i := i + 1;
    }
  }

  /** Keys that agree above i compare as their bytes at i do. */
  lemma TopByteDecides(a: seq<byte>, b: seq<byte>, i: nat)
    requires |a| == |b| && i < |a| && a[i + 1..] == b[i + 1..] && a[i] < b[i]
    ensures LE(a) < LE(b)
  {
    PartSplit(a, 0, i, |a| - i);
    PartSplit(b, 0, i, |a| - i);
    PartShift(a, b, i + 1, i + 1, |a| - i - 1);
    PartBound(a, 0, i);
    PartBound(b, 0, i);
    MultipleIsFar(Pow256(i), b[i] as int - a[i] as int);
    DistributeDifference(Pow256(i), Part(b, i, |a| - i), Part(a, i, |a| - i));
  }

  lemma DistributeDifference(p: int, x: int, y: int)
    ensures p * x - p * y == p * (x - y)
  {
  }

  /** The scalar object. Go copies its 32-byte array on assignment; here each assignment installs a fresh array. */
  class Scalar {
    var key: array<byte>

    ghost predicate Valid()
      reads this
    {
      key.Length == 32
    }

    ghost function Number(): int
      reads this, key
    {
      LE(key[..])
    }

    constructor ()
      ensures Valid() && fresh(key) && Number() == 0
    {
      key := new byte[32](_ => 0);
      new;
      ZeroPart(key[..], 0, 32);
    }

    /** SetKey stores the key first and then tests it. */
    method SetKey(v: array<byte>) returns (ok: bool)
      requires v.Length == 32
      modifies this
      ensures Valid() && fresh(key) && key[..] == v[..]
      ensures ok <==> LE(v[..]) < ELL
    {
      key := new byte[32](i requires 0 <= i < 32 reads v => v[i]);
      assert key[..] == v[..];
      ok := ScValid(key[..]);
      ScValidIsCanonical(key[..]);
    }

    /** HashToScalar of a message whose hash is `digest`: the nil result is never produced. */
    static method HashToScalar(digest: array<byte>) returns (sc: Scalar?)
      requires digest.Length == 32
      modifies digest
      ensures sc != null && fresh(sc) && sc.Valid()
      ensures sc.Number() == old(LE(digest[..])) % ELL
    {
      ScReduce32(digest);
      sc := new Scalar();
      var ok := sc.SetKey(digest);
      if !ok {
        sc := null;
      }
    }

    /** FromUint64 reports success for every value. */
    method FromUint64(v: uint64) returns (ok: bool)
      modifies this
      ensures ok && Valid() && fresh(key) && Number() == v as int
    {
      var k := D2h(v);
      ok := SetKey(k);
    }

    /** The low 64 bits of the number. */
    method ToUint64Little() returns (v: uint64)
      requires Valid()
      ensures v as int == Number() % TWO64
    {
      var reversed := Reverse(key);
      ReversedReadsBackwards(key[..]);
      v := FromBigEndian(reversed[..]);
    }

    method Add(a: Scalar, b: Scalar)
      requires a.Valid() && b.Valid()
      modifies this
      ensures Valid() && fresh(key) && Number() == (old(a.Number()) + old(b.Number())) % ELL
    {
      var res := new byte[32];
      ScAdd(res, a.key, b.key);
      key := res;
    }

    method Sub(a: Scalar, b: Scalar)
      requires a.Valid() && b.Valid()
      modifies this
      ensures Valid() && fresh(key) && Number() == (old(a.Number()) - old(b.Number())) % ELL
    {
      var res := new byte[32];
      ScSub(res, a.key, b.key);
      key := res;
    }

    method Mul(a: Scalar, b: Scalar)
      requires a.Valid() && b.Valid()
      modifies this
      ensures Valid() && fresh(key) && Number() == (old(a.Number()) * old(b.Number())) % ELL
    {
      var res := new byte[32];
      ScMul(res, a.key, b.key);
      key := res;
    }

    method MulAdd(a: Scalar, b: Scalar, c: Scalar)
      requires a.Valid() && b.Valid() && c.Valid()
      modifies this
      ensures Valid() && fresh(key)
      ensures Number() == (old(a.Number()) * old(b.Number()) + old(c.Number())) % ELL
    {
      var res := new byte[32];
      ScMulAdd(res, a.key, b.key, c.key);
      key := res;
    }
  }

  /** big.Int.SetBytes followed by Uint64, which keeps the low 64 bits. */
  method FromBigEndian(b: seq<byte>) returns (v: uint64)
    ensures v as int == Digits.N(256, b) % TWO64
  {
    var n := 0;
    for i := 0 to |b|
      invariant n == Digits.N(256, b[..i])
    {
      assert b[..i + 1][..i] == b[..i];
      n := 256 * n + b[i] as int;
    }
    assert b[..|b|] == b;
    v := (n % TWO64) as uint64;
  }

  /** Compare: the order of the numbers. */
  method Compare(a: Scalar, b: Scalar) returns (r: int)
    requires a.Valid() && b.Valid()
    ensures r == (if a.Number() < b.Number() then -1 else if a.Number() > b.Number() then 1 else 0)
  {
    var i := 31;
    while i >= 0
      invariant -1 <= i <= 31
      invariant a.key[i + 1..] == b.key[i + 1..]
    {
      if a.key[i] > b.key[i] {
        TopByteDecides(b.key[..], a.key[..], i);
        return 1;
      }
      if a.key[i] < b.key[i] {
        TopByteDecides(a.key[..], b.key[..], i);
        return -1;
      }
      i := i - 1;
    }
    return 0;
  }

  /** FromUint64 and ToUint64Little are inverse. */
  method Uint64RoundTrip(sc: Scalar, v: uint64) returns (w: uint64)
    modifies sc
    ensures w == v
  {
    var ok := sc.FromUint64(v);
    w := sc.ToUint64Little();
  }
}
