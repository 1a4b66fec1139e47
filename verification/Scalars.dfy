/** Arithmetic modulo the group order on 32-byte keys (crypto/curve25519/edwards_25519_scalar.go). The result key may
    be one of the operands: every function reads its inputs before it writes. */
module Scalars {
  import opened Arith
  import opened Arrays
  import opened Bytes
  import opened MachineInts
  import opened ScalarBytes
  import opened ScalarLimbs
  import opened ScalarProduct

  lemma Residue(r: int, v: int, q: int)
    requires 0 <= r < ELL && r == v - ELL * q
    ensures v % ELL == r
  {
    Quotient(v, ELL, q, r);
  }

  /** Twelve limbs of any sign as a key. */
  method CanonicalKey(
      s0: Abs58, s1: Abs58, s2: Abs58, s3: Abs58, s4: Abs58, s5: Abs58, s6: Abs58, s7: Abs58, s8: Abs58, s9: Abs58,
      s10: Abs58, s11: Abs58)
    returns (k: seq<byte>, ghost q: int)
    ensures |k| == 32 && 0 <= LE(k) < ELL
    ensures LE(k) == Val(L12(s0, s1, s2, s3, s4, s5, s6, s7, s8, s9, s10, s11)) - ELL * q
  {
    var r0, r1, r2, r3, r4, r5, r6, r7, r8, r9, r10, r11;
    r0, r1, r2, r3, r4, r5, r6, r7, r8, r9, r10, r11, q :=
      Canonicalise(s0, s1, s2, s3, s4, s5, s6, s7, s8, s9, s10, s11);
    k := Pack32(r0, r1, r2, r3, r4, r5, r6, r7, r8, r9, r10, r11);
    ValOfL12(s0, s1, s2, s3, s4, s5, s6, s7, s8, s9, s10, s11);
  }

  /** FoldHigh, its limbs taken as lists. */
  method FoldLists(
      s0: Abs32, s1: Abs32, s2: Abs32, s3: Abs32, s4: Abs32, s5: Abs32, s6: Abs32, s7: Abs32, s8: Abs32, s9: Abs32,
      s10: Abs32, s11: Abs32, s12: Abs32, s13: Abs32, s14: Abs32, s15: Abs32, s16: Abs32, s17: Abs32, s18: Abs32,
      s19: Abs32, s20: Abs32, s21: Abs32, s22: Abs32, s23: Abs32)
    returns (
      r0: Abs58, r1: Abs58, r2: Abs58, r3: Abs58, r4: Abs58, r5: Abs58, r6: Abs58, r7: Abs58, r8: Abs58, r9: Abs58,
      r10: Abs58, r11: Abs58, ghost q: int)
    ensures Val(L12(r0, r1, r2, r3, r4, r5, r6, r7, r8, r9, r10, r11))
      == Val(L12(s0, s1, s2, s3, s4, s5, s6, s7, s8, s9, s10, s11))
        + (ELL - DELTA) * Val(L12(s12, s13, s14, s15, s16, s17, s18, s19, s20, s21, s22, s23))
        - ELL * q
  {
    r0, r1, r2, r3, r4, r5, r6, r7, r8, r9, r10, r11, q :=
      FoldHigh(s0, s1, s2, s3, s4, s5, s6, s7, s8, s9, s10, s11, s12, s13, s14, s15, s16, s17, s18, s19, s20, s21,
        s22, s23);
    ValOfL12(s0, s1, s2, s3, s4, s5, s6, s7, s8, s9, s10, s11);
    ValOfL12(s12, s13, s14, s15, s16, s17, s18, s19, s20, s21, s22, s23);
    ValOfL12(r0, r1, r2, r3, r4, r5, r6, r7, r8, r9, r10, r11);
  }

  /** CarryProduct, its limbs taken as lists. */
  method CarryLists(
      s0: Abs52, s1: Abs52, s2: Abs52, s3: Abs52, s4: Abs52, s5: Abs52, s6: Abs52, s7: Abs52, s8: Abs52, s9: Abs52,
      s10: Abs52, s11: Abs52, s12: Abs52, s13: Abs52, s14: Abs52, s15: Abs52, s16: Abs52, s17: Abs52, s18: Abs52,
      s19: Abs52, s20: Abs52, s21: Abs52, s22: Abs52)
    returns (
      r0: Abs32, r1: Abs32, r2: Abs32, r3: Abs32, r4: Abs32, r5: Abs32, r6: Abs32, r7: Abs32, r8: Abs32, r9: Abs32,
      r10: Abs32, r11: Abs32, r12: Abs32, r13: Abs32, r14: Abs32, r15: Abs32, r16: Abs32, r17: Abs32, r18: Abs32,
      r19: Abs32, r20: Abs32, r21: Abs32, r22: Abs32, r23: Abs32)
    ensures Val(L12(r0, r1, r2, r3, r4, r5, r6, r7, r8, r9, r10, r11))
        + (ELL - DELTA) * Val(L12(r12, r13, r14, r15, r16, r17, r18, r19, r20, r21, r22, r23))
      ==
      s0 as int + 0x20_0000 * s1 as int + 0x400_0000_0000 * s2 as int + 0x8000_0000_0000_0000 * s3 as int +
      0x10_0000_0000_0000_0000_0000 * s4 as int + 0x200_0000_0000_0000_0000_0000_0000 * s5 as int +
      0x4000_0000_0000_0000_0000_0000_0000_0000 * s6 as int +
      0x8_0000_0000_0000_0000_0000_0000_0000_0000_0000 * s7 as int +
      0x100_0000_0000_0000_0000_0000_0000_0000_0000_0000_0000 * s8 as int +
      0x2000_0000_0000_0000_0000_0000_0000_0000_0000_0000_0000_0000 * s9 as int +
      0x4_0000_0000_0000_0000_0000_0000_0000_0000_0000_0000_0000_0000_0000 * s10 as int +
      0x80_0000_0000_0000_0000_0000_0000_0000_0000_0000_0000_0000_0000_0000_0000 * Val(L12(s11, s12, s13, s14, s15,
        s16, s17, s18, s19, s20, s21, s22))
  {
    r0, r1, r2, r3, r4, r5, r6, r7, r8, r9, r10, r11, r12, r13, r14, r15, r16, r17, r18, r19, r20, r21, r22, r23 :=
      CarryProduct(s0, s1, s2, s3, s4, s5, s6, s7, s8, s9, s10, s11, s12, s13, s14, s15, s16, s17, s18, s19, s20,
        s21, s22);
    ValOfL12(s11, s12, s13, s14, s15, s16, s17, s18, s19, s20, s21, s22);
    ValOfL12(r0, r1, r2, r3, r4, r5, r6, r7, r8, r9, r10, r11);
    ValOfL12(r12, r13, r14, r15, r16, r17, r18, r19, r20, r21, r22, r23);
  }

  /** (c + a * b) mod L, for limbs of `a` of either sign. */
  method MulAddLimbs(
      a0: Abs21, a1: Abs21, a2: Abs21, a3: Abs21, a4: Abs21, a5: Abs21, a6: Abs21, a7: Abs21, a8: Abs21, a9: Abs21,
      a10: Abs21, a11: Abs25, b0: U21, b1: U21, b2: U21, b3: U21, b4: U21, b5: U21, b6: U21, b7: U21, b8: U21,
      b9: U21, b10: U21, b11: U25, c0: U21, c1: U21, c2: U21, c3: U21, c4: U21, c5: U21, c6: U21, c7: U21, c8: U21,
      c9: U21, c10: U21, c11: U25)
    returns (k: seq<byte>, ghost q: int)
    ensures |k| == 32 && 0 <= LE(k) < ELL
    ensures LE(k) == Val(L12(c0, c1, c2, c3, c4, c5, c6, c7, c8, c9, c10, c11))
      + Val(L12(a0, a1, a2, a3, a4, a5, a6, a7, a8, a9, a10, a11))
      * Val(L12(b0, b1, b2, b3, b4, b5, b6, b7, b8, b9, b10, b11))
      - ELL * q
  {
    var s0, s1, s2, s3, s4, s5, s6, s7, s8, s9, s10, s11, s12, s13, s14, s15, s16, s17, s18, s19, s20, s21, s22 :=
      Columns(a0, a1, a2, a3, a4, a5, a6, a7, a8, a9, a10, a11, b0, b1, b2, b3, b4, b5, b6, b7, b8, b9, b10, b11,
        c0, c1, c2, c3, c4, c5, c6, c7, c8, c9, c10, c11);
    var t0, t1, t2, t3, t4, t5, t6, t7, t8, t9, t10, t11, t12, t13, t14, t15, t16, t17, t18, t19, t20, t21, t22,
      t23 :=
      CarryLists(s0, s1, s2, s3, s4, s5, s6, s7, s8, s9, s10, s11, s12, s13, s14, s15, s16, s17, s18, s19, s20,
        s21, s22);
    var u0, u1, u2, u3, u4, u5, u6, u7, u8, u9, u10, u11, q0 :=
      FoldLists(t0, t1, t2, t3, t4, t5, t6, t7, t8, t9, t10, t11, t12, t13, t14, t15, t16, t17, t18, t19, t20, t21,
        t22, t23);
    k, q := CanonicalKey(u0, u1, u2, u3, u4, u5, u6, u7, u8, u9, u10, u11);
    q := q + q0;
  }

  lemma {:induction false} SumOfLists(a: seq<int64>, b: seq<int64>, s: seq<int64>)
    requires |a| == |b| == |s|
    requires forall i :: 0 <= i < |s| ==> s[i] as int == a[i] as int + b[i] as int
    ensures Val(s) == Val(a) + Val(b)
  {
    if s != [] {
      SumOfLists(a[1..], b[1..], s[1..]);
    }
  }

  lemma SumOfLimbs(
      a0: int64, a1: int64, a2: int64, a3: int64, a4: int64, a5: int64, a6: int64, a7: int64, a8: int64, a9: int64,
      a10: int64, a11: int64, b0: int64, b1: int64, b2: int64, b3: int64, b4: int64, b5: int64, b6: int64, b7: int64,
      b8: int64, b9: int64, b10: int64, b11: int64, s0: int64, s1: int64, s2: int64, s3: int64, s4: int64, s5: int64,
      s6: int64, s7: int64, s8: int64, s9: int64, s10: int64, s11: int64)
    requires s0 as int == a0 as int + b0 as int && s1 as int == a1 as int + b1 as int && s2 as int
      == a2 as int + b2 as int
    requires s3 as int == a3 as int + b3 as int && s4 as int == a4 as int + b4 as int && s5 as int
      == a5 as int + b5 as int
    requires s6 as int == a6 as int + b6 as int && s7 as int == a7 as int + b7 as int && s8 as int
      == a8 as int + b8 as int
    requires s9 as int == a9 as int + b9 as int && s10 as int == a10 as int + b10 as int && s11 as int
      == a11 as int + b11 as int
    ensures Val(L12(s0, s1, s2, s3, s4, s5, s6, s7, s8, s9, s10, s11))
      == Val(L12(a0, a1, a2, a3, a4, a5, a6, a7, a8, a9, a10, a11)) + Val(L12(b0, b1, b2, b3, b4, b5, b6, b7, b8,
        b9, b10, b11))
  {
    SumOfLists(L12(a0, a1, a2, a3, a4, a5, a6, a7, a8, a9, a10, a11), L12(b0, b1, b2, b3, b4, b5, b6, b7, b8, b9,
      b10, b11), L12(s0, s1, s2, s3, s4, s5, s6, s7, s8, s9, s10, s11));
  }

  /** s = (a * b + c) mod L. */
  method ScMulAdd(s: array<byte>, a: array<byte>, b: array<byte>, c: array<byte>)
    requires s.Length == 32 && a.Length == 32 && b.Length == 32 && c.Length == 32
    modifies s
    ensures LE(s[..]) == (old(LE(a[..])) * old(LE(b[..])) + old(LE(c[..]))) % ELL
  {
    var a0, a1, a2, a3, a4, a5, a6, a7, a8, a9, a10, a11 := Load32(a[..]);
    var b0, b1, b2, b3, b4, b5, b6, b7, b8, b9, b10, b11 := Load32(b[..]);
    var c0, c1, c2, c3, c4, c5, c6, c7, c8, c9, c10, c11 := Load32(c[..]);
    var k, q := MulAddLimbs(a0, a1, a2, a3, a4, a5, a6, a7, a8, a9, a10, a11, b0, b1, b2, b3, b4, b5, b6, b7, b8,
      b9, b10, b11, c0, c1, c2, c3, c4, c5, c6, c7, c8, c9, c10, c11);
    Store(s, k);
    Residue(LE(k), old(LE(a[..])) * old(LE(b[..])) + old(LE(c[..])), q);
  }

  lemma ZeroList()
    ensures Val(L12(0, 0, 0, 0, 0, 0, 0, 0, 0, 0, 0, 0)) == 0
  {
    SumOfLimbs(0, 0, 0, 0, 0, 0, 0, 0, 0, 0, 0, 0, 0, 0, 0, 0, 0, 0, 0, 0, 0, 0, 0, 0, 0, 0, 0, 0, 0, 0, 0, 0, 0,
      0, 0, 0);
  }

  /** s = (a * b) mod L. */
  method ScMul(s: array<byte>, a: array<byte>, b: array<byte>)
    requires s.Length == 32 && a.Length == 32 && b.Length == 32
    modifies s
    ensures LE(s[..]) == (old(LE(a[..])) * old(LE(b[..]))) % ELL
  {
    var a0, a1, a2, a3, a4, a5, a6, a7, a8, a9, a10, a11 := Load32(a[..]);
    var b0, b1, b2, b3, b4, b5, b6, b7, b8, b9, b10, b11 := Load32(b[..]);
    var k, q := MulAddLimbs(a0, a1, a2, a3, a4, a5, a6, a7, a8, a9, a10, a11, b0, b1, b2, b3, b4, b5, b6, b7, b8,
      b9, b10, b11, 0, 0, 0, 0, 0, 0, 0, 0, 0, 0, 0, 0);
    ZeroList();
    Store(s, k);
    Residue(LE(k), old(LE(a[..])) * old(LE(b[..])), q);
  }

  lemma NegatedFactor(a: int, na: int, b: int)
    requires na == -a
    ensures na * b == -(a * b)
  {
  }

  /** The limbs of the key, each with its sign changed. */
  method LoadNegated(a: seq<byte>)
    returns (
      n0: Abs21, n1: Abs21, n2: Abs21, n3: Abs21, n4: Abs21, n5: Abs21, n6: Abs21, n7: Abs21, n8: Abs21, n9: Abs21,
      n10: Abs21, n11: Abs25)
    requires |a| == 32
    ensures Val(L12(n0, n1, n2, n3, n4, n5, n6, n7, n8, n9, n10, n11)) == -LE(a)
  {
    var a0, a1, a2, a3, a4, a5, a6, a7, a8, a9, a10, a11 := Load32(a);
    n0, n1, n2, n3, n4, n5, n6, n7, n8, n9, n10, n11 :=
      -(a0 as int64), -(a1 as int64), -(a2 as int64), -(a3 as int64), -(a4 as int64), -(a5 as int64),
        -(a6 as int64), -(a7 as int64), -(a8 as int64), -(a9 as int64), -(a10 as int64), -(a11 as int64);
    SumOfLimbs(a0, a1, a2, a3, a4, a5, a6, a7, a8, a9, a10, a11, n0, n1, n2, n3, n4, n5, n6, n7, n8, n9, n10, n11,
      0, 0, 0, 0, 0, 0, 0, 0, 0, 0, 0, 0);
    ZeroList();
  }

  /** s = (c - a * b) mod L. */
  method ScMulSub(s: array<byte>, a: array<byte>, b: array<byte>, c: array<byte>)
    requires s.Length == 32 && a.Length == 32 && b.Length == 32 && c.Length == 32
    modifies s
    ensures LE(s[..]) == (old(LE(c[..])) - old(LE(a[..])) * old(LE(b[..]))) % ELL
  {
    var n0, n1, n2, n3, n4, n5, n6, n7, n8, n9, n10, n11 := LoadNegated(a[..]);
    var b0, b1, b2, b3, b4, b5, b6, b7, b8, b9, b10, b11 := Load32(b[..]);
    var c0, c1, c2, c3, c4, c5, c6, c7, c8, c9, c10, c11 := Load32(c[..]);
    var k, q := MulAddLimbs(n0, n1, n2, n3, n4, n5, n6, n7, n8, n9, n10, n11, b0, b1, b2, b3, b4, b5, b6, b7, b8,
      b9, b10, b11, c0, c1, c2, c3, c4, c5, c6, c7, c8, c9, c10, c11);
    NegatedFactor(LE(a[..]), -LE(a[..]), LE(b[..]));
    Store(s, k);
    Residue(LE(k), old(LE(c[..])) - old(LE(a[..])) * old(LE(b[..])), q);
  }

  /** s = (a + b) mod L. */
  method ScAdd(s: array<byte>, a: array<byte>, b: array<byte>)
    requires s.Length == 32 && a.Length == 32 && b.Length == 32
    modifies s
    ensures LE(s[..]) == (old(LE(a[..])) + old(LE(b[..]))) % ELL
  {
    var a0, a1, a2, a3, a4, a5, a6, a7, a8, a9, a10, a11 := Load32(a[..]);
    var b0, b1, b2, b3, b4, b5, b6, b7, b8, b9, b10, b11 := Load32(b[..]);
    var s0: int64, s1: int64, s2: int64, s3: int64, s4: int64, s5: int64, s6: int64, s7: int64, s8: int64,
      s9: int64, s10: int64, s11: int64 :=
      a0 as int64 + b0, a1 as int64 + b1, a2 as int64 + b2, a3 as int64 + b3, a4 as int64 + b4, a5 as int64 + b5,
        a6 as int64 + b6, a7 as int64 + b7, a8 as int64 + b8, a9 as int64 + b9, a10 as int64 + b10,
        a11 as int64 + b11;
    var k, q := CanonicalKey(s0, s1, s2, s3, s4, s5, s6, s7, s8, s9, s10, s11);
    SumOfLimbs(a0, a1, a2, a3, a4, a5, a6, a7, a8, a9, a10, a11, b0, b1, b2, b3, b4, b5, b6, b7, b8, b9, b10, b11,
      s0, s1, s2, s3, s4, s5, s6, s7, s8, s9, s10, s11);
    Store(s, k);
    Residue(LE(k), old(LE(a[..])) + old(LE(b[..])), q);
  }

  /** s = (a - b) mod L. */
  method ScSub(s: array<byte>, a: array<byte>, b: array<byte>)
    requires s.Length == 32 && a.Length == 32 && b.Length == 32
    modifies s
    ensures LE(s[..]) == (old(LE(a[..])) - old(LE(b[..]))) % ELL
  {
    var a0, a1, a2, a3, a4, a5, a6, a7, a8, a9, a10, a11 := Load32(a[..]);
    var b0, b1, b2, b3, b4, b5, b6, b7, b8, b9, b10, b11 := Load32(b[..]);
    var s0: int64, s1: int64, s2: int64, s3: int64, s4: int64, s5: int64, s6: int64, s7: int64, s8: int64,
      s9: int64, s10: int64, s11: int64 :=
      a0 as int64 - b0, a1 as int64 - b1, a2 as int64 - b2, a3 as int64 - b3, a4 as int64 - b4, a5 as int64 - b5,
        a6 as int64 - b6, a7 as int64 - b7, a8 as int64 - b8, a9 as int64 - b9, a10 as int64 - b10,
        a11 as int64 - b11;
    var k, q := CanonicalKey(s0, s1, s2, s3, s4, s5, s6, s7, s8, s9, s10, s11);
    SumOfLimbs(s0, s1, s2, s3, s4, s5, s6, s7, s8, s9, s10, s11, b0, b1, b2, b3, b4, b5, b6, b7, b8, b9, b10, b11,
      a0, a1, a2, a3, a4, a5, a6, a7, a8, a9, a10, a11);
    Store(s, k);
    Residue(LE(k), old(LE(a[..])) - old(LE(b[..])), q);
  }

  /** out = s mod L for a 64-byte s. */
  method ScReduce(out: array<byte>, s: array<byte>)
    requires out.Length == 32 && s.Length == 64
    modifies out
    ensures LE(out[..]) == LE(s[..]) % ELL
  {
    var s0, s1, s2, s3, s4, s5, s6, s7, s8, s9, s10, s11, s12, s13, s14, s15, s16, s17, s18, s19, s20, s21, s22,
      s23 := Load64(s[..]);
    var u0, u1, u2, u3, u4, u5, u6, u7, u8, u9, u10, u11, q0 :=
      FoldLists(s0, s1, s2, s3, s4, s5, s6, s7, s8, s9, s10, s11, s12, s13, s14, s15, s16, s17, s18, s19, s20, s21,
        s22, s23);
    var k, q := CanonicalKey(u0, u1, u2, u3, u4, u5, u6, u7, u8, u9, u10, u11);
    Residue(LE(k), LE(s[..]), q + q0);
    Store(out, k);
  }

  /** s = s mod L in place. */
  method ScReduce32(s: array<byte>)
    requires s.Length == 32
    modifies s
    ensures LE(s[..]) == old(LE(s[..])) % ELL
  {
    var s0, s1, s2, s3, s4, s5, s6, s7, s8, s9, s10, s11 := Load32(s[..]);
    var k, q := CanonicalKey(s0, s1, s2, s3, s4, s5, s6, s7, s8, s9, s10, s11);
    Residue(LE(k), LE(s[..]), q);
    Store(s, k);
  }
}
