/** Scalars as limbs of 21 bits, limb i weighing 2^(21 i), and the carry and fold steps of
    crypto/curve25519/edwards_25519_scalar.go on them.

    `int64` is a bounded type, so every `+`, `-` and `*` carries a proof that it stays in 64 bits. The limb types say
    how wide a limb is at a given point: U21 is a limb of exactly 21 bits, AbsN one of magnitude at most 2^N. */
module ScalarLimbs {
  import opened MachineInts

  type U21 = x: int64 | 0 <= x < 0x20_0000
  type U22 = x: int64 | 0 <= x < 0x40_0000
  type U25 = x: int64 | 0 <= x < 0x200_0000
  type U29 = x: int64 | 0 <= x < 0x2000_0000
  type Half = x: int64 | -0x10_0000 <= x < 0x10_0000
  type Sign = x: int64 | -1 <= x <= 0
  type Abs21 = x: int64 | -0x20_0000 <= x <= 0x20_0000
  type Abs25 = x: int64 | -0x200_0000 <= x <= 0x200_0000
  type Abs32 = x: int64 | -0x1_0000_0000 <= x <= 0x1_0000_0000
  type Abs35 = x: int64 | -0x8_0000_0000 <= x <= 0x8_0000_0000
  type Abs38 = x: int64 | -0x40_0000_0000 <= x <= 0x40_0000_0000
  type Abs52 = x: int64 | -0x10_0000_0000_0000 <= x <= 0x10_0000_0000_0000
  type Abs54 = x: int64 | -0x40_0000_0000_0000 <= x <= 0x40_0000_0000_0000
  type Abs55 = x: int64 | -0x80_0000_0000_0000 <= x <= 0x80_0000_0000_0000
  type Abs57 = x: int64 | -0x200_0000_0000_0000 <= x <= 0x200_0000_0000_0000
  type Abs58 = x: int64 | -0x400_0000_0000_0000 <= x <= 0x400_0000_0000_0000
  type Abs59 = x: int64 | -0x800_0000_0000_0000 <= x <= 0x800_0000_0000_0000
  type Abs60 = x: int64 | -0x1000_0000_0000_0000 <= x <= 0x1000_0000_0000_0000
  type Abs61 = x: int64 | -0x2000_0000_0000_0000 <= x <= 0x2000_0000_0000_0000
  type Next52 = x: int64 | -0x10_0001_0000_0000 <= x <= 0x10_0001_0000_0000

  /** The group order of section 5.1 of RFC 8032, and its excess over 2^252. */
  const ELL: int := 0x1000_0000_0000_0000_0000_0000_0000_0000_14de_f9de_a2f7_9cd6_5812_631a_5cf5_d3ed
  const DELTA: int := 0x14de_f9de_a2f7_9cd6_5812_631a_5cf5_d3ed

  /** The number a list of limbs stands for. */
  ghost function Val(s: seq<int64>): int {
    if s == [] then 0 else s[0] as int + 0x20_0000 * Val(s[1..])
  }

  // Val, spelled out for the lengths that occur.

  ghost function V3(x0: int64, x1: int64, x2: int64): int {
    x0 as int + 0x20_0000 * x1 as int + 0x400_0000_0000 * x2 as int
  }

  ghost function V6(x0: int64, x1: int64, x2: int64, x3: int64, x4: int64, x5: int64): int {
    V3(x0, x1, x2) + 0x8000_0000_0000_0000 * V3(x3, x4, x5)
  }

  ghost function V8(x0: int64, x1: int64, x2: int64, x3: int64, x4: int64, x5: int64, x6: int64, x7: int64): int {
    V6(x0, x1, x2, x3, x4, x5) + 0x4000_0000_0000_0000_0000_0000_0000_0000 * (x6 as int + 0x20_0000 * x7 as int)
  }

  ghost function V12(x0: int64, x1: int64, x2: int64, x3: int64, x4: int64, x5: int64,
                     x6: int64, x7: int64, x8: int64, x9: int64, x10: int64, x11: int64): int {
    V6(x0, x1, x2, x3, x4, x5) + 0x4000_0000_0000_0000_0000_0000_0000_0000 * V6(x6, x7, x8, x9, x10, x11)
  }

  lemma ValOf3(s: seq<int64>)
    requires |s| >= 3
    ensures Val(s) == V3(s[0], s[1], s[2]) + 0x8000_0000_0000_0000 * Val(s[3..])
  {
    assert s[1..][1..] == s[2..] && s[2..][1..] == s[3..];
    assert Val(s[1..]) == s[1] as int + 0x20_0000 * Val(s[2..]);
    assert Val(s[2..]) == s[2] as int + 0x20_0000 * Val(s[3..]);
  }

  lemma ValOf6(s: seq<int64>)
    requires |s| >= 6
    ensures Val(s) == V6(s[0], s[1], s[2], s[3], s[4], s[5]) + 0x4000_0000_0000_0000_0000_0000_0000_0000 * Val(s[6..])
  {
    ValOf3(s);
    ValOf3(s[3..]);
    assert s[3..][3..] == s[6..];
  }

  lemma ValOf12(s: seq<int64>)
    requires |s| >= 12
    ensures Val(s) == V12(s[0], s[1], s[2], s[3], s[4], s[5], s[6], s[7], s[8], s[9], s[10], s[11])
                      + (ELL - DELTA) * Val(s[12..])
  {
    ValOf6(s);
    ValOf6(s[6..]);
    assert s[6..][6..] == s[12..];
  }

  /** Twelve limbs as a list. */
  ghost function L12(
      x0: int64, x1: int64, x2: int64, x3: int64, x4: int64, x5: int64, x6: int64, x7: int64, x8: int64, x9: int64,
      x10: int64, x11: int64): seq<int64> {
    [x0, x1, x2, x3, x4, x5, x6, x7, x8, x9, x10, x11]
  }

  lemma ValOfL12(
      x0: int64, x1: int64, x2: int64, x3: int64, x4: int64, x5: int64, x6: int64, x7: int64, x8: int64, x9: int64,
      x10: int64, x11: int64)
    ensures Val(L12(x0, x1, x2, x3, x4, x5, x6, x7, x8, x9, x10, x11))
      == V12(x0, x1, x2, x3, x4, x5, x6, x7, x8, x9, x10, x11)
  {
    ValOf12(L12(x0, x1, x2, x3, x4, x5, x6, x7, x8, x9, x10, x11));
  }

  /** A carry rounded to the nearest, so that what stays is centred around zero. */
  method RoundCarry(lo: Abs61, hi: Abs61) returns (lo': Half, hi': int64)
    ensures lo' as int + 0x20_0000 * hi' as int == lo as int + 0x20_0000 * hi as int
  {
    var carry := (lo + 0x10_0000) / 0x20_0000;
    hi' := hi + carry;
    lo' := lo - carry * 0x20_0000;
  }

  /** A carry rounded down, so that what stays is not negative. */
  method FloorCarry(lo: Abs61, hi: Abs61) returns (lo': U21, hi': int64)
    ensures lo' as int + 0x20_0000 * hi' as int == lo as int + 0x20_0000 * hi as int
  {
    var carry := lo / 0x20_0000;
    hi' := hi + carry;
    lo' := lo - carry * 0x20_0000;
  }

  /** Clears limb i + 12, here `x`: limbs i to i + 5 absorb x * -DELTA, the residue of 2^252. `X` bounds |x|. */
  method Fold(x: Abs38, s0: Abs60, s1: Abs60, s2: Abs60, s3: Abs60, s4: Abs60, s5: Abs60, ghost X: int)
    returns (r0: int64, r1: int64, r2: int64, r3: int64, r4: int64, r5: int64)
    requires -X <= x as int <= X
    ensures -0x10_0000 * X <= r0 as int - s0 as int <= 0x10_0000 * X
    ensures -0x10_0000 * X <= r1 as int - s1 as int <= 0x10_0000 * X
    ensures -0x10_0000 * X <= r2 as int - s2 as int <= 0x10_0000 * X
    ensures -0x10_0000 * X <= r3 as int - s3 as int <= 0x10_0000 * X
    ensures -0x10_0000 * X <= r4 as int - s4 as int <= 0x10_0000 * X
    ensures -0x10_0000 * X <= r5 as int - s5 as int <= 0x10_0000 * X
    ensures r0 == s0 + x * 666643 && r1 == s1 + x * 470296 && r2 == s2 + x * 654183
    ensures r3 == s3 - x * 997805 && r4 == s4 + x * 136657 && r5 == s5 - x * 683901
  {
    r0 := s0 + x * 666643;
    r1 := s1 + x * 470296;
    r2 := s2 + x * 654183;
    r3 := s3 - x * 997805;
    r4 := s4 + x * 136657;
    r5 := s5 - x * 683901;
  }

  /** The even half of the first carry pass over a product. */
  method CarryEven(
      s0: Abs52, s1: Abs52, s2: Abs52, s3: Abs52, s4: Abs52, s5: Abs52, s6: Abs52, s7: Abs52, s8: Abs52, s9: Abs52,
      s10: Abs52, s11: Abs52, s12: Abs52, s13: Abs52, s14: Abs52, s15: Abs52, s16: Abs52, s17: Abs52, s18: Abs52,
      s19: Abs52, s20: Abs52, s21: Abs52, s22: Abs52)
    returns (
      r0: Half, r1: Next52, r2: Half, r3: Next52, r4: Half, r5: Next52, r6: Half, r7: Next52, r8: Half, r9: Next52,
      r10: Half, r11: Next52, r12: Half, r13: Next52, r14: Half, r15: Next52, r16: Half, r17: Next52, r18: Half,
      r19: Next52, r20: Half, r21: Next52, r22: Half, r23: Abs32)
    ensures V12(r0, r1, r2, r3, r4, r5, r6, r7, r8, r9, r10, r11)
        + (ELL - DELTA) * V12(r12, r13, r14, r15, r16, r17, r18, r19, r20, r21, r22, r23)
      == V12(s0, s1, s2, s3, s4, s5, s6, s7, s8, s9, s10, s11)
        + (ELL - DELTA) * V12(s12, s13, s14, s15, s16, s17, s18, s19, s20, s21, s22, 0)
  {
    var t0: int64 := s0; var t1: int64 := s1; var t2: int64 := s2; var t3: int64 := s3; var t4: int64 := s4;
    var t5: int64 := s5; var t6: int64 := s6; var t7: int64 := s7; var t8: int64 := s8; var t9: int64 := s9;
    var t10: int64 := s10; var t11: int64 := s11; var t12: int64 := s12; var t13: int64 := s13;
    var t14: int64 := s14; var t15: int64 := s15; var t16: int64 := s16; var t17: int64 := s17;
    var t18: int64 := s18; var t19: int64 := s19; var t20: int64 := s20; var t21: int64 := s21;
    var t22: int64 := s22; var t23: int64 := 0;
    t0, t1 := RoundCarry(t0, t1);
    t2, t3 := RoundCarry(t2, t3);
    t4, t5 := RoundCarry(t4, t5);
    t6, t7 := RoundCarry(t6, t7);
    t8, t9 := RoundCarry(t8, t9);
    t10, t11 := RoundCarry(t10, t11);
    t12, t13 := RoundCarry(t12, t13);
    t14, t15 := RoundCarry(t14, t15);
    t16, t17 := RoundCarry(t16, t17);
    t18, t19 := RoundCarry(t18, t19);
    t20, t21 := RoundCarry(t20, t21);
    t22, t23 := RoundCarry(t22, t23);
    r0, r1, r2, r3, r4, r5, r6, r7, r8, r9, r10, r11, r12, r13, r14, r15, r16, r17, r18, r19, r20, r21, r22, r23 :=
      t0, t1, t2, t3, t4, t5, t6, t7, t8, t9, t10, t11, t12, t13, t14, t15, t16, t17, t18, t19, t20, t21, t22, t23;
  }

  /** The odd half. */
  method CarryOdd(
      s0: Half, s1: Next52, s2: Half, s3: Next52, s4: Half, s5: Next52, s6: Half, s7: Next52, s8: Half, s9: Next52,
      s10: Half, s11: Next52, s12: Half, s13: Next52, s14: Half, s15: Next52, s16: Half, s17: Next52, s18: Half,
      s19: Next52, s20: Half, s21: Next52, s22: Half, s23: Abs32)
    returns (
      r0: Abs32, r1: Abs32, r2: Abs32, r3: Abs32, r4: Abs32, r5: Abs32, r6: Abs32, r7: Abs32, r8: Abs32, r9: Abs32,
      r10: Abs32, r11: Abs32, r12: Abs32, r13: Abs32, r14: Abs32, r15: Abs32, r16: Abs32, r17: Abs32, r18: Abs32,
      r19: Abs32, r20: Abs32, r21: Abs32, r22: Abs32, r23: Abs32)
    ensures V12(r0, r1, r2, r3, r4, r5, r6, r7, r8, r9, r10, r11)
        + (ELL - DELTA) * V12(r12, r13, r14, r15, r16, r17, r18, r19, r20, r21, r22, r23)
      == V12(s0, s1, s2, s3, s4, s5, s6, s7, s8, s9, s10, s11)
        + (ELL - DELTA) * V12(s12, s13, s14, s15, s16, s17, s18, s19, s20, s21, s22, s23)
  {
    var t0: int64 := s0; var t1: int64 := s1; var t2: int64 := s2; var t3: int64 := s3; var t4: int64 := s4;
    var t5: int64 := s5; var t6: int64 := s6; var t7: int64 := s7; var t8: int64 := s8; var t9: int64 := s9;
    var t10: int64 := s10; var t11: int64 := s11; var t12: int64 := s12; var t13: int64 := s13;
    var t14: int64 := s14; var t15: int64 := s15; var t16: int64 := s16; var t17: int64 := s17;
    var t18: int64 := s18; var t19: int64 := s19; var t20: int64 := s20; var t21: int64 := s21;
    var t22: int64 := s22; var t23: int64 := s23;
    t1, t2 := RoundCarry(t1, t2);
    t3, t4 := RoundCarry(t3, t4);
    t5, t6 := RoundCarry(t5, t6);
    t7, t8 := RoundCarry(t7, t8);
    t9, t10 := RoundCarry(t9, t10);
    t11, t12 := RoundCarry(t11, t12);
    t13, t14 := RoundCarry(t13, t14);
    t15, t16 := RoundCarry(t15, t16);
    t17, t18 := RoundCarry(t17, t18);
    t19, t20 := RoundCarry(t19, t20);
    t21, t22 := RoundCarry(t21, t22);
    r0, r1, r2, r3, r4, r5, r6, r7, r8, r9, r10, r11, r12, r13, r14, r15, r16, r17, r18, r19, r20, r21, r22, r23 :=
      t0, t1, t2, t3, t4, t5, t6, t7, t8, t9, t10, t11, t12, t13, t14, t15, t16, t17, t18, t19, t20, t21, t22, t23;
  }

  /** The first carry pass over a product: all even limbs, then all odd ones. */
  method CarryProduct(
      s0: Abs52, s1: Abs52, s2: Abs52, s3: Abs52, s4: Abs52, s5: Abs52, s6: Abs52, s7: Abs52, s8: Abs52, s9: Abs52,
      s10: Abs52, s11: Abs52, s12: Abs52, s13: Abs52, s14: Abs52, s15: Abs52, s16: Abs52, s17: Abs52, s18: Abs52,
      s19: Abs52, s20: Abs52, s21: Abs52, s22: Abs52)
    returns (
      r0: Abs32, r1: Abs32, r2: Abs32, r3: Abs32, r4: Abs32, r5: Abs32, r6: Abs32, r7: Abs32, r8: Abs32, r9: Abs32,
      r10: Abs32, r11: Abs32, r12: Abs32, r13: Abs32, r14: Abs32, r15: Abs32, r16: Abs32, r17: Abs32, r18: Abs32,
      r19: Abs32, r20: Abs32, r21: Abs32, r22: Abs32, r23: Abs32)
    ensures V12(r0, r1, r2, r3, r4, r5, r6, r7, r8, r9, r10, r11)
        + (ELL - DELTA) * V12(r12, r13, r14, r15, r16, r17, r18, r19, r20, r21, r22, r23)
      == V12(s0, s1, s2, s3, s4, s5, s6, s7, s8, s9, s10, s11)
        + (ELL - DELTA) * V12(s12, s13, s14, s15, s16, s17, s18, s19, s20, s21, s22, 0)
  {
    var t0, t1, t2, t3, t4, t5, t6, t7, t8, t9, t10, t11, t12, t13, t14, t15, t16, t17, t18, t19, t20, t21, t22, t23 :=
      CarryEven(s0, s1, s2, s3, s4, s5, s6, s7, s8, s9, s10, s11, s12, s13, s14, s15, s16, s17, s18, s19, s20, s21,
      s22);
    r0, r1, r2, r3, r4, r5, r6, r7, r8, r9, r10, r11, r12, r13, r14, r15, r16, r17, r18, r19, r20, r21, r22, r23 :=
      CarryOdd(t0, t1, t2, t3, t4, t5, t6, t7, t8, t9, t10, t11, t12, t13, t14, t15, t16, t17, t18, t19, t20, t21,
      t22, t23);
  }

  /** Folds limbs 23, 22 and 21. */
  method Fold23To21(
      s9: Abs32, s10: Abs32, s11: Abs32, s12: Abs32, s13: Abs32, s14: Abs32, s15: Abs32, s16: Abs32, s21: Abs32,
      s22: Abs32, s23: Abs32)
    returns (r9: Abs54, r10: Abs54, r11: Abs54, r12: Abs54, r13: Abs54, r14: Abs54, r15: Abs54, r16: Abs54)
    ensures V8(r9, r10, r11, r12, r13, r14, r15, r16)
      == V8(s9, s10, s11, s12, s13, s14, s15, s16) - DELTA * V3(s21, s22, s23)
  {
    var t9: int64 := s9; var t10: int64 := s10; var t11: int64 := s11; var t12: int64 := s12; var t13: int64 := s13;
    var t14: int64 := s14; var t15: int64 := s15; var t16: int64 := s16;
    t11, t12, t13, t14, t15, t16 := Fold(s23, t11, t12, t13, t14, t15, t16, 0x1_0000_0000);
    t10, t11, t12, t13, t14, t15 := Fold(s22, t10, t11, t12, t13, t14, t15, 0x1_0000_0000);
    t9, t10, t11, t12, t13, t14 := Fold(s21, t9, t10, t11, t12, t13, t14, 0x1_0000_0000);
    r9, r10, r11, r12, r13, r14, r15, r16 := t9, t10, t11, t12, t13, t14, t15, t16;
  }

  /** Folds limbs 20, 19 and 18. */
  method Fold20To18(
      s6: Abs54, s7: Abs54, s8: Abs54, s9: Abs54, s10: Abs54, s11: Abs54, s12: Abs54, s13: Abs54, s18: Abs32,
      s19: Abs32, s20: Abs32)
    returns (r6: Abs55, r7: Abs55, r8: Abs55, r9: Abs55, r10: Abs55, r11: Abs55, r12: Abs55, r13: Abs55)
    ensures V8(r6, r7, r8, r9, r10, r11, r12, r13)
      == V8(s6, s7, s8, s9, s10, s11, s12, s13) - DELTA * V3(s18, s19, s20)
  {
    var t6: int64 := s6; var t7: int64 := s7; var t8: int64 := s8; var t9: int64 := s9; var t10: int64 := s10;
    var t11: int64 := s11; var t12: int64 := s12; var t13: int64 := s13;
    t8, t9, t10, t11, t12, t13 := Fold(s20, t8, t9, t10, t11, t12, t13, 0x1_0000_0000);
    t7, t8, t9, t10, t11, t12 := Fold(s19, t7, t8, t9, t10, t11, t12, 0x1_0000_0000);
    t6, t7, t8, t9, t10, t11 := Fold(s18, t6, t7, t8, t9, t10, t11, 0x1_0000_0000);
    r6, r7, r8, r9, r10, r11, r12, r13 := t6, t7, t8, t9, t10, t11, t12, t13;
  }

  /** The carry pass between the two groups of folds. */
  method CarryMiddle(
      s6: Abs55, s7: Abs55, s8: Abs55, s9: Abs55, s10: Abs55, s11: Abs55, s12: Abs55, s13: Abs55, s14: Abs55,
      s15: Abs55, s16: Abs55, s17: Abs32)
    returns (
      r6: Abs35, r7: Abs35, r8: Abs35, r9: Abs35, r10: Abs35, r11: Abs35, r12: Abs35, r13: Abs35, r14: Abs35,
      r15: Abs35, r16: Abs35, r17: Abs35)
    ensures V12(r6, r7, r8, r9, r10, r11, r12, r13, r14, r15, r16, r17)
      == V12(s6, s7, s8, s9, s10, s11, s12, s13, s14, s15, s16, s17)
  {
    var t6: int64 := s6; var t7: int64 := s7; var t8: int64 := s8; var t9: int64 := s9; var t10: int64 := s10;
    var t11: int64 := s11; var t12: int64 := s12; var t13: int64 := s13; var t14: int64 := s14;
    var t15: int64 := s15; var t16: int64 := s16; var t17: int64 := s17;
    t6, t7 := RoundCarry(t6, t7);
    t8, t9 := RoundCarry(t8, t9);
    t10, t11 := RoundCarry(t10, t11);
    t12, t13 := RoundCarry(t12, t13);
    t14, t15 := RoundCarry(t14, t15);
    t16, t17 := RoundCarry(t16, t17);
    t7, t8 := RoundCarry(t7, t8);
    t9, t10 := RoundCarry(t9, t10);
    t11, t12 := RoundCarry(t11, t12);
    t13, t14 := RoundCarry(t13, t14);
    t15, t16 := RoundCarry(t15, t16);
    r6, r7, r8, r9, r10, r11, r12, r13, r14, r15, r16, r17 := t6, t7, t8, t9, t10, t11, t12, t13, t14, t15, t16, t17;
  }

  /** Folds limbs 17, 16 and 15. */
  method Fold17To15(
      s3: Abs35, s4: Abs35, s5: Abs35, s6: Abs35, s7: Abs35, s8: Abs35, s9: Abs35, s10: Abs35, s15: Abs35,
      s16: Abs35, s17: Abs35)
    returns (r3: Abs57, r4: Abs57, r5: Abs57, r6: Abs57, r7: Abs57, r8: Abs57, r9: Abs57, r10: Abs57)
    ensures V8(r3, r4, r5, r6, r7, r8, r9, r10)
      == V8(s3, s4, s5, s6, s7, s8, s9, s10) - DELTA * V3(s15, s16, s17)
  {
    var t3: int64 := s3; var t4: int64 := s4; var t5: int64 := s5; var t6: int64 := s6; var t7: int64 := s7;
    var t8: int64 := s8; var t9: int64 := s9; var t10: int64 := s10;
    t5, t6, t7, t8, t9, t10 := Fold(s17, t5, t6, t7, t8, t9, t10, 0x8_0000_0000);
    t4, t5, t6, t7, t8, t9 := Fold(s16, t4, t5, t6, t7, t8, t9, 0x8_0000_0000);
    t3, t4, t5, t6, t7, t8 := Fold(s15, t3, t4, t5, t6, t7, t8, 0x8_0000_0000);
    r3, r4, r5, r6, r7, r8, r9, r10 := t3, t4, t5, t6, t7, t8, t9, t10;
  }

  /** Folds limbs 14, 13 and 12. */
  method Fold14To12(
      s0: Abs57, s1: Abs57, s2: Abs57, s3: Abs57, s4: Abs57, s5: Abs57, s6: Abs57, s7: Abs57, s12: Abs35, s13: Abs35,
      s14: Abs35)
    returns (r0: Abs58, r1: Abs58, r2: Abs58, r3: Abs58, r4: Abs58, r5: Abs58, r6: Abs58, r7: Abs58)
    ensures V8(r0, r1, r2, r3, r4, r5, r6, r7)
      == V8(s0, s1, s2, s3, s4, s5, s6, s7) - DELTA * V3(s12, s13, s14)
  {
    var t0: int64 := s0; var t1: int64 := s1; var t2: int64 := s2; var t3: int64 := s3; var t4: int64 := s4;
    var t5: int64 := s5; var t6: int64 := s6; var t7: int64 := s7;
    t2, t3, t4, t5, t6, t7 := Fold(s14, t2, t3, t4, t5, t6, t7, 0x8_0000_0000);
    t1, t2, t3, t4, t5, t6 := Fold(s13, t1, t2, t3, t4, t5, t6, 0x8_0000_0000);
    t0, t1, t2, t3, t4, t5 := Fold(s12, t0, t1, t2, t3, t4, t5, 0x8_0000_0000);
    r0, r1, r2, r3, r4, r5, r6, r7 := t0, t1, t2, t3, t4, t5, t6, t7;
  }

  /** The carry pass that leaves limb 11 within half a unit and opens limb 12. */
  method CarryLow(
      s0: Abs58, s1: Abs58, s2: Abs58, s3: Abs58, s4: Abs58, s5: Abs58, s6: Abs58, s7: Abs58, s8: Abs58, s9: Abs58,
      s10: Abs58, s11: Abs58)
    returns (
      r0: Abs38, r1: Abs38, r2: Abs38, r3: Abs38, r4: Abs38, r5: Abs38, r6: Abs38, r7: Abs38, r8: Abs38, r9: Abs38,
      r10: Abs38, r11: Half, r12: Abs38)
    ensures V12(r0, r1, r2, r3, r4, r5, r6, r7, r8, r9, r10, r11) + (ELL - DELTA) * r12 as int
      == V12(s0, s1, s2, s3, s4, s5, s6, s7, s8, s9, s10, s11)
  {
    var t0: int64 := s0; var t1: int64 := s1; var t2: int64 := s2; var t3: int64 := s3; var t4: int64 := s4;
    var t5: int64 := s5; var t6: int64 := s6; var t7: int64 := s7; var t8: int64 := s8; var t9: int64 := s9;
    var t10: int64 := s10; var t11: int64 := s11; var t12: int64 := 0;
    t0, t1 := RoundCarry(t0, t1);
    t2, t3 := RoundCarry(t2, t3);
    t4, t5 := RoundCarry(t4, t5);
    t6, t7 := RoundCarry(t6, t7);
    t8, t9 := RoundCarry(t8, t9);
    t10, t11 := RoundCarry(t10, t11);
    t1, t2 := RoundCarry(t1, t2);
    t3, t4 := RoundCarry(t3, t4);
    t5, t6 := RoundCarry(t5, t6);
    t7, t8 := RoundCarry(t7, t8);
    t9, t10 := RoundCarry(t9, t10);
    t11, t12 := RoundCarry(t11, t12);
    r0, r1, r2, r3, r4, r5, r6, r7, r8, r9, r10, r11, r12 := t0, t1, t2, t3, t4, t5, t6, t7, t8, t9, t10, t11, t12;
  }

  /** Floor carries through all twelve limbs: limb 12 becomes the sign of the number. */
  method CarrySign(
      s0: Abs59, s1: Abs59, s2: Abs59, s3: Abs59, s4: Abs59, s5: Abs59, s6: Abs38, s7: Abs38, s8: Abs38, s9: Abs38,
      s10: Abs38, s11: Half)
    returns (
      r0: U21, r1: U21, r2: U21, r3: U21, r4: U21, r5: U21, r6: U21, r7: U21, r8: U21, r9: U21, r10: U21, r11: U21,
      r12: Sign)
    ensures V12(r0, r1, r2, r3, r4, r5, r6, r7, r8, r9, r10, r11) + (ELL - DELTA) * r12 as int
      == V12(s0, s1, s2, s3, s4, s5, s6, s7, s8, s9, s10, s11)
  {
    var t0: int64 := s0; var t1: int64 := s1; var t2: int64 := s2; var t3: int64 := s3; var t4: int64 := s4;
    var t5: int64 := s5; var t6: int64 := s6; var t7: int64 := s7; var t8: int64 := s8; var t9: int64 := s9;
    var t10: int64 := s10; var t11: int64 := s11; var t12: int64 := 0;
    t0, t1 := FloorCarry(t0, t1);
    t1, t2 := FloorCarry(t1, t2);
    t2, t3 := FloorCarry(t2, t3);
    t3, t4 := FloorCarry(t3, t4);
    t4, t5 := FloorCarry(t4, t5);
    t5, t6 := FloorCarry(t5, t6);
    t6, t7 := FloorCarry(t6, t7);
    t7, t8 := FloorCarry(t7, t8);
    t8, t9 := FloorCarry(t8, t9);
    t9, t10 := FloorCarry(t9, t10);
    t10, t11 := FloorCarry(t10, t11);
    t11, t12 := FloorCarry(t11, t12);
    r0, r1, r2, r3, r4, r5, r6, r7, r8, r9, r10, r11, r12 := t0, t1, t2, t3, t4, t5, t6, t7, t8, t9, t10, t11, t12;
  }

  /** The last carry pass, which leaves limb 11 as it falls. */
  method CarryLast(
      s0: Abs25, s1: Abs25, s2: Abs25, s3: Abs25, s4: Abs25, s5: Abs25, s6: Abs25, s7: Abs25, s8: Abs25, s9: Abs25,
      s10: Abs25, s11: Abs25)
    returns (
      r0: U21, r1: U21, r2: U21, r3: U21, r4: U21, r5: U21, r6: U21, r7: U21, r8: U21, r9: U21, r10: U21, r11: Abs32)
    ensures V12(r0, r1, r2, r3, r4, r5, r6, r7, r8, r9, r10, r11)
      == V12(s0, s1, s2, s3, s4, s5, s6, s7, s8, s9, s10, s11)
  {
    var t0: int64 := s0; var t1: int64 := s1; var t2: int64 := s2; var t3: int64 := s3; var t4: int64 := s4;
    var t5: int64 := s5; var t6: int64 := s6; var t7: int64 := s7; var t8: int64 := s8; var t9: int64 := s9;
    var t10: int64 := s10; var t11: int64 := s11;
    t0, t1 := FloorCarry(t0, t1);
    t1, t2 := FloorCarry(t1, t2);
    t2, t3 := FloorCarry(t2, t3);
    t3, t4 := FloorCarry(t3, t4);
    t4, t5 := FloorCarry(t4, t5);
    t5, t6 := FloorCarry(t5, t6);
    t6, t7 := FloorCarry(t6, t7);
    t7, t8 := FloorCarry(t7, t8);
    t8, t9 := FloorCarry(t8, t9);
    t9, t10 := FloorCarry(t9, t10);
    t10, t11 := FloorCarry(t10, t11);
    r0, r1, r2, r3, r4, r5, r6, r7, r8, r9, r10, r11 := t0, t1, t2, t3, t4, t5, t6, t7, t8, t9, t10, t11;
  }

  /** Limbs 12 to 23 folded into limbs 0 to 11: the number drops by `q` times the group order. */
  method FoldHigh(
      s0: Abs32, s1: Abs32, s2: Abs32, s3: Abs32, s4: Abs32, s5: Abs32, s6: Abs32, s7: Abs32, s8: Abs32, s9: Abs32,
      s10: Abs32, s11: Abs32, s12: Abs32, s13: Abs32, s14: Abs32, s15: Abs32, s16: Abs32, s17: Abs32, s18: Abs32,
      s19: Abs32, s20: Abs32, s21: Abs32, s22: Abs32, s23: Abs32)
    returns (
      r0: Abs58, r1: Abs58, r2: Abs58, r3: Abs58, r4: Abs58, r5: Abs58, r6: Abs58, r7: Abs58, r8: Abs58, r9: Abs58,
      r10: Abs58, r11: Abs58, ghost q: int)
    ensures V12(r0, r1, r2, r3, r4, r5, r6, r7, r8, r9, r10, r11)
      == V12(s0, s1, s2, s3, s4, s5, s6, s7, s8, s9, s10, s11)
        + (ELL - DELTA) * V12(s12, s13, s14, s15, s16, s17, s18, s19, s20, s21, s22, s23) - ELL * q
  {
    q := 0x4000_0000_0000_0000_0000_0000_0000_0000 * V6(s18, s19, s20, s21, s22, s23);
    var a9, a10, a11, a12, a13, a14, a15, a16 := Fold23To21(s9, s10, s11, s12, s13, s14, s15, s16, s21, s22, s23);
    var b6, b7, b8, b9, b10, b11, b12, b13 := Fold20To18(s6, s7, s8, a9, a10, a11, a12, a13, s18, s19, s20);
    var c6, c7, c8, c9, c10, c11, c12, c13, c14, c15, c16, c17 :=
      CarryMiddle(b6, b7, b8, b9, b10, b11, b12, b13, a14, a15, a16, s17);
    q := q + V6(c12, c13, c14, c15, c16, c17);
    var d3, d4, d5, d6, d7, d8, d9, d10 := Fold17To15(s3, s4, s5, c6, c7, c8, c9, c10, c15, c16, c17);
    var e0, e1, e2, e3, e4, e5, e6, e7 := Fold14To12(s0, s1, s2, d3, d4, d5, d6, d7, c12, c13, c14);
    r0, r1, r2, r3, r4, r5, r6, r7, r8, r9, r10, r11 := e0, e1, e2, e3, e4, e5, e6, e7, d8, d9, d10, c11;
  }

  /** The fold of limb 12, seen on the whole number. */
  method Fold12(
      x: Abs38, s0: Abs58, s1: Abs58, s2: Abs58, s3: Abs58, s4: Abs58, s5: Abs58, s6: int64, s7: int64, s8: int64,
      s9: int64, s10: int64, s11: int64, ghost X: int)
    returns (r0: int64, r1: int64, r2: int64, r3: int64, r4: int64, r5: int64)
    requires -X <= x as int <= X
    ensures -0x10_0000 * X <= r0 as int - s0 as int <= 0x10_0000 * X
    ensures -0x10_0000 * X <= r1 as int - s1 as int <= 0x10_0000 * X
    ensures -0x10_0000 * X <= r2 as int - s2 as int <= 0x10_0000 * X
    ensures -0x10_0000 * X <= r3 as int - s3 as int <= 0x10_0000 * X
    ensures -0x10_0000 * X <= r4 as int - s4 as int <= 0x10_0000 * X
    ensures -0x10_0000 * X <= r5 as int - s5 as int <= 0x10_0000 * X
    ensures V12(r0, r1, r2, r3, r4, r5, s6, s7, s8, s9, s10, s11)
      == V12(s0, s1, s2, s3, s4, s5, s6, s7, s8, s9, s10, s11) - DELTA * x as int
  {
    r0, r1, r2, r3, r4, r5 := Fold(x, s0, s1, s2, s3, s4, s5, X);
  }

  /** A carry pass and the fold of limb 12: the number is now within 2^252 of zero. */
  method FoldExcess(
      s0: Abs58, s1: Abs58, s2: Abs58, s3: Abs58, s4: Abs58, s5: Abs58, s6: Abs58, s7: Abs58, s8: Abs58, s9: Abs58,
      s10: Abs58, s11: Abs58)
    returns (
      r0: Abs59, r1: Abs59, r2: Abs59, r3: Abs59, r4: Abs59, r5: Abs59, r6: Abs38, r7: Abs38, r8: Abs38, r9: Abs38,
      r10: Abs38, r11: Half, ghost q: int)
    ensures V12(r0, r1, r2, r3, r4, r5, r6, r7, r8, r9, r10, r11)
      == V12(s0, s1, s2, s3, s4, s5, s6, s7, s8, s9, s10, s11) - ELL * q
  {
    var t0, t1, t2, t3, t4, t5, t6, t7, t8, t9, t10, t11, t12 :=
      CarryLow(s0, s1, s2, s3, s4, s5, s6, s7, s8, s9, s10, s11);
    q := t12 as int;
    var u0, u1, u2, u3, u4, u5 := Fold12(t12, t0, t1, t2, t3, t4, t5, t6, t7, t8, t9, t10, t11, 0x40_0000_0000);
    r0, r1, r2, r3, r4, r5, r6, r7, r8, r9, r10, r11 := u0, u1, u2, u3, u4, u5, t6, t7, t8, t9, t10, t11;
  }

  /** Folds the sign back in: a number below 2^252 stays, a negative one gains the group order. */
  method AbsorbSign(
      s0: U21, s1: U21, s2: U21, s3: U21, s4: U21, s5: U21, s6: U21, s7: U21, s8: U21, s9: U21, s10: U21, s11: U21,
      s12: Sign)
    returns (
      r0: U21, r1: U21, r2: U21, r3: U21, r4: U21, r5: U21, r6: U21, r7: U21, r8: U21, r9: U21, r10: U21, r11: U22)
    ensures V12(r0, r1, r2, r3, r4, r5, r6, r7, r8, r9, r10, r11)
      == V12(s0, s1, s2, s3, s4, s5, s6, s7, s8, s9, s10, s11) - DELTA * s12 as int
    ensures 0 <= V12(r0, r1, r2, r3, r4, r5, r6, r7, r8, r9, r10, r11) < ELL
  {
    var t0, t1, t2, t3, t4, t5 := Fold12(s12, s0, s1, s2, s3, s4, s5, s6, s7, s8, s9, s10, s11, 1);
    var u0, u1, u2, u3, u4, u5, u6, u7, u8, u9, u10, u11 :=
      CarryLast(t0, t1, t2, t3, t4, t5, s6, s7, s8, s9, s10, s11);
    r0, r1, r2, r3, r4, r5, r6, r7, r8, r9, r10, r11 := u0, u1, u2, u3, u4, u5, u6, u7, u8, u9, u10, u11;
  }

  /** Brings twelve limbs to the canonical residue of the number they stand for. */
  method Canonicalise(
      s0: Abs58, s1: Abs58, s2: Abs58, s3: Abs58, s4: Abs58, s5: Abs58, s6: Abs58, s7: Abs58, s8: Abs58, s9: Abs58,
      s10: Abs58, s11: Abs58)
    returns (
      r0: U21, r1: U21, r2: U21, r3: U21, r4: U21, r5: U21, r6: U21, r7: U21, r8: U21, r9: U21, r10: U21, r11: U22,
      ghost q: int)
    ensures 0 <= V12(r0, r1, r2, r3, r4, r5, r6, r7, r8, r9, r10, r11) < ELL
    ensures V12(r0, r1, r2, r3, r4, r5, r6, r7, r8, r9, r10, r11)
      == V12(s0, s1, s2, s3, s4, s5, s6, s7, s8, s9, s10, s11) - ELL * q
  {
    var t0, t1, t2, t3, t4, t5, t6, t7, t8, t9, t10, t11;
    t0, t1, t2, t3, t4, t5, t6, t7, t8, t9, t10, t11, q :=
      FoldExcess(s0, s1, s2, s3, s4, s5, s6, s7, s8, s9, s10, s11);
    var u0, u1, u2, u3, u4, u5, u6, u7, u8, u9, u10, u11, u12 :=
      CarrySign(t0, t1, t2, t3, t4, t5, t6, t7, t8, t9, t10, t11);
    r0, r1, r2, r3, r4, r5, r6, r7, r8, r9, r10, r11 :=
      AbsorbSign(u0, u1, u2, u3, u4, u5, u6, u7, u8, u9, u10, u11, u12);
    q := q + u12 as int;
  }
}
