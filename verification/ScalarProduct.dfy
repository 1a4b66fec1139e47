/** The schoolbook product of two twelve-limb scalars. Column k collects c_k and every a_i * b_j with i + j = k in
    increasing order of i, as the source does; here the terms arrive row by row, which leaves the partial sums of
    each column the same. */
module ScalarProduct {
  import opened MachineInts
  import opened ScalarLimbs

  lemma Shift(
      x0: int64, x1: int64, x2: int64, x3: int64, x4: int64, x5: int64, x6: int64, x7: int64, x8: int64, x9: int64,
      x10: int64, x11: int64)
    ensures Val(L12(x0, x1, x2, x3, x4, x5, x6, x7, x8, x9, x10, x11))
      == x0 as int + 0x20_0000 * Val(L12(x1, x2, x3, x4, x5, x6, x7, x8, x9, x10, x11, 0))
  {
    ValOfL12(x0, x1, x2, x3, x4, x5, x6, x7, x8, x9, x10, x11);
    ValOfL12(x1, x2, x3, x4, x5, x6, x7, x8, x9, x10, x11, 0);
  }

  lemma Distribute12(x: int, y: int,
      b0: int, b1: int, b2: int, b3: int, b4: int, b5: int, b6: int, b7: int, b8: int, b9: int, b10: int, b11: int)
    requires y ==
      b0 + 0x20_0000 * b1 + 0x400_0000_0000 * b2 + 0x8000_0000_0000_0000 * b3 + 0x10_0000_0000_0000_0000_0000 * b4 +
      0x200_0000_0000_0000_0000_0000_0000 * b5 + 0x4000_0000_0000_0000_0000_0000_0000_0000 * b6 +
      0x8_0000_0000_0000_0000_0000_0000_0000_0000_0000 * b7 +
      0x100_0000_0000_0000_0000_0000_0000_0000_0000_0000_0000 * b8 +
      0x2000_0000_0000_0000_0000_0000_0000_0000_0000_0000_0000_0000 * b9 +
      0x4_0000_0000_0000_0000_0000_0000_0000_0000_0000_0000_0000_0000_0000 * b10 +
      0x80_0000_0000_0000_0000_0000_0000_0000_0000_0000_0000_0000_0000_0000_0000 * b11
    ensures x * y ==
      (x * b0) + 0x20_0000 * (x * b1) + 0x400_0000_0000 * (x * b2) + 0x8000_0000_0000_0000 * (x * b3) +
      0x10_0000_0000_0000_0000_0000 * (x * b4) + 0x200_0000_0000_0000_0000_0000_0000 * (x * b5) +
      0x4000_0000_0000_0000_0000_0000_0000_0000 * (x * b6) +
      0x8_0000_0000_0000_0000_0000_0000_0000_0000_0000 * (x * b7) +
      0x100_0000_0000_0000_0000_0000_0000_0000_0000_0000_0000 * (x * b8) +
      0x2000_0000_0000_0000_0000_0000_0000_0000_0000_0000_0000_0000 * (x * b9) +
      0x4_0000_0000_0000_0000_0000_0000_0000_0000_0000_0000_0000_0000_0000 * (x * b10) +
      0x80_0000_0000_0000_0000_0000_0000_0000_0000_0000_0000_0000_0000_0000_0000 * (x * b11)
  {
  }

  lemma ProductBound(x: int, b: int, X: int, M: int)
    requires -X <= x <= X && 0 <= b <= M
    ensures -(X * M) <= x * b <= X * M
    ensures X <= 0x200_0000 && M <= 0x200_0000 ==> X * M <= 0x4_0000_0000_0000
  {
    assert (X - x) * b >= 0 && (X + x) * b >= 0 && X * (M - b) >= 0;
    if X <= 0x200_0000 && M <= 0x200_0000 {
      assert X * M <= X * 0x200_0000;
    }
  }

  /** One term of a column. `X` and `M` bound the factors. */
  method MulAcc(s: Abs54, x: Abs25, b: U25, ghost X: int, ghost M: int) returns (r: int64)
    requires -X <= x as int <= X <= 0x200_0000 && b as int <= M <= 0x200_0000
    ensures r as int == s as int + x as int * b as int
    ensures -X * M <= r as int - s as int <= X * M
  {
    ProductBound(x as int, b as int, X, M);
    r := s + x * b;
  }

  /** Adds x times the number b, whose value is `B`, to twelve columns. */
  method AddRow(
      x: Abs25, b0: U21, b1: U21, b2: U21, b3: U21, b4: U21, b5: U21, b6: U21, b7: U21, b8: U21, b9: U21, b10: U21,
      b11: U25, s0: Abs54, s1: Abs54, s2: Abs54, s3: Abs54, s4: Abs54, s5: Abs54, s6: Abs54, s7: Abs54, s8: Abs54,
      s9: Abs54, s10: Abs54, s11: Abs54, ghost X: int, ghost B: int)
    returns (
      r0: int64, r1: int64, r2: int64, r3: int64, r4: int64, r5: int64, r6: int64, r7: int64, r8: int64, r9: int64,
      r10: int64, r11: int64)
    requires -X <= x as int <= X <= 0x200_0000
    requires B == V12(b0, b1, b2, b3, b4, b5, b6, b7, b8, b9, b10, b11)
    ensures -0x20_0000 * X <= r0 as int - s0 as int <= 0x20_0000 * X
    ensures -0x20_0000 * X <= r1 as int - s1 as int <= 0x20_0000 * X
    ensures -0x20_0000 * X <= r2 as int - s2 as int <= 0x20_0000 * X
    ensures -0x20_0000 * X <= r3 as int - s3 as int <= 0x20_0000 * X
    ensures -0x20_0000 * X <= r4 as int - s4 as int <= 0x20_0000 * X
    ensures -0x20_0000 * X <= r5 as int - s5 as int <= 0x20_0000 * X
    ensures -0x20_0000 * X <= r6 as int - s6 as int <= 0x20_0000 * X
    ensures -0x20_0000 * X <= r7 as int - s7 as int <= 0x20_0000 * X
    ensures -0x20_0000 * X <= r8 as int - s8 as int <= 0x20_0000 * X
    ensures -0x20_0000 * X <= r9 as int - s9 as int <= 0x20_0000 * X
    ensures -0x20_0000 * X <= r10 as int - s10 as int <= 0x20_0000 * X
    ensures -0x200_0000 * X <= r11 as int - s11 as int <= 0x200_0000 * X
    ensures V12(r0, r1, r2, r3, r4, r5, r6, r7, r8, r9, r10, r11)
      == V12(s0, s1, s2, s3, s4, s5, s6, s7, s8, s9, s10, s11) + x as int * B
  {
    r0 := MulAcc(s0, x, b0, X, 0x20_0000);
    r1 := MulAcc(s1, x, b1, X, 0x20_0000);
    r2 := MulAcc(s2, x, b2, X, 0x20_0000);
    r3 := MulAcc(s3, x, b3, X, 0x20_0000);
    r4 := MulAcc(s4, x, b4, X, 0x20_0000);
    r5 := MulAcc(s5, x, b5, X, 0x20_0000);
    r6 := MulAcc(s6, x, b6, X, 0x20_0000);
    r7 := MulAcc(s7, x, b7, X, 0x20_0000);
    r8 := MulAcc(s8, x, b8, X, 0x20_0000);
    r9 := MulAcc(s9, x, b9, X, 0x20_0000);
    r10 := MulAcc(s10, x, b10, X, 0x20_0000);
    r11 := MulAcc(s11, x, b11, X, 0x200_0000);
    Distribute12(x as int, B,
      b0 as int, b1 as int, b2 as int, b3 as int, b4 as int, b5 as int, b6 as int, b7 as int, b8 as int, b9 as int,
      b10 as int, b11 as int);
  }

  /** AddRow, its columns taken as a list. */
  method AddRowVal(
      x: Abs25, b0: U21, b1: U21, b2: U21, b3: U21, b4: U21, b5: U21, b6: U21, b7: U21, b8: U21, b9: U21, b10: U21,
      b11: U25, s0: Abs54, s1: Abs54, s2: Abs54, s3: Abs54, s4: Abs54, s5: Abs54, s6: Abs54, s7: Abs54, s8: Abs54,
      s9: Abs54, s10: Abs54, s11: Abs54, ghost X: int, ghost B: int)
    returns (
      r0: int64, r1: int64, r2: int64, r3: int64, r4: int64, r5: int64, r6: int64, r7: int64, r8: int64, r9: int64,
      r10: int64, r11: int64)
    requires -X <= x as int <= X <= 0x200_0000
    requires B == Val(L12(b0, b1, b2, b3, b4, b5, b6, b7, b8, b9, b10, b11))
    ensures -0x20_0000 * X <= r0 as int - s0 as int <= 0x20_0000 * X
    ensures -0x20_0000 * X <= r1 as int - s1 as int <= 0x20_0000 * X
    ensures -0x20_0000 * X <= r2 as int - s2 as int <= 0x20_0000 * X
    ensures -0x20_0000 * X <= r3 as int - s3 as int <= 0x20_0000 * X
    ensures -0x20_0000 * X <= r4 as int - s4 as int <= 0x20_0000 * X
    ensures -0x20_0000 * X <= r5 as int - s5 as int <= 0x20_0000 * X
    ensures -0x20_0000 * X <= r6 as int - s6 as int <= 0x20_0000 * X
    ensures -0x20_0000 * X <= r7 as int - s7 as int <= 0x20_0000 * X
    ensures -0x20_0000 * X <= r8 as int - s8 as int <= 0x20_0000 * X
    ensures -0x20_0000 * X <= r9 as int - s9 as int <= 0x20_0000 * X
    ensures -0x20_0000 * X <= r10 as int - s10 as int <= 0x20_0000 * X
    ensures -0x200_0000 * X <= r11 as int - s11 as int <= 0x200_0000 * X
    ensures Val(L12(r0, r1, r2, r3, r4, r5, r6, r7, r8, r9, r10, r11))
      == Val(L12(s0, s1, s2, s3, s4, s5, s6, s7, s8, s9, s10, s11)) + x as int * B
  {
    r0, r1, r2, r3, r4, r5, r6, r7, r8, r9, r10, r11 :=
      AddRow(x, b0, b1, b2, b3, b4, b5, b6, b7, b8, b9, b10, b11,
        s0, s1, s2, s3, s4, s5, s6, s7, s8, s9, s10, s11, X, V12(b0, b1, b2, b3, b4, b5, b6, b7, b8, b9, b10, b11));
    ValOfL12(b0, b1, b2, b3, b4, b5, b6, b7, b8, b9, b10, b11);
    ValOfL12(s0, s1, s2, s3, s4, s5, s6, s7, s8, s9, s10, s11);
    ValOfL12(r0, r1, r2, r3, r4, r5, r6, r7, r8, r9, r10, r11);
  }

  /** Two consecutive rows: twelve columns within `M` of zero become thirteen. */
  method AddRows(
      a0: Abs21, a1: Abs25, b0: U21, b1: U21, b2: U21, b3: U21, b4: U21, b5: U21, b6: U21, b7: U21, b8: U21, b9: U21,
      b10: U21, b11: U25, s0: int64, s1: int64, s2: int64, s3: int64, s4: int64, s5: int64, s6: int64, s7: int64,
      s8: int64, s9: int64, s10: int64, s11: int64, ghost X: int, ghost M: int, ghost B: int)
    returns (
      r0: int64, r1: int64, r2: int64, r3: int64, r4: int64, r5: int64, r6: int64, r7: int64, r8: int64, r9: int64,
      r10: int64, r11: int64, r12: int64)
    requires 0 <= M <= 0x8_0000_0000_0000 && -X <= a1 as int <= X && 0x20_0000 <= X <= 0x200_0000
    requires -M <= s0 as int <= M && -M <= s1 as int <= M && -M <= s2 as int <= M
    requires -M <= s3 as int <= M && -M <= s4 as int <= M && -M <= s5 as int <= M
    requires -M <= s6 as int <= M && -M <= s7 as int <= M && -M <= s8 as int <= M
    requires -M <= s9 as int <= M && -M <= s10 as int <= M && -M <= s11 as int <= M
    requires B == Val(L12(b0, b1, b2, b3, b4, b5, b6, b7, b8, b9, b10, b11))
    ensures -(M + 0x400_0000 * X) <= r0 as int <= M + 0x400_0000 * X && -(M + 0x400_0000 * X) <= r1 as int <= M
      + 0x400_0000 * X
    ensures -(M + 0x400_0000 * X) <= r2 as int <= M + 0x400_0000 * X && -(M + 0x400_0000 * X) <= r3 as int <= M
      + 0x400_0000 * X
    ensures -(M + 0x400_0000 * X) <= r4 as int <= M + 0x400_0000 * X && -(M + 0x400_0000 * X) <= r5 as int <= M
      + 0x400_0000 * X
    ensures -(M + 0x400_0000 * X) <= r6 as int <= M + 0x400_0000 * X && -(M + 0x400_0000 * X) <= r7 as int <= M
      + 0x400_0000 * X
    ensures -(M + 0x400_0000 * X) <= r8 as int <= M + 0x400_0000 * X && -(M + 0x400_0000 * X) <= r9 as int <= M
      + 0x400_0000 * X
    ensures -(M + 0x400_0000 * X) <= r10 as int <= M + 0x400_0000 * X && -(M + 0x400_0000 * X) <= r11 as int <= M
      + 0x400_0000 * X
    ensures -(M + 0x400_0000 * X) <= r12 as int <= M + 0x400_0000 * X
    ensures r0 as int + 0x20_0000 * Val(L12(r1, r2, r3, r4, r5, r6, r7, r8, r9, r10, r11, r12))
      == Val(L12(s0, s1, s2, s3, s4, s5, s6, s7, s8, s9, s10, s11)) + (a0 as int * B) + 0x20_0000 * (a1 as int * B)
  {
    var t1, t2, t3, t4, t5, t6, t7, t8, t9, t10, t11;
    r0, t1, t2, t3, t4, t5, t6, t7, t8, t9, t10, t11 :=
      AddRowVal(a0, b0, b1, b2, b3, b4, b5, b6, b7, b8, b9, b10, b11,
        s0, s1, s2, s3, s4, s5, s6, s7, s8, s9, s10, s11, 0x20_0000, B);
    Shift(r0, t1, t2, t3, t4, t5, t6, t7, t8, t9, t10, t11);
    r1, r2, r3, r4, r5, r6, r7, r8, r9, r10, r11, r12 :=
      AddRowVal(a1, b0, b1, b2, b3, b4, b5, b6, b7, b8, b9, b10, b11,
        t1, t2, t3, t4, t5, t6, t7, t8, t9, t10, t11, 0, X, B);
  }

  lemma TwelveFactors(
      a0: int64, a1: int64, a2: int64, a3: int64, a4: int64, a5: int64, a6: int64, a7: int64, a8: int64, a9: int64,
      a10: int64, a11: int64, b: int)
    ensures Val(L12(a0, a1, a2, a3, a4, a5, a6, a7, a8, a9, a10, a11)) * b
      ==
      (a0 as int * b) + 0x20_0000 * (a1 as int * b) + 0x400_0000_0000 * (a2 as int * b) +
      0x8000_0000_0000_0000 * (a3 as int * b) + 0x10_0000_0000_0000_0000_0000 * (a4 as int * b) +
      0x200_0000_0000_0000_0000_0000_0000 * (a5 as int * b) +
      0x4000_0000_0000_0000_0000_0000_0000_0000 * (a6 as int * b) +
      0x8_0000_0000_0000_0000_0000_0000_0000_0000_0000 * (a7 as int * b) +
      0x100_0000_0000_0000_0000_0000_0000_0000_0000_0000_0000 * (a8 as int * b) +
      0x2000_0000_0000_0000_0000_0000_0000_0000_0000_0000_0000_0000 * (a9 as int * b) +
      0x4_0000_0000_0000_0000_0000_0000_0000_0000_0000_0000_0000_0000_0000 * (a10 as int * b) +
      0x80_0000_0000_0000_0000_0000_0000_0000_0000_0000_0000_0000_0000_0000_0000 * (a11 as int * b)
  {
    ValOfL12(a0, a1, a2, a3, a4, a5, a6, a7, a8, a9, a10, a11);
    Distribute12(b, Val(L12(a0, a1, a2, a3, a4, a5, a6, a7, a8, a9, a10, a11)),
      a0 as int, a1 as int, a2 as int, a3 as int, a4 as int, a5 as int, a6 as int, a7 as int, a8 as int, a9 as int,
      a10 as int, a11 as int);
  }

  /** Six consecutive rows: twelve columns within `M` of zero become seventeen. */
  method SixRows(
      a0: Abs21, a1: Abs21, a2: Abs21, a3: Abs21, a4: Abs21, a5: Abs25, b0: U21, b1: U21, b2: U21, b3: U21, b4: U21,
      b5: U21, b6: U21, b7: U21, b8: U21, b9: U21, b10: U21, b11: U25, s0: int64, s1: int64, s2: int64, s3: int64,
      s4: int64, s5: int64, s6: int64, s7: int64, s8: int64, s9: int64, s10: int64, s11: int64, ghost X: int,
      ghost M: int, ghost B: int)
    returns (
      r0: int64, r1: int64, r2: int64, r3: int64, r4: int64, r5: int64, r6: int64, r7: int64, r8: int64, r9: int64,
      r10: int64, r11: int64, r12: int64, r13: int64, r14: int64, r15: int64, r16: int64)
    requires 0 <= M <= 0x4_0000_0000_0000 && -X <= a5 as int <= X && 0x20_0000 <= X <= 0x200_0000
    requires -M <= s0 as int <= M && -M <= s1 as int <= M && -M <= s2 as int <= M
    requires -M <= s3 as int <= M && -M <= s4 as int <= M && -M <= s5 as int <= M
    requires -M <= s6 as int <= M && -M <= s7 as int <= M && -M <= s8 as int <= M
    requires -M <= s9 as int <= M && -M <= s10 as int <= M && -M <= s11 as int <= M
    requires B == Val(L12(b0, b1, b2, b3, b4, b5, b6, b7, b8, b9, b10, b11))
    ensures -(M + 0x1_0000_0000_0000 + 0x400_0000 * X) <= r0 as int <= M + 0x1_0000_0000_0000 + 0x400_0000 * X
      && -(M + 0x1_0000_0000_0000 + 0x400_0000 * X) <= r1 as int <= M + 0x1_0000_0000_0000 + 0x400_0000 * X
    ensures -(M + 0x1_0000_0000_0000 + 0x400_0000 * X) <= r2 as int <= M + 0x1_0000_0000_0000 + 0x400_0000 * X
      && -(M + 0x1_0000_0000_0000 + 0x400_0000 * X) <= r3 as int <= M + 0x1_0000_0000_0000 + 0x400_0000 * X
    ensures -(M + 0x1_0000_0000_0000 + 0x400_0000 * X) <= r4 as int <= M + 0x1_0000_0000_0000 + 0x400_0000 * X
      && -(M + 0x1_0000_0000_0000 + 0x400_0000 * X) <= r5 as int <= M + 0x1_0000_0000_0000 + 0x400_0000 * X
    ensures -(M + 0x1_0000_0000_0000 + 0x400_0000 * X) <= r6 as int <= M + 0x1_0000_0000_0000 + 0x400_0000 * X
      && -(M + 0x1_0000_0000_0000 + 0x400_0000 * X) <= r7 as int <= M + 0x1_0000_0000_0000 + 0x400_0000 * X
    ensures -(M + 0x1_0000_0000_0000 + 0x400_0000 * X) <= r8 as int <= M + 0x1_0000_0000_0000 + 0x400_0000 * X
      && -(M + 0x1_0000_0000_0000 + 0x400_0000 * X) <= r9 as int <= M + 0x1_0000_0000_0000 + 0x400_0000 * X
    ensures -(M + 0x1_0000_0000_0000 + 0x400_0000 * X) <= r10 as int <= M + 0x1_0000_0000_0000 + 0x400_0000 * X
      && -(M + 0x1_0000_0000_0000 + 0x400_0000 * X) <= r11 as int <= M + 0x1_0000_0000_0000 + 0x400_0000 * X
    ensures -(M + 0x1_0000_0000_0000 + 0x400_0000 * X) <= r12 as int <= M + 0x1_0000_0000_0000 + 0x400_0000 * X
      && -(M + 0x1_0000_0000_0000 + 0x400_0000 * X) <= r13 as int <= M + 0x1_0000_0000_0000 + 0x400_0000 * X
    ensures -(M + 0x1_0000_0000_0000 + 0x400_0000 * X) <= r14 as int <= M + 0x1_0000_0000_0000 + 0x400_0000 * X
      && -(M + 0x1_0000_0000_0000 + 0x400_0000 * X) <= r15 as int <= M + 0x1_0000_0000_0000 + 0x400_0000 * X
    ensures -(M + 0x1_0000_0000_0000 + 0x400_0000 * X) <= r16 as int <= M + 0x1_0000_0000_0000 + 0x400_0000 * X
    ensures
      r0 as int + 0x20_0000 * r1 as int + 0x400_0000_0000 * r2 as int + 0x8000_0000_0000_0000 * r3 as int +
      0x10_0000_0000_0000_0000_0000 * r4 as int +
      0x200_0000_0000_0000_0000_0000_0000 * Val(L12(r5, r6, r7, r8, r9, r10, r11, r12, r13, r14, r15, r16))
      == Val(L12(s0, s1, s2, s3, s4, s5, s6, s7, s8, s9, s10, s11)) +
      (a0 as int * B) + 0x20_0000 * (a1 as int * B) + 0x400_0000_0000 * (a2 as int * B) +
      0x8000_0000_0000_0000 * (a3 as int * B) + 0x10_0000_0000_0000_0000_0000 * (a4 as int * B) +
      0x200_0000_0000_0000_0000_0000_0000 * (a5 as int * B)
  {
    var t2, t3, t4, t5, t6, t7, t8, t9, t10, t11, t12, t13, t14;
    r0, r1, t2, t3, t4, t5, t6, t7, t8, t9, t10, t11, t12 :=
      AddRows(a0, a1, b0, b1, b2, b3, b4, b5, b6, b7, b8, b9, b10, b11,
        s0, s1, s2, s3, s4, s5, s6, s7, s8, s9, s10, s11, 0x20_0000, M, B);
    Shift(r1, t2, t3, t4, t5, t6, t7, t8, t9, t10, t11, t12);
    r2, r3, t4, t5, t6, t7, t8, t9, t10, t11, t12, t13, t14 :=
      AddRows(a2, a3, b0, b1, b2, b3, b4, b5, b6, b7, b8, b9, b10, b11,
        t2, t3, t4, t5, t6, t7, t8, t9, t10, t11, t12, 0, 0x20_0000, M + 0x8000_0000_0000, B);
    Shift(r3, t4, t5, t6, t7, t8, t9, t10, t11, t12, t13, t14);
    r4, r5, r6, r7, r8, r9, r10, r11, r12, r13, r14, r15, r16 :=
      AddRows(a4, a5, b0, b1, b2, b3, b4, b5, b6, b7, b8, b9, b10, b11,
        t4, t5, t6, t7, t8, t9, t10, t11, t12, t13, t14, 0, X, M + 0x1_0000_0000_0000, B);
  }

  /** s0..s22 = c + a * b, for a limb-wise signed `a`. */
  method Columns(
      a0: Abs21, a1: Abs21, a2: Abs21, a3: Abs21, a4: Abs21, a5: Abs21, a6: Abs21, a7: Abs21, a8: Abs21, a9: Abs21,
      a10: Abs21, a11: Abs25, b0: U21, b1: U21, b2: U21, b3: U21, b4: U21, b5: U21, b6: U21, b7: U21, b8: U21,
      b9: U21, b10: U21, b11: U25, c0: U21, c1: U21, c2: U21, c3: U21, c4: U21, c5: U21, c6: U21, c7: U21, c8: U21,
      c9: U21, c10: U21, c11: U25)
    returns (
      s0: Abs52, s1: Abs52, s2: Abs52, s3: Abs52, s4: Abs52, s5: Abs52, s6: Abs52, s7: Abs52, s8: Abs52, s9: Abs52,
      s10: Abs52, s11: Abs52, s12: Abs52, s13: Abs52, s14: Abs52, s15: Abs52, s16: Abs52, s17: Abs52, s18: Abs52,
      s19: Abs52, s20: Abs52, s21: Abs52, s22: Abs52)
    ensures
      s0 as int + 0x20_0000 * s1 as int + 0x400_0000_0000 * s2 as int + 0x8000_0000_0000_0000 * s3 as int +
      0x10_0000_0000_0000_0000_0000 * s4 as int + 0x200_0000_0000_0000_0000_0000_0000 * s5 as int +
      0x4000_0000_0000_0000_0000_0000_0000_0000 * s6 as int +
      0x8_0000_0000_0000_0000_0000_0000_0000_0000_0000 * s7 as int +
      0x100_0000_0000_0000_0000_0000_0000_0000_0000_0000_0000 * s8 as int +
      0x2000_0000_0000_0000_0000_0000_0000_0000_0000_0000_0000_0000 * s9 as int +
      0x4_0000_0000_0000_0000_0000_0000_0000_0000_0000_0000_0000_0000_0000 * s10 as int +
      0x80_0000_0000_0000_0000_0000_0000_0000_0000_0000_0000_0000_0000_0000_0000
        * Val(L12(s11, s12, s13, s14, s15, s16, s17, s18, s19, s20, s21, s22))
      == Val(L12(c0, c1, c2, c3, c4, c5, c6, c7, c8, c9, c10, c11))
        + Val(L12(a0, a1, a2, a3, a4, a5, a6, a7, a8, a9, a10, a11))
          * Val(L12(b0, b1, b2, b3, b4, b5, b6, b7, b8, b9, b10, b11))
  {
    ghost var B := Val(L12(b0, b1, b2, b3, b4, b5, b6, b7, b8, b9, b10, b11));
    var t6, t7, t8, t9, t10, t11, t12, t13, t14, t15, t16;
    s0, s1, s2, s3, s4, s5, t6, t7, t8, t9, t10, t11, t12, t13, t14, t15, t16 :=
      SixRows(a0, a1, a2, a3, a4, a5, b0, b1, b2, b3, b4, b5, b6, b7, b8, b9, b10, b11,
        c0, c1, c2, c3, c4, c5, c6, c7, c8, c9, c10, c11, 0x20_0000, 0x200_0000, B);
    Shift(s5, t6, t7, t8, t9, t10, t11, t12, t13, t14, t15, t16);
    s6, s7, s8, s9, s10, s11, s12, s13, s14, s15, s16, s17, s18, s19, s20, s21, s22 :=
      SixRows(a6, a7, a8, a9, a10, a11, b0, b1, b2, b3, b4, b5, b6, b7, b8, b9, b10, b11,
        t6, t7, t8, t9, t10, t11, t12, t13, t14, t15, t16, 0, 0x200_0000, 0x2_0000_0000_0000, B);
    TwelveFactors(a0, a1, a2, a3, a4, a5, a6, a7, a8, a9, a10, a11, B);
  }
}
