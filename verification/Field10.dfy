/** Field elements modulo 2^255 - 19 as ten signed limbs of alternately 26 and 25 bits
    (crypto/curve25519/edwards_general.go). Limb i weighs 2^ceil(25.5 i). `& m`, `>> k` and `|` of disjoint bits are
    remainder, division rounding down and sum, as in ScalarBytes. */
module Field10 {
  import opened Arith
  import opened Arrays
  import opened MachineInts
  import opened Residues

  type Abs62 = x: int64 | -0x4000_0000_0000_0000 <= x <= 0x4000_0000_0000_0000
  type Wide = x: int64 | -0x5000_0000_0000_0000 <= x <= 0x5000_0000_0000_0000
  type Abs26 = x: int64 | -0x202_0000 <= x <= 0x202_0000
  type Abs25 = x: int64 | -0x102_0000 <= x <= 0x102_0000
  type Half26 = x: int64 | -0x200_0000 <= x < 0x200_0000
  type Half25 = x: int64 | -0x100_0000 <= x < 0x100_0000

  ghost function V10(h0: int, h1: int, h2: int, h3: int, h4: int, h5: int, h6: int, h7: int, h8: int, h9: int): int {
    h0 + 0x400_0000 * h1 + 0x8_0000_0000_0000 * h2 + 0x2000_0000_0000_0000_0000 * h3 +
    0x40_0000_0000_0000_0000_0000_0000 * h4 + 0x1_0000_0000_0000_0000_0000_0000_0000_0000 * h5 +
    0x200_0000_0000_0000_0000_0000_0000_0000_0000_0000 * h6 +
    0x8_0000_0000_0000_0000_0000_0000_0000_0000_0000_0000_0000 * h7 +
    0x1000_0000_0000_0000_0000_0000_0000_0000_0000_0000_0000_0000_0000 * h8 +
    0x40_0000_0000_0000_0000_0000_0000_0000_0000_0000_0000_0000_0000_0000_0000 * h9
  }

  /** The number ten limbs stand for, by pairs of 51 bits. */
  ghost function Fe(h: seq<int32>): int {
    if |h| < 2 then 0 else h[0] as int + 0x400_0000 * h[1] as int + 0x8_0000_0000_0000 * Fe(h[2..])
  }

  lemma FeOf(h: seq<int32>)
    requires |h| == 10
    ensures Fe(h) == V10(h[0] as int, h[1] as int, h[2] as int, h[3] as int, h[4] as int, h[5] as int, h[6] as int,
      h[7] as int, h[8] as int, h[9] as int)
  {
    assert h[2..][2..] == h[4..] && h[4..][2..] == h[6..] && h[6..][2..] == h[8..];
    assert Fe(h[2..]) == h[2] as int + 0x400_0000 * h[3] as int + 0x8_0000_0000_0000 * Fe(h[4..]);
    assert Fe(h[4..]) == h[4] as int + 0x400_0000 * h[5] as int + 0x8_0000_0000_0000 * Fe(h[6..]);
    assert Fe(h[6..]) == h[6] as int + 0x400_0000 * h[7] as int + 0x8_0000_0000_0000 * Fe(h[8..]);
    assert Fe(h[8..]) == h[8] as int + 0x400_0000 * h[9] as int + 0x8_0000_0000_0000 * Fe(h[8..][2..]);
  }

  /** Limbs within `even` and `odd` of zero. */
  ghost predicate Within(h: seq<int32>, even: int, odd: int) {
    && |h| == 10
    && -even <= h[0] as int <= even && -odd <= h[1] as int <= odd
    && -even <= h[2] as int <= even && -odd <= h[3] as int <= odd
    && -even <= h[4] as int <= even && -odd <= h[5] as int <= odd
    && -even <= h[6] as int <= even && -odd <= h[7] as int <= odd
    && -even <= h[8] as int <= even && -odd <= h[9] as int <= odd
  }

  // The documented bounds: 1.1 * 2^26 and 1.1 * 2^25 on factors, half of that on results, 1.65 * 2^26 and
  // 1.65 * 2^25 on the argument of FeSquare2.

  ghost predicate Loose(h: seq<int32>) {
    Within(h, 73819750, 36909875)
  }

  ghost predicate Tight(h: seq<int32>) {
    Within(h, 36909875, 18454937)
  }

  ghost predicate Loosest(h: seq<int32>) {
    Within(h, 110729625, 55364812)
  }

  // ---- Carrying ----

  /** A carry out of a 26-bit limb, rounded to the nearest, so that what stays is centred around zero. */
  method Carry26(lo: Wide, hi: Wide) returns (lo': Half26, hi': int64)
    ensures lo' as int + 0x400_0000 * hi' as int == lo as int + 0x400_0000 * hi as int
  {
    var c := (lo + 0x200_0000) / 0x400_0000;
    hi' := hi + c;
    lo' := lo - c * 0x400_0000;
  }

  /** The same out of a 25-bit limb. */
  method Carry25(lo: Wide, hi: Wide) returns (lo': Half25, hi': int64)
    ensures lo' as int + 0x200_0000 * hi' as int == lo as int + 0x200_0000 * hi as int
  {
    var c := (lo + 0x100_0000) / 0x200_0000;
    hi' := hi + c;
    lo' := lo - c * 0x200_0000;
  }

  /** The carry out of the top limb returns nineteenfold at the bottom. */
  method CarryTop(h9: Wide, h0: Half26) returns (h9': Half25, h0': int64, ghost q: int)
    ensures h0' as int == h0 as int + 19 * q
    ensures h9 as int == h9' as int + 0x200_0000 * q
  {
    var c9 := (h9 + 0x100_0000) / 0x200_0000;
    h0' := h0 + c9 * 19;
    h9' := h9 - c9 * 0x200_0000;
    q := c9 as int;
  }

  /** The first ten carries after a product: only limbs 0 and 9 are left to settle. */
  method CarryAll(
      h0: Abs62, h1: Abs62, h2: Abs62, h3: Abs62, h4: Abs62, h5: Abs62, h6: Abs62, h7: Abs62, h8: Abs62, h9: Abs62)
    returns (
      r0: Half26, r1: Half25, r2: Abs26, r3: Abs25, r4: Abs26, r5: Abs25, r6: Abs26, r7: Abs25, r8: Abs26, r9: Wide)
    ensures V10(r0 as int, r1 as int, r2 as int, r3 as int, r4 as int, r5 as int, r6 as int, r7 as int, r8 as int,
      r9 as int)
      == V10(h0 as int, h1 as int, h2 as int, h3 as int, h4 as int, h5 as int, h6 as int, h7 as int, h8 as int,
        h9 as int)
  {
    var t0: int64 := h0; var t1: int64 := h1; var t2: int64 := h2; var t3: int64 := h3; var t4: int64 := h4;
    var t5: int64 := h5; var t6: int64 := h6; var t7: int64 := h7; var t8: int64 := h8; var t9: int64 := h9;
    t0, t1 := Carry26(t0, t1);
    t4, t5 := Carry26(t4, t5);
    t1, t2 := Carry25(t1, t2);
    t5, t6 := Carry25(t5, t6);
    t2, t3 := Carry26(t2, t3);
    t6, t7 := Carry26(t6, t7);
    t3, t4 := Carry25(t3, t4);
    t7, t8 := Carry25(t7, t8);
    t4, t5 := Carry26(t4, t5);
    t8, t9 := Carry26(t8, t9);
    r0, r1, r2, r3, r4, r5, r6, r7, r8, r9 := t0, t1, t2, t3, t4, t5, t6, t7, t8, t9;
  }

  /** All twelve carries. */
  method CarryLimbs(
      h0: Abs62, h1: Abs62, h2: Abs62, h3: Abs62, h4: Abs62, h5: Abs62, h6: Abs62, h7: Abs62, h8: Abs62, h9: Abs62)
    returns (
      r0: Abs26, r1: Abs25, r2: Abs26, r3: Abs25, r4: Abs26, r5: Abs25, r6: Abs26, r7: Abs25, r8: Abs26, r9: Abs25,
      ghost q: int)
    ensures V10(r0 as int, r1 as int, r2 as int, r3 as int, r4 as int, r5 as int, r6 as int, r7 as int, r8 as int,
      r9 as int)
      == V10(h0 as int, h1 as int, h2 as int, h3 as int, h4 as int, h5 as int, h6 as int, h7 as int, h8 as int,
        h9 as int) - P * q
  {
    var t0, t1, t2, t3, t4, t5, t6, t7, t8, t9 := CarryAll(h0, h1, h2, h3, h4, h5, h6, h7, h8, h9);
    var u0, u1, u9;
    u9, u0, q := CarryTop(t9, t0);
    u0, u1 := Carry26(u0, t1);
    r0, r1, r2, r3, r4, r5, r6, r7, r8, r9 := u0, u1, t2, t3, t4, t5, t6, t7, t8, u9;
  }

  /** FeCombine: the carry chain after a product. */
  method Combine(
      h0: Abs62, h1: Abs62, h2: Abs62, h3: Abs62, h4: Abs62, h5: Abs62, h6: Abs62, h7: Abs62, h8: Abs62, h9: Abs62)
    returns (r: seq<int32>, ghost q: int)
    ensures Tight(r)
    ensures Fe(r) == V10(h0 as int, h1 as int, h2 as int, h3 as int, h4 as int, h5 as int, h6 as int, h7 as int,
      h8 as int, h9 as int) - P * q
  {
    var r0, r1, r2, r3, r4, r5, r6, r7, r8, r9;
    r0, r1, r2, r3, r4, r5, r6, r7, r8, r9, q := CarryLimbs(h0, h1, h2, h3, h4, h5, h6, h7, h8, h9);
    r := [r0 as int32, r1 as int32, r2 as int32, r3 as int32, r4 as int32, r5 as int32, r6 as int32, r7 as int32,
      r8 as int32, r9 as int32];
    FeOf(r);
  }

  // ---- Products ----

  lemma ProductWithin(x: int, y: int, X: int, Y: int)
    requires -X <= x <= X && -Y <= y <= Y
    ensures -(X * Y) <= x * y <= X * Y
  {
    assert (X - x) * (Y + y) >= 0 && (X + x) * (Y - y) >= 0;
    assert (X - x) * (Y - y) >= 0 && (X + x) * (Y + y) >= 0;
  }

  lemma ScaledProduct(c: int, x: int, d: int, y: int)
    ensures (c * x) * (d * y) == (c * d) * Times(x, y)
  {
    TimesIsProduct(x, y);
  }

  lemma ShortProduct(X: int, Y: int)
    requires 0 <= X < 0x8000_0000 && 0 <= Y < 0x8000_0000
    ensures X * Y <= 0x4000_0000_0000_0000
  {
    Monotone(X, Y, 0x8000_0000);
  }

  /** The 64-bit product of two 32-bit factors. */
  method Product(x: int32, y: int32, ghost X: int, ghost Y: int) returns (p: int64)
    requires -X <= x as int <= X < 0x8000_0000 && -Y <= y as int <= Y < 0x8000_0000
    ensures p as int == x as int * y as int
    ensures -(X * Y) <= p as int <= X * Y <= 0x4000_0000_0000_0000
  {
    ProductWithin(x as int, y as int, X, Y);
    ShortProduct(X, Y);
    p := x as int64 * y as int64;
  }

  /** One term of a column, (c x) * (d y), the factors formed in 32 bits and multiplied in 64. `X` and `Y` bound
      them. */
  method Term(s: int64, c: int32, x: int32, d: int32, y: int32, ghost X: int, ghost Y: int) returns (r: int64)
    requires -X <= c as int * x as int <= X < 0x8000_0000 && -Y <= d as int * y as int <= Y < 0x8000_0000
    requires -0x2000_0000_0000_0000 <= s <= 0x2000_0000_0000_0000
    ensures r as int == s as int + (c as int * d as int) * Times(x as int, y as int)
    ensures -(X * Y) <= r as int - s as int <= X * Y
  {
    var p := Product(c * x, d * y, X, Y);
    ScaledProduct(c as int, x as int, d as int, y as int);
    r := s + p;
  }

  // Column k of f * g: the pairs of limbs that weigh as much as limb k, a pair of odd limbs counted double, a pair past
  // 2^255 counted nineteen times.

  ghost function Column0(f: seq<int32>, g: seq<int32>): int
    requires |f| == 10 && |g| == 10
  {
    Times(f[0] as int, g[0] as int) + 38 * Times(f[1] as int, g[9] as int) + 19 * Times(f[2] as int, g[8] as int) +
    38 * Times(f[3] as int, g[7] as int) + 19 * Times(f[4] as int, g[6] as int) +
    38 * Times(f[5] as int, g[5] as int) + 19 * Times(f[6] as int, g[4] as int) +
    38 * Times(f[7] as int, g[3] as int) + 19 * Times(f[8] as int, g[2] as int) +
    38 * Times(f[9] as int, g[1] as int)
  }

  ghost function Column1(f: seq<int32>, g: seq<int32>): int
    requires |f| == 10 && |g| == 10
  {
    Times(f[0] as int, g[1] as int) + Times(f[1] as int, g[0] as int) + 19 * Times(f[2] as int, g[9] as int) +
    19 * Times(f[3] as int, g[8] as int) + 19 * Times(f[4] as int, g[7] as int) +
    19 * Times(f[5] as int, g[6] as int) + 19 * Times(f[6] as int, g[5] as int) +
    19 * Times(f[7] as int, g[4] as int) + 19 * Times(f[8] as int, g[3] as int) +
    19 * Times(f[9] as int, g[2] as int)
  }

  ghost function Column2(f: seq<int32>, g: seq<int32>): int
    requires |f| == 10 && |g| == 10
  {
    Times(f[0] as int, g[2] as int) + 2 * Times(f[1] as int, g[1] as int) + Times(f[2] as int, g[0] as int) +
    38 * Times(f[3] as int, g[9] as int) + 19 * Times(f[4] as int, g[8] as int) +
    38 * Times(f[5] as int, g[7] as int) + 19 * Times(f[6] as int, g[6] as int) +
    38 * Times(f[7] as int, g[5] as int) + 19 * Times(f[8] as int, g[4] as int) +
    38 * Times(f[9] as int, g[3] as int)
  }

  ghost function Column3(f: seq<int32>, g: seq<int32>): int
    requires |f| == 10 && |g| == 10
  {
    Times(f[0] as int, g[3] as int) + Times(f[1] as int, g[2] as int) + Times(f[2] as int, g[1] as int) +
    Times(f[3] as int, g[0] as int) + 19 * Times(f[4] as int, g[9] as int) + 19 * Times(f[5] as int, g[8] as int) +
    19 * Times(f[6] as int, g[7] as int) + 19 * Times(f[7] as int, g[6] as int) +
    19 * Times(f[8] as int, g[5] as int) + 19 * Times(f[9] as int, g[4] as int)
  }

  ghost function Column4(f: seq<int32>, g: seq<int32>): int
    requires |f| == 10 && |g| == 10
  {
    Times(f[0] as int, g[4] as int) + 2 * Times(f[1] as int, g[3] as int) + Times(f[2] as int, g[2] as int) +
    2 * Times(f[3] as int, g[1] as int) + Times(f[4] as int, g[0] as int) + 38 * Times(f[5] as int, g[9] as int) +
    19 * Times(f[6] as int, g[8] as int) + 38 * Times(f[7] as int, g[7] as int) +
    19 * Times(f[8] as int, g[6] as int) + 38 * Times(f[9] as int, g[5] as int)
  }

  ghost function Column5(f: seq<int32>, g: seq<int32>): int
    requires |f| == 10 && |g| == 10
  {
    Times(f[0] as int, g[5] as int) + Times(f[1] as int, g[4] as int) + Times(f[2] as int, g[3] as int) +
    Times(f[3] as int, g[2] as int) + Times(f[4] as int, g[1] as int) + Times(f[5] as int, g[0] as int) +
    19 * Times(f[6] as int, g[9] as int) + 19 * Times(f[7] as int, g[8] as int) +
    19 * Times(f[8] as int, g[7] as int) + 19 * Times(f[9] as int, g[6] as int)
  }

  ghost function Column6(f: seq<int32>, g: seq<int32>): int
    requires |f| == 10 && |g| == 10
  {
    Times(f[0] as int, g[6] as int) + 2 * Times(f[1] as int, g[5] as int) + Times(f[2] as int, g[4] as int) +
    2 * Times(f[3] as int, g[3] as int) + Times(f[4] as int, g[2] as int) + 2 * Times(f[5] as int, g[1] as int) +
    Times(f[6] as int, g[0] as int) + 38 * Times(f[7] as int, g[9] as int) + 19 * Times(f[8] as int, g[8] as int) +
    38 * Times(f[9] as int, g[7] as int)
  }

  ghost function Column7(f: seq<int32>, g: seq<int32>): int
    requires |f| == 10 && |g| == 10
  {
    Times(f[0] as int, g[7] as int) + Times(f[1] as int, g[6] as int) + Times(f[2] as int, g[5] as int) +
    Times(f[3] as int, g[4] as int) + Times(f[4] as int, g[3] as int) + Times(f[5] as int, g[2] as int) +
    Times(f[6] as int, g[1] as int) + Times(f[7] as int, g[0] as int) + 19 * Times(f[8] as int, g[9] as int) +
    19 * Times(f[9] as int, g[8] as int)
  }

  ghost function Column8(f: seq<int32>, g: seq<int32>): int
    requires |f| == 10 && |g| == 10
  {
    Times(f[0] as int, g[8] as int) + 2 * Times(f[1] as int, g[7] as int) + Times(f[2] as int, g[6] as int) +
    2 * Times(f[3] as int, g[5] as int) + Times(f[4] as int, g[4] as int) + 2 * Times(f[5] as int, g[3] as int) +
    Times(f[6] as int, g[2] as int) + 2 * Times(f[7] as int, g[1] as int) + Times(f[8] as int, g[0] as int) +
    38 * Times(f[9] as int, g[9] as int)
  }

  ghost function Column9(f: seq<int32>, g: seq<int32>): int
    requires |f| == 10 && |g| == 10
  {
    Times(f[0] as int, g[9] as int) + Times(f[1] as int, g[8] as int) + Times(f[2] as int, g[7] as int) +
    Times(f[3] as int, g[6] as int) + Times(f[4] as int, g[5] as int) + Times(f[5] as int, g[4] as int) +
    Times(f[6] as int, g[3] as int) + Times(f[7] as int, g[2] as int) + Times(f[8] as int, g[1] as int) +
    Times(f[9] as int, g[0] as int)
  }

  method MulColumn0(f: seq<int32>, g: seq<int32>) returns (h: int64)
    requires Loose(f) && Loose(g)
    ensures -0x1000_0000_0000_0000 <= h <= 0x1000_0000_0000_0000 && h as int == Column0(f, g)
  {
    h := 0;
    h := Term(h, 1, f[0], 1, g[0], 73819750, 73819750);
    h := Term(h, 2, f[1], 19, g[9], 73819750, 701287625);
    h := Term(h, 1, f[2], 19, g[8], 73819750, 1402575250);
    h := Term(h, 2, f[3], 19, g[7], 73819750, 701287625);
    h := Term(h, 1, f[4], 19, g[6], 73819750, 1402575250);
    h := Term(h, 2, f[5], 19, g[5], 73819750, 701287625);
    h := Term(h, 1, f[6], 19, g[4], 73819750, 1402575250);
    h := Term(h, 2, f[7], 19, g[3], 73819750, 701287625);
    h := Term(h, 1, f[8], 19, g[2], 73819750, 1402575250);
    h := Term(h, 2, f[9], 19, g[1], 73819750, 701287625);
  }

  method MulColumn1(f: seq<int32>, g: seq<int32>) returns (h: int64)
    requires Loose(f) && Loose(g)
    ensures -0x800_0000_0000_0000 <= h <= 0x800_0000_0000_0000 && h as int == Column1(f, g)
  {
    h := 0;
    h := Term(h, 1, f[0], 1, g[1], 73819750, 36909875);
    h := Term(h, 1, f[1], 1, g[0], 36909875, 73819750);
    h := Term(h, 1, f[2], 19, g[9], 73819750, 701287625);
    h := Term(h, 1, f[3], 19, g[8], 36909875, 1402575250);
    h := Term(h, 1, f[4], 19, g[7], 73819750, 701287625);
    h := Term(h, 1, f[5], 19, g[6], 36909875, 1402575250);
    h := Term(h, 1, f[6], 19, g[5], 73819750, 701287625);
    h := Term(h, 1, f[7], 19, g[4], 36909875, 1402575250);
    h := Term(h, 1, f[8], 19, g[3], 73819750, 701287625);
    h := Term(h, 1, f[9], 19, g[2], 36909875, 1402575250);
  }

  method MulColumn2(f: seq<int32>, g: seq<int32>) returns (h: int64)
    requires Loose(f) && Loose(g)
    ensures -0x800_0000_0000_0000 <= h <= 0x800_0000_0000_0000 && h as int == Column2(f, g)
  {
    h := 0;
    h := Term(h, 1, f[0], 1, g[2], 73819750, 73819750);
    h := Term(h, 2, f[1], 1, g[1], 73819750, 36909875);
    h := Term(h, 1, f[2], 1, g[0], 73819750, 73819750);
    h := Term(h, 2, f[3], 19, g[9], 73819750, 701287625);
    h := Term(h, 1, f[4], 19, g[8], 73819750, 1402575250);
    h := Term(h, 2, f[5], 19, g[7], 73819750, 701287625);
    h := Term(h, 1, f[6], 19, g[6], 73819750, 1402575250);
    h := Term(h, 2, f[7], 19, g[5], 73819750, 701287625);
    h := Term(h, 1, f[8], 19, g[4], 73819750, 1402575250);
    h := Term(h, 2, f[9], 19, g[3], 73819750, 701287625);
  }

  method MulColumn3(f: seq<int32>, g: seq<int32>) returns (h: int64)
    requires Loose(f) && Loose(g)
    ensures -0x800_0000_0000_0000 <= h <= 0x800_0000_0000_0000 && h as int == Column3(f, g)
  {
    h := 0;
    h := Term(h, 1, f[0], 1, g[3], 73819750, 36909875);
    h := Term(h, 1, f[1], 1, g[2], 36909875, 73819750);
    h := Term(h, 1, f[2], 1, g[1], 73819750, 36909875);
    h := Term(h, 1, f[3], 1, g[0], 36909875, 73819750);
    h := Term(h, 1, f[4], 19, g[9], 73819750, 701287625);
    h := Term(h, 1, f[5], 19, g[8], 36909875, 1402575250);
    h := Term(h, 1, f[6], 19, g[7], 73819750, 701287625);
    h := Term(h, 1, f[7], 19, g[6], 36909875, 1402575250);
    h := Term(h, 1, f[8], 19, g[5], 73819750, 701287625);
    h := Term(h, 1, f[9], 19, g[4], 36909875, 1402575250);
  }

  method MulColumn4(f: seq<int32>, g: seq<int32>) returns (h: int64)
    requires Loose(f) && Loose(g)
    ensures -0x800_0000_0000_0000 <= h <= 0x800_0000_0000_0000 && h as int == Column4(f, g)
  {
    h := 0;
    h := Term(h, 1, f[0], 1, g[4], 73819750, 73819750);
    h := Term(h, 2, f[1], 1, g[3], 73819750, 36909875);
    h := Term(h, 1, f[2], 1, g[2], 73819750, 73819750);
    h := Term(h, 2, f[3], 1, g[1], 73819750, 36909875);
    h := Term(h, 1, f[4], 1, g[0], 73819750, 73819750);
    h := Term(h, 2, f[5], 19, g[9], 73819750, 701287625);
    h := Term(h, 1, f[6], 19, g[8], 73819750, 1402575250);
    h := Term(h, 2, f[7], 19, g[7], 73819750, 701287625);
    h := Term(h, 1, f[8], 19, g[6], 73819750, 1402575250);
    h := Term(h, 2, f[9], 19, g[5], 73819750, 701287625);
  }

  method MulColumn5(f: seq<int32>, g: seq<int32>) returns (h: int64)
    requires Loose(f) && Loose(g)
    ensures -0x400_0000_0000_0000 <= h <= 0x400_0000_0000_0000 && h as int == Column5(f, g)
  {
    h := 0;
    h := Term(h, 1, f[0], 1, g[5], 73819750, 36909875);
    h := Term(h, 1, f[1], 1, g[4], 36909875, 73819750);
    h := Term(h, 1, f[2], 1, g[3], 73819750, 36909875);
    h := Term(h, 1, f[3], 1, g[2], 36909875, 73819750);
    h := Term(h, 1, f[4], 1, g[1], 73819750, 36909875);
    h := Term(h, 1, f[5], 1, g[0], 36909875, 73819750);
    h := Term(h, 1, f[6], 19, g[9], 73819750, 701287625);
    h := Term(h, 1, f[7], 19, g[8], 36909875, 1402575250);
    h := Term(h, 1, f[8], 19, g[7], 73819750, 701287625);
    h := Term(h, 1, f[9], 19, g[6], 36909875, 1402575250);
  }

  method MulColumn6(f: seq<int32>, g: seq<int32>) returns (h: int64)
    requires Loose(f) && Loose(g)
    ensures -0x400_0000_0000_0000 <= h <= 0x400_0000_0000_0000 && h as int == Column6(f, g)
  {
    h := 0;
    h := Term(h, 1, f[0], 1, g[6], 73819750, 73819750);
    h := Term(h, 2, f[1], 1, g[5], 73819750, 36909875);
    h := Term(h, 1, f[2], 1, g[4], 73819750, 73819750);
    h := Term(h, 2, f[3], 1, g[3], 73819750, 36909875);
    h := Term(h, 1, f[4], 1, g[2], 73819750, 73819750);
    h := Term(h, 2, f[5], 1, g[1], 73819750, 36909875);
    h := Term(h, 1, f[6], 1, g[0], 73819750, 73819750);
    h := Term(h, 2, f[7], 19, g[9], 73819750, 701287625);
    h := Term(h, 1, f[8], 19, g[8], 73819750, 1402575250);
    h := Term(h, 2, f[9], 19, g[7], 73819750, 701287625);
  }

  method MulColumn7(f: seq<int32>, g: seq<int32>) returns (h: int64)
    requires Loose(f) && Loose(g)
    ensures -0x200_0000_0000_0000 <= h <= 0x200_0000_0000_0000 && h as int == Column7(f, g)
  {
    h := 0;
    h := Term(h, 1, f[0], 1, g[7], 73819750, 36909875);
    h := Term(h, 1, f[1], 1, g[6], 36909875, 73819750);
    h := Term(h, 1, f[2], 1, g[5], 73819750, 36909875);
    h := Term(h, 1, f[3], 1, g[4], 36909875, 73819750);
    h := Term(h, 1, f[4], 1, g[3], 73819750, 36909875);
    h := Term(h, 1, f[5], 1, g[2], 36909875, 73819750);
    h := Term(h, 1, f[6], 1, g[1], 73819750, 36909875);
    h := Term(h, 1, f[7], 1, g[0], 36909875, 73819750);
    h := Term(h, 1, f[8], 19, g[9], 73819750, 701287625);
    h := Term(h, 1, f[9], 19, g[8], 36909875, 1402575250);
  }

  method MulColumn8(f: seq<int32>, g: seq<int32>) returns (h: int64)
    requires Loose(f) && Loose(g)
    ensures -0x200_0000_0000_0000 <= h <= 0x200_0000_0000_0000 && h as int == Column8(f, g)
  {
    h := 0;
    h := Term(h, 1, f[0], 1, g[8], 73819750, 73819750);
    h := Term(h, 2, f[1], 1, g[7], 73819750, 36909875);
    h := Term(h, 1, f[2], 1, g[6], 73819750, 73819750);
    h := Term(h, 2, f[3], 1, g[5], 73819750, 36909875);
    h := Term(h, 1, f[4], 1, g[4], 73819750, 73819750);
    h := Term(h, 2, f[5], 1, g[3], 73819750, 36909875);
    h := Term(h, 1, f[6], 1, g[2], 73819750, 73819750);
    h := Term(h, 2, f[7], 1, g[1], 73819750, 36909875);
    h := Term(h, 1, f[8], 1, g[0], 73819750, 73819750);
    h := Term(h, 2, f[9], 19, g[9], 73819750, 701287625);
  }

  method MulColumn9(f: seq<int32>, g: seq<int32>) returns (h: int64)
    requires Loose(f) && Loose(g)
    ensures -0x80_0000_0000_0000 <= h <= 0x80_0000_0000_0000 && h as int == Column9(f, g)
  {
    h := 0;
    h := Term(h, 1, f[0], 1, g[9], 73819750, 36909875);
    h := Term(h, 1, f[1], 1, g[8], 36909875, 73819750);
    h := Term(h, 1, f[2], 1, g[7], 73819750, 36909875);
    h := Term(h, 1, f[3], 1, g[6], 36909875, 73819750);
    h := Term(h, 1, f[4], 1, g[5], 73819750, 36909875);
    h := Term(h, 1, f[5], 1, g[4], 36909875, 73819750);
    h := Term(h, 1, f[6], 1, g[3], 73819750, 36909875);
    h := Term(h, 1, f[7], 1, g[2], 36909875, 73819750);
    h := Term(h, 1, f[8], 1, g[1], 73819750, 36909875);
    h := Term(h, 1, f[9], 1, g[0], 36909875, 73819750);
  }

  lemma Distribute10(x: int, y: int, b0: int, b1: int, b2: int, b3: int, b4: int, b5: int, b6: int, b7: int,
    b8: int, b9: int)
    requires y == V10(b0, b1, b2, b3, b4, b5, b6, b7, b8, b9)
    ensures x * y == V10(x * b0, x * b1, x * b2, x * b3, x * b4, x * b5, x * b6, x * b7, x * b8, x * b9)
  {
  }

  ghost function Evens(x: int, g: seq<int32>): int
    requires |g| == 10
  {
    V10(Times(x, g[0] as int), 0, Times(x, g[2] as int), 0, Times(x, g[4] as int), 0, Times(x, g[6] as int), 0,
      Times(x, g[8] as int), 0)
  }

  ghost function Odds(x: int, g: seq<int32>): int
    requires |g| == 10
  {
    V10(0, Times(x, g[1] as int), 0, Times(x, g[3] as int), 0, Times(x, g[5] as int), 0, Times(x, g[7] as int), 0,
      Times(x, g[9] as int))
  }

  lemma TimesCommutes(x: int, y: int)
    ensures Times(x, y) == Times(y, x)
  {
    TimesIsProduct(x, y);
    TimesIsProduct(y, x);
  }

  lemma TimesColumn(y: int, v: int, b0: int, b1: int, b2: int, b3: int, b4: int, b5: int, b6: int, b7: int,
    b8: int, b9: int)
    requires v == V10(b0, b1, b2, b3, b4, b5, b6, b7, b8, b9)
    ensures y * v == V10(Times(y, b0), Times(y, b1), Times(y, b2), Times(y, b3), Times(y, b4), Times(y, b5),
      Times(y, b6), Times(y, b7), Times(y, b8), Times(y, b9))
  {
    Distribute10(y, v, b0, b1, b2, b3, b4, b5, b6, b7, b8, b9);
    TimesIsProduct(y, b0);
    TimesIsProduct(y, b1);
    TimesIsProduct(y, b2);
    TimesIsProduct(y, b3);
    TimesIsProduct(y, b4);
    TimesIsProduct(y, b5);
    TimesIsProduct(y, b6);
    TimesIsProduct(y, b7);
    TimesIsProduct(y, b8);
    TimesIsProduct(y, b9);
  }

  lemma TimesRow(y: int, v: int, b0: int, b1: int, b2: int, b3: int, b4: int, b5: int, b6: int, b7: int, b8: int,
    b9: int)
    requires v == V10(b0, b1, b2, b3, b4, b5, b6, b7, b8, b9)
    ensures y * v == V10(Times(b0, y), Times(b1, y), Times(b2, y), Times(b3, y), Times(b4, y), Times(b5, y),
      Times(b6, y), Times(b7, y), Times(b8, y), Times(b9, y))
  {
    TimesColumn(y, v, b0, b1, b2, b3, b4, b5, b6, b7, b8, b9);
    TimesCommutes(y, b0);
    TimesCommutes(y, b1);
    TimesCommutes(y, b2);
    TimesCommutes(y, b3);
    TimesCommutes(y, b4);
    TimesCommutes(y, b5);
    TimesCommutes(y, b6);
    TimesCommutes(y, b7);
    TimesCommutes(y, b8);
    TimesCommutes(y, b9);
  }

  /** x times a field element, even limbs and odd limbs apart. */
  lemma RowProduct(x: int, g: seq<int32>)
    requires |g| == 10
    ensures Evens(x, g) + Odds(x, g) == Times(x, Fe(g))
  {
    FeOf(g);
    TimesIsProduct(x, Fe(g));
    TimesColumn(x, Fe(g), g[0] as int, g[1] as int, g[2] as int, g[3] as int, g[4] as int, g[5] as int,
      g[6] as int, g[7] as int, g[8] as int, g[9] as int);
  }

  /** Even columns, less a multiple `k` of P. */
  lemma EvenColumns(f: seq<int32>, g: seq<int32>, h: seq<int64>) returns (k: int)
    requires |f| == 10 && |g| == 10 && |h| == 10
    requires h[0] as int == Column0(f, g) && h[2] as int == Column2(f, g) && h[4] as int == Column4(f, g)
    requires h[6] as int == Column6(f, g) && h[8] as int == Column8(f, g)
    ensures V10(h[0] as int, 0, h[2] as int, 0, h[4] as int, 0, h[6] as int, 0, h[8] as int, 0) + P * k == V10(
      Evens(f[0] as int, g), Odds(f[1] as int, g), Evens(f[2] as int, g), Odds(f[3] as int, g), Evens(f[4] as int, g),
      Odds(f[5] as int, g), Evens(f[6] as int, g), Odds(f[7] as int, g), Evens(f[8] as int, g), Odds(f[9] as int, g))
  {
    k :=
      2 * Times(f[1] as int, g[9] as int) + Times(f[2] as int, g[8] as int) + 2 * Times(f[3] as int, g[7] as int) +
      0x10_0000_0000_0000 * Times(f[3] as int, g[9] as int) + Times(f[4] as int, g[6] as int) +
      0x8_0000_0000_0000 * Times(f[4] as int, g[8] as int) + 2 * Times(f[5] as int, g[5] as int) +
      0x10_0000_0000_0000 * Times(f[5] as int, g[7] as int) +
      0x80_0000_0000_0000_0000_0000_0000 * Times(f[5] as int, g[9] as int) + Times(f[6] as int, g[4] as int) +
      0x8_0000_0000_0000 * Times(f[6] as int, g[6] as int) +
      0x40_0000_0000_0000_0000_0000_0000 * Times(f[6] as int, g[8] as int) + 2 * Times(f[7] as int, g[3] as int) +
      0x10_0000_0000_0000 * Times(f[7] as int, g[5] as int) +
      0x80_0000_0000_0000_0000_0000_0000 * Times(f[7] as int, g[7] as int) +
      0x400_0000_0000_0000_0000_0000_0000_0000_0000_0000 * Times(f[7] as int, g[9] as int) +
      Times(f[8] as int, g[2] as int) + 0x8_0000_0000_0000 * Times(f[8] as int, g[4] as int) +
      0x40_0000_0000_0000_0000_0000_0000 * Times(f[8] as int, g[6] as int) +
      0x200_0000_0000_0000_0000_0000_0000_0000_0000_0000 * Times(f[8] as int, g[8] as int) +
      2 * Times(f[9] as int, g[1] as int) + 0x10_0000_0000_0000 * Times(f[9] as int, g[3] as int) +
      0x80_0000_0000_0000_0000_0000_0000 * Times(f[9] as int, g[5] as int) +
      0x400_0000_0000_0000_0000_0000_0000_0000_0000_0000 * Times(f[9] as int, g[7] as int) +
      0x2000_0000_0000_0000_0000_0000_0000_0000_0000_0000_0000_0000_0000 * Times(f[9] as int, g[9] as int);
  }

  /** Odd columns, less a multiple `k` of P. */
  lemma OddColumns(f: seq<int32>, g: seq<int32>, h: seq<int64>) returns (k: int)
    requires |f| == 10 && |g| == 10 && |h| == 10
    requires h[1] as int == Column1(f, g) && h[3] as int == Column3(f, g) && h[5] as int == Column5(f, g)
    requires h[7] as int == Column7(f, g) && h[9] as int == Column9(f, g)
    ensures V10(0, h[1] as int, 0, h[3] as int, 0, h[5] as int, 0, h[7] as int, 0, h[9] as int) + P * k == V10(
      Odds(f[0] as int, g), Evens(f[1] as int, g), Odds(f[2] as int, g), Evens(f[3] as int, g), Odds(f[4] as int, g),
      Evens(f[5] as int, g), Odds(f[6] as int, g), Evens(f[7] as int, g), Odds(f[8] as int, g), Evens(f[9] as int, g))
  {
    k :=
      0x400_0000 * Times(f[2] as int, g[9] as int) + 0x400_0000 * Times(f[3] as int, g[8] as int) +
      0x400_0000 * Times(f[4] as int, g[7] as int) + 0x2000_0000_0000_0000_0000 * Times(f[4] as int, g[9] as int) +
      0x400_0000 * Times(f[5] as int, g[6] as int) + 0x2000_0000_0000_0000_0000 * Times(f[5] as int, g[8] as int) +
      0x400_0000 * Times(f[6] as int, g[5] as int) + 0x2000_0000_0000_0000_0000 * Times(f[6] as int, g[7] as int) +
      0x1_0000_0000_0000_0000_0000_0000_0000_0000 * Times(f[6] as int, g[9] as int) +
      0x400_0000 * Times(f[7] as int, g[4] as int) + 0x2000_0000_0000_0000_0000 * Times(f[7] as int, g[6] as int) +
      0x1_0000_0000_0000_0000_0000_0000_0000_0000 * Times(f[7] as int, g[8] as int) +
      0x400_0000 * Times(f[8] as int, g[3] as int) + 0x2000_0000_0000_0000_0000 * Times(f[8] as int, g[5] as int) +
      0x1_0000_0000_0000_0000_0000_0000_0000_0000 * Times(f[8] as int, g[7] as int) +
      0x8_0000_0000_0000_0000_0000_0000_0000_0000_0000_0000_0000 * Times(f[8] as int, g[9] as int) +
      0x400_0000 * Times(f[9] as int, g[2] as int) + 0x2000_0000_0000_0000_0000 * Times(f[9] as int, g[4] as int) +
      0x1_0000_0000_0000_0000_0000_0000_0000_0000 * Times(f[9] as int, g[6] as int) +
      0x8_0000_0000_0000_0000_0000_0000_0000_0000_0000_0000_0000 * Times(f[9] as int, g[8] as int);
  }

  lemma ProductOfRows(f: seq<int32>, y: int)
    requires |f| == 10
    ensures Fe(f) * y == V10(Times(f[0] as int, y), Times(f[1] as int, y), Times(f[2] as int, y),
      Times(f[3] as int, y), Times(f[4] as int, y), Times(f[5] as int, y), Times(f[6] as int, y),
      Times(f[7] as int, y), Times(f[8] as int, y), Times(f[9] as int, y))
  {
    FeOf(f);
    TimesRow(y, Fe(f), f[0] as int, f[1] as int, f[2] as int, f[3] as int, f[4] as int, f[5] as int, f[6] as int,
      f[7] as int, f[8] as int, f[9] as int);
  }

  /** The rows add up to the product. */
  lemma RowsAreProduct(f: seq<int32>, g: seq<int32>)
    requires |f| == 10 && |g| == 10
    ensures Fe(f) * Fe(g) ==
      V10(
        Evens(f[0] as int, g), Odds(f[1] as int, g), Evens(f[2] as int, g), Odds(f[3] as int, g),
          Evens(f[4] as int, g),
        Odds(f[5] as int, g), Evens(f[6] as int, g), Odds(f[7] as int, g), Evens(f[8] as int, g), Odds(f[9] as int,
          g)) +
      V10(
        Odds(f[0] as int, g), Evens(f[1] as int, g), Odds(f[2] as int, g), Evens(f[3] as int, g), Odds(f[4] as int,
          g),
        Evens(f[5] as int, g), Odds(f[6] as int, g), Evens(f[7] as int, g), Odds(f[8] as int, g),
          Evens(f[9] as int, g))
  {
    RowProduct(f[0] as int, g);
    RowProduct(f[1] as int, g);
    RowProduct(f[2] as int, g);
    RowProduct(f[3] as int, g);
    RowProduct(f[4] as int, g);
    RowProduct(f[5] as int, g);
    RowProduct(f[6] as int, g);
    RowProduct(f[7] as int, g);
    RowProduct(f[8] as int, g);
    RowProduct(f[9] as int, g);
    ProductOfRows(f, Fe(g));
  }

  // The columns of f * f, each off-diagonal pair taken once and doubled.

  method SquareColumn0(f: seq<int32>) returns (h: int64)
    requires Loosest(f)
    ensures -0x2000_0000_0000_0000 <= h <= 0x2000_0000_0000_0000 && h as int == Column0(f, f)
  {
    h := 0;
    h := Term(h, 1, f[0], 1, f[0], 110729625, 110729625);
    h := Term(h, 2, f[1], 38, f[9], 110729624, 2103862856);
    h := Term(h, 2, f[2], 19, f[8], 221459250, 2103862875);
    h := Term(h, 2, f[3], 38, f[7], 110729624, 2103862856);
    h := Term(h, 2, f[4], 19, f[6], 221459250, 2103862875);
    h := Term(h, 1, f[5], 38, f[5], 55364812, 2103862856);
    TimesCommutes(f[1] as int, f[9] as int);
    TimesCommutes(f[2] as int, f[8] as int);
    TimesCommutes(f[3] as int, f[7] as int);
    TimesCommutes(f[4] as int, f[6] as int);
  }

  method SquareColumn1(f: seq<int32>) returns (h: int64)
    requires Loosest(f)
    ensures -0x1000_0000_0000_0000 <= h <= 0x1000_0000_0000_0000 && h as int == Column1(f, f)
  {
    h := 0;
    h := Term(h, 2, f[0], 1, f[1], 221459250, 55364812);
    h := Term(h, 1, f[2], 38, f[9], 110729625, 2103862856);
    h := Term(h, 2, f[3], 19, f[8], 110729624, 2103862875);
    h := Term(h, 1, f[4], 38, f[7], 110729625, 2103862856);
    h := Term(h, 2, f[5], 19, f[6], 110729624, 2103862875);
    TimesCommutes(f[0] as int, f[1] as int);
    TimesCommutes(f[2] as int, f[9] as int);
    TimesCommutes(f[3] as int, f[8] as int);
    TimesCommutes(f[4] as int, f[7] as int);
    TimesCommutes(f[5] as int, f[6] as int);
  }

  method SquareColumn2(f: seq<int32>) returns (h: int64)
    requires Loosest(f)
    ensures -0x2000_0000_0000_0000 <= h <= 0x2000_0000_0000_0000 && h as int == Column2(f, f)
  {
    h := 0;
    h := Term(h, 2, f[0], 1, f[2], 221459250, 110729625);
    h := Term(h, 2, f[1], 1, f[1], 110729624, 55364812);
    h := Term(h, 2, f[3], 38, f[9], 110729624, 2103862856);
    h := Term(h, 2, f[4], 19, f[8], 221459250, 2103862875);
    h := Term(h, 2, f[5], 38, f[7], 110729624, 2103862856);
    h := Term(h, 1, f[6], 19, f[6], 110729625, 2103862875);
    TimesCommutes(f[0] as int, f[2] as int);
    TimesCommutes(f[3] as int, f[9] as int);
    TimesCommutes(f[4] as int, f[8] as int);
    TimesCommutes(f[5] as int, f[7] as int);
  }

  method SquareColumn3(f: seq<int32>) returns (h: int64)
    requires Loosest(f)
    ensures -0x1000_0000_0000_0000 <= h <= 0x1000_0000_0000_0000 && h as int == Column3(f, f)
  {
    h := 0;
    h := Term(h, 2, f[0], 1, f[3], 221459250, 55364812);
    h := Term(h, 2, f[1], 1, f[2], 110729624, 110729625);
    h := Term(h, 1, f[4], 38, f[9], 110729625, 2103862856);
    h := Term(h, 2, f[5], 19, f[8], 110729624, 2103862875);
    h := Term(h, 1, f[6], 38, f[7], 110729625, 2103862856);
    TimesCommutes(f[0] as int, f[3] as int);
    TimesCommutes(f[1] as int, f[2] as int);
    TimesCommutes(f[4] as int, f[9] as int);
    TimesCommutes(f[5] as int, f[8] as int);
    TimesCommutes(f[6] as int, f[7] as int);
  }

  method SquareColumn4(f: seq<int32>) returns (h: int64)
    requires Loosest(f)
    ensures -0x1000_0000_0000_0000 <= h <= 0x1000_0000_0000_0000 && h as int == Column4(f, f)
  {
    h := 0;
    h := Term(h, 2, f[0], 1, f[4], 221459250, 110729625);
    h := Term(h, 2, f[1], 2, f[3], 110729624, 110729624);
    h := Term(h, 1, f[2], 1, f[2], 110729625, 110729625);
    h := Term(h, 2, f[5], 38, f[9], 110729624, 2103862856);
    h := Term(h, 2, f[6], 19, f[8], 221459250, 2103862875);
    h := Term(h, 1, f[7], 38, f[7], 55364812, 2103862856);
    TimesCommutes(f[0] as int, f[4] as int);
    TimesCommutes(f[1] as int, f[3] as int);
    TimesCommutes(f[5] as int, f[9] as int);
    TimesCommutes(f[6] as int, f[8] as int);
  }

  method SquareColumn5(f: seq<int32>) returns (h: int64)
    requires Loosest(f)
    ensures -0x800_0000_0000_0000 <= h <= 0x800_0000_0000_0000 && h as int == Column5(f, f)
  {
    h := 0;
    h := Term(h, 2, f[0], 1, f[5], 221459250, 55364812);
    h := Term(h, 2, f[1], 1, f[4], 110729624, 110729625);
    h := Term(h, 2, f[2], 1, f[3], 221459250, 55364812);
    h := Term(h, 1, f[6], 38, f[9], 110729625, 2103862856);
    h := Term(h, 2, f[7], 19, f[8], 110729624, 2103862875);
    TimesCommutes(f[0] as int, f[5] as int);
    TimesCommutes(f[1] as int, f[4] as int);
    TimesCommutes(f[2] as int, f[3] as int);
    TimesCommutes(f[6] as int, f[9] as int);
    TimesCommutes(f[7] as int, f[8] as int);
  }

  method SquareColumn6(f: seq<int32>) returns (h: int64)
    requires Loosest(f)
    ensures -0x800_0000_0000_0000 <= h <= 0x800_0000_0000_0000 && h as int == Column6(f, f)
  {
    h := 0;
    h := Term(h, 2, f[0], 1, f[6], 221459250, 110729625);
    h := Term(h, 2, f[1], 2, f[5], 110729624, 110729624);
    h := Term(h, 2, f[2], 1, f[4], 221459250, 110729625);
    h := Term(h, 2, f[3], 1, f[3], 110729624, 55364812);
    h := Term(h, 2, f[7], 38, f[9], 110729624, 2103862856);
    h := Term(h, 1, f[8], 19, f[8], 110729625, 2103862875);
    TimesCommutes(f[0] as int, f[6] as int);
    TimesCommutes(f[1] as int, f[5] as int);
    TimesCommutes(f[2] as int, f[4] as int);
    TimesCommutes(f[7] as int, f[9] as int);
  }

  method SquareColumn7(f: seq<int32>) returns (h: int64)
    requires Loosest(f)
    ensures -0x400_0000_0000_0000 <= h <= 0x400_0000_0000_0000 && h as int == Column7(f, f)
  {
    h := 0;
    h := Term(h, 2, f[0], 1, f[7], 221459250, 55364812);
    h := Term(h, 2, f[1], 1, f[6], 110729624, 110729625);
    h := Term(h, 2, f[2], 1, f[5], 221459250, 55364812);
    h := Term(h, 2, f[3], 1, f[4], 110729624, 110729625);
    h := Term(h, 1, f[8], 38, f[9], 110729625, 2103862856);
    TimesCommutes(f[0] as int, f[7] as int);
    TimesCommutes(f[1] as int, f[6] as int);
    TimesCommutes(f[2] as int, f[5] as int);
    TimesCommutes(f[3] as int, f[4] as int);
    TimesCommutes(f[8] as int, f[9] as int);
  }

  method SquareColumn8(f: seq<int32>) returns (h: int64)
    requires Loosest(f)
    ensures -0x400_0000_0000_0000 <= h <= 0x400_0000_0000_0000 && h as int == Column8(f, f)
  {
    h := 0;
    h := Term(h, 2, f[0], 1, f[8], 221459250, 110729625);
    h := Term(h, 2, f[1], 2, f[7], 110729624, 110729624);
    h := Term(h, 2, f[2], 1, f[6], 221459250, 110729625);
    h := Term(h, 2, f[3], 2, f[5], 110729624, 110729624);
    h := Term(h, 1, f[4], 1, f[4], 110729625, 110729625);
    h := Term(h, 1, f[9], 38, f[9], 55364812, 2103862856);
    TimesCommutes(f[0] as int, f[8] as int);
    TimesCommutes(f[1] as int, f[7] as int);
    TimesCommutes(f[2] as int, f[6] as int);
    TimesCommutes(f[3] as int, f[5] as int);
  }

  method SquareColumn9(f: seq<int32>) returns (h: int64)
    requires Loosest(f)
    ensures -0x100_0000_0000_0000 <= h <= 0x100_0000_0000_0000 && h as int == Column9(f, f)
  {
    h := 0;
    h := Term(h, 2, f[0], 1, f[9], 221459250, 55364812);
    h := Term(h, 2, f[1], 1, f[8], 110729624, 110729625);
    h := Term(h, 2, f[2], 1, f[7], 221459250, 55364812);
    h := Term(h, 2, f[3], 1, f[6], 110729624, 110729625);
    h := Term(h, 2, f[4], 1, f[5], 221459250, 55364812);
    TimesCommutes(f[0] as int, f[9] as int);
    TimesCommutes(f[1] as int, f[8] as int);
    TimesCommutes(f[2] as int, f[7] as int);
    TimesCommutes(f[3] as int, f[6] as int);
    TimesCommutes(f[4] as int, f[5] as int);
  }

  /** Columns gathered as above stand for the product, less a multiple of P. */
  lemma ColumnsAreProduct(f: seq<int32>, g: seq<int32>, h: seq<int64>) returns (k: int)
    requires |f| == 10 && |g| == 10 && |h| == 10
    requires h[0] as int == Column0(f, g) && h[1] as int == Column1(f, g) && h[2] as int == Column2(f, g)
    requires h[3] as int == Column3(f, g) && h[4] as int == Column4(f, g) && h[5] as int == Column5(f, g)
    requires h[6] as int == Column6(f, g) && h[7] as int == Column7(f, g) && h[8] as int == Column8(f, g)
    requires h[9] as int == Column9(f, g)
    ensures V10(h[0] as int, h[1] as int, h[2] as int, h[3] as int, h[4] as int, h[5] as int, h[6] as int,
      h[7] as int, h[8] as int, h[9] as int) == Fe(f) * Fe(g) - P * k
  {
    var e := EvenColumns(f, g, h);
    var o := OddColumns(f, g, h);
    RowsAreProduct(f, g);
    k := e + o;
  }

  method MulLimbs(f: seq<int32>, g: seq<int32>) returns (r: seq<int32>, ghost q: int)
    requires Loose(f) && Loose(g)
    ensures Tight(r) && Fe(r) == Fe(f) * Fe(g) - P * q
  {
    var h0 := MulColumn0(f, g);
    var h1 := MulColumn1(f, g);
    var h2 := MulColumn2(f, g);
    var h3 := MulColumn3(f, g);
    var h4 := MulColumn4(f, g);
    var h5 := MulColumn5(f, g);
    var h6 := MulColumn6(f, g);
    var h7 := MulColumn7(f, g);
    var h8 := MulColumn8(f, g);
    var h9 := MulColumn9(f, g);
    r, q := Combine(h0, h1, h2, h3, h4, h5, h6, h7, h8, h9);
    ghost var k := ColumnsAreProduct(f, g, [h0, h1, h2, h3, h4, h5, h6, h7, h8, h9]);
    q := q + k;
  }

  method SquareLimbs(f: seq<int32>) returns (r: seq<int32>, ghost q: int)
    requires Loosest(f)
    ensures Tight(r) && Fe(r) == Fe(f) * Fe(f) - P * q
  {
    var h0 := SquareColumn0(f);
    var h1 := SquareColumn1(f);
    var h2 := SquareColumn2(f);
    var h3 := SquareColumn3(f);
    var h4 := SquareColumn4(f);
    var h5 := SquareColumn5(f);
    var h6 := SquareColumn6(f);
    var h7 := SquareColumn7(f);
    var h8 := SquareColumn8(f);
    var h9 := SquareColumn9(f);
    r, q := Combine(h0, h1, h2, h3, h4, h5, h6, h7, h8, h9);
    ghost var k := ColumnsAreProduct(f, f, [h0, h1, h2, h3, h4, h5, h6, h7, h8, h9]);
    q := q + k;
  }

  lemma LooseIsLoosest(f: seq<int32>)
    requires Loose(f)
    ensures Loosest(f)
  {
  }

  method SquareLoose(f: seq<int32>) returns (r: seq<int32>, ghost q: int)
    requires Loose(f)
    ensures Tight(r) && Fe(r) == Fe(f) * Fe(f) - P * q
  {
    LooseIsLoosest(f);
    r, q := SquareLimbs(f);
  }

  method Square2Limbs(f: seq<int32>) returns (r: seq<int32>, ghost q: int)
    requires Loosest(f)
    ensures Tight(r) && Fe(r) == 2 * (Fe(f) * Fe(f)) - P * q
  {
    var h0 := SquareColumn0(f);
    var h1 := SquareColumn1(f);
    var h2 := SquareColumn2(f);
    var h3 := SquareColumn3(f);
    var h4 := SquareColumn4(f);
    var h5 := SquareColumn5(f);
    var h6 := SquareColumn6(f);
    var h7 := SquareColumn7(f);
    var h8 := SquareColumn8(f);
    var h9 := SquareColumn9(f);
    r, q := Combine(h0 + h0, h1 + h1, h2 + h2, h3 + h3, h4 + h4, h5 + h5, h6 + h6, h7 + h7, h8 + h8, h9 + h9);
    ghost var k := ColumnsAreProduct(f, f, [h0, h1, h2, h3, h4, h5, h6, h7, h8, h9]);
    q := q + 2 * k;
  }

  /** h = f * g modulo P; h may be f or g. */
  method FeMul(h: array<int32>, f: array<int32>, g: array<int32>)
    requires h.Length == 10 && Loose(f[..]) && Loose(g[..])
    modifies h
    ensures Tight(h[..]) && Congruent(Fe(h[..]), old(Fe(f[..])) * old(Fe(g[..])))
  {
    var r, q := MulLimbs(f[..], g[..]);
    CongruentBy(Fe(r), Fe(f[..]) * Fe(g[..]), q);
    Store(h, r);
  }

  /** h = f * f modulo P; h may be f. */
  method FeSquare(h: array<int32>, f: array<int32>)
    requires h.Length == 10 && Loose(f[..])
    modifies h
    ensures Tight(h[..]) && Congruent(Fe(h[..]), old(Fe(f[..])) * old(Fe(f[..])))
  {
    var r, q := SquareLoose(f[..]);
    CongruentBy(Fe(r), Fe(f[..]) * Fe(f[..]), q);
    Store(h, r);
  }

  /** h = 2 * f * f modulo P; h may be f. */
  method FeSquare2(h: array<int32>, f: array<int32>)
    requires h.Length == 10 && Loosest(f[..])
    modifies h
    ensures Tight(h[..]) && Congruent(Fe(h[..]), 2 * (old(Fe(f[..])) * old(Fe(f[..]))))
  {
    var r, q := Square2Limbs(f[..]);
    CongruentBy(Fe(r), 2 * (Fe(f[..]) * Fe(f[..])), q);
    Store(h, r);
  }

  method AddLimbs(a: seq<int32>, b: seq<int32>, ghost even: int, ghost odd: int, ghost even': int, ghost odd': int)
    returns (r: seq<int32>)
    requires Within(a, even, odd) && Within(b, even', odd')
    requires 0 <= even && 0 <= odd && 0 <= even' && 0 <= odd'
    requires even + even' < 0x8000_0000 && odd + odd' < 0x8000_0000
    ensures Within(r, even + even', odd + odd') && Fe(r) == Fe(a) + Fe(b)
  {
    r := [a[0] + b[0], a[1] + b[1], a[2] + b[2], a[3] + b[3], a[4] + b[4], a[5] + b[5], a[6] + b[6], a[7] + b[7],
      a[8] + b[8], a[9] + b[9]];
    FeOf(a);
    FeOf(b);
    FeOf(r);
  }

  method SubLimbs(a: seq<int32>, b: seq<int32>, ghost even: int, ghost odd: int, ghost even': int, ghost odd': int)
    returns (r: seq<int32>)
    requires Within(a, even, odd) && Within(b, even', odd')
    requires 0 <= even && 0 <= odd && 0 <= even' && 0 <= odd'
    requires even + even' < 0x8000_0000 && odd + odd' < 0x8000_0000
    ensures Within(r, even + even', odd + odd') && Fe(r) == Fe(a) - Fe(b)
  {
    r := [a[0] - b[0], a[1] - b[1], a[2] - b[2], a[3] - b[3], a[4] - b[4], a[5] - b[5], a[6] - b[6], a[7] - b[7],
      a[8] - b[8], a[9] - b[9]];
    FeOf(a);
    FeOf(b);
    FeOf(r);
  }

  /** dst = a + b, limb by limb. The bounds add up. */
  method FeAdd(dst: array<int32>, a: array<int32>, b: array<int32>, ghost even: int, ghost odd: int,
      ghost even': int, ghost odd': int)
    requires dst.Length == 10 && Within(a[..], even, odd) && Within(b[..], even', odd')
    requires 0 <= even && 0 <= odd && 0 <= even' && 0 <= odd'
    requires even + even' < 0x8000_0000 && odd + odd' < 0x8000_0000
    modifies dst
    ensures Within(dst[..], even + even', odd + odd') && Fe(dst[..]) == old(Fe(a[..])) + old(Fe(b[..]))
  {
    var r := AddLimbs(a[..], b[..], even, odd, even', odd');
    Store(dst, r);
  }

  /** dst = a - b, limb by limb. */
  method FeSub(dst: array<int32>, a: array<int32>, b: array<int32>, ghost even: int, ghost odd: int,
      ghost even': int, ghost odd': int)
    requires dst.Length == 10 && Within(a[..], even, odd) && Within(b[..], even', odd')
    requires 0 <= even && 0 <= odd && 0 <= even' && 0 <= odd'
    requires even + even' < 0x8000_0000 && odd + odd' < 0x8000_0000
    modifies dst
    ensures Within(dst[..], even + even', odd + odd') && Fe(dst[..]) == old(Fe(a[..])) - old(Fe(b[..]))
  {
    var r := SubLimbs(a[..], b[..], even, odd, even', odd');
    Store(dst, r);
  }
}
