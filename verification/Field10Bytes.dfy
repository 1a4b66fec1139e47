/** Encoding and decoding of ten-limb field elements (crypto/curve25519/edwards_general.go, and the identical
    FeToBytes32 and FeFromBytes32 of crypto/curve25519/common_fe.go). */
module Field10Bytes {
  import opened Arith
  import opened Arrays
  import opened Bytes
  import opened Field10
  import opened MachineInts
  import opened Residues
  import opened ScalarBytes
  import ScalarKeys

  type U26 = x: int64 | 0 <= x < 0x400_0000
  type U25 = x: int64 | 0 <= x < 0x200_0000

  // ---- FeToBytes: the quotient by P ----

  /** One step of the chain of shifts, with the bits shifted out. */
  method Floor26(h: int32, q: int32) returns (q': int32, ghost r: int)
    requires -0x1000_0000 <= h <= 0x1000_0000 && -0x1000_0000 <= q <= 0x1000_0000
    ensures 0 <= r < 0x400_0000 && h as int + q as int == 0x400_0000 * q' as int + r
  {
    q' := (h + q) / 0x400_0000;
    r := (h + q) as int % 0x400_0000;
  }

  method Floor25(h: int32, q: int32) returns (q': int32, ghost r: int)
    requires -0x1000_0000 <= h <= 0x1000_0000 && -0x1000_0000 <= q <= 0x1000_0000
    ensures 0 <= r < 0x200_0000 && h as int + q as int == 0x200_0000 * q' as int + r
  {
    q' := (h + q) / 0x200_0000;
    r := (h + q) as int % 0x200_0000;
  }

  /** The chain of shifts divides the number, corrected by q0, by 2^255. */
  method ShiftedQuotient(h: seq<int32>) returns (q: int32, ghost q0: int, ghost r: int)
    requires Loosest(h)
    ensures 0x200_0000 * q0 <= 19 * h[9] as int + 0x100_0000 < 0x200_0000 * q0 + 0x200_0000
    ensures Fe(h) + q0 == TWO255 * q as int + r && 0 <= r < TWO255
  {
    q := (19 * h[9] + 0x100_0000) / 0x200_0000;
    q0 := q as int;
    ghost var r0, r1, r2, r3, r4, r5, r6, r7, r8, r9;
    q, r0 := Floor26(h[0], q);
    q, r1 := Floor25(h[1], q);
    q, r2 := Floor26(h[2], q);
    q, r3 := Floor25(h[3], q);
    q, r4 := Floor26(h[4], q);
    q, r5 := Floor25(h[5], q);
    q, r6 := Floor26(h[6], q);
    q, r7 := Floor25(h[7], q);
    q, r8 := Floor26(h[8], q);
    q, r9 := Floor25(h[9], q);
    r := V10(r0, r1, r2, r3, r4, r5, r6, r7, r8, r9);
    FeOf(h);
  }

  const LOW_BOUND: int := 0x100_0000_0000_0000_0000_0000_0000_0000_0000_0000_0000_0000_0000_0000_0000

  /** The estimate is exact: dividing h + q0 by 2^255 gives the quotient of h by P. */
  lemma EstimateIsExact(v: int, h9: int, low: int, q0: int, q: int, r: int)
    requires v == 0x40_0000_0000_0000_0000_0000_0000_0000_0000_0000_0000_0000_0000_0000_0000 * h9 + low
    requires -LOW_BOUND < low < LOW_BOUND
    requires -55364812 <= h9 <= 55364812
    requires 0x200_0000 * q0 <= 19 * h9 + 0x100_0000 < 0x200_0000 * q0 + 0x200_0000
    requires v + q0 == TWO255 * q + r && 0 <= r < TWO255
    ensures q == v / P && -2 <= q <= 2
  {
    var t, s := v / P, v % P;
    assert v == P * t + s && 0 <= s < P;
    assert -2 <= t <= 2;
    assert 0 <= s + q0 - 19 * t < TWO255;
    Quotient(v + q0, TWO255, t, s + q0 - 19 * t);
    Quotient(v + q0, TWO255, q, r);
  }

  lemma LowerLimbs(h: seq<int32>) returns (low: int)
    requires Loosest(h)
    ensures Fe(h) == 0x40_0000_0000_0000_0000_0000_0000_0000_0000_0000_0000_0000_0000_0000_0000 * h[9] as int + low
    ensures -LOW_BOUND < low < LOW_BOUND
  {
    low := V10(h[0] as int, h[1] as int, h[2] as int, h[3] as int, h[4] as int, h[5] as int, h[6] as int,
      h[7] as int, h[8] as int, 0);
    FeOf(h);
  }

  // ---- FeToBytes: the carries ----

  /** A carry out of a 26-bit limb, rounded down, so that what stays is not negative. */
  method Settle26(lo: int32, hi: int32) returns (lo': U26, hi': int32)
    requires -0x1000_0000 <= lo <= 0x1000_0000 && -0x1000_0000 <= hi <= 0x1000_0000
    ensures lo' as int + 0x400_0000 * hi' as int == lo as int + 0x400_0000 * hi as int
  {
    var c := lo / 0x400_0000;
    hi' := hi + c;
    lo' := (lo - c * 0x400_0000) as int64;
  }

  method Settle25(lo: int32, hi: int32) returns (lo': U25, hi': int32)
    requires -0x1000_0000 <= lo <= 0x1000_0000 && -0x1000_0000 <= hi <= 0x1000_0000
    ensures lo' as int + 0x200_0000 * hi' as int == lo as int + 0x200_0000 * hi as int
  {
    var c := lo / 0x200_0000;
    hi' := hi + c;
    lo' := (lo - c * 0x200_0000) as int64;
  }

  /** h + 19 q, fully carried; the carry out of the top is the multiple of 2^255 dropped. */
  method SettleLimbs(h: seq<int32>, q: int32)
    returns (r0: U26, r1: U25, r2: U26, r3: U25, r4: U26, r5: U25, r6: U26, r7: U25, r8: U26, r9: U25, ghost c: int)
    requires Loosest(h) && -2 <= q <= 2
    ensures V10(r0 as int, r1 as int, r2 as int, r3 as int, r4 as int, r5 as int, r6 as int, r7 as int, r8 as int,
      r9 as int) == Fe(h) + 19 * q as int - TWO255 * c
  {
    var t0, t1, t2, t3, t4: int32 := h[0] + 19 * q, h[1], h[2], h[3], h[4];
    var t5, t6, t7, t8, t9: int32 := h[5], h[6], h[7], h[8], h[9];
    var t10: int32 := 0;
    r0, t1 := Settle26(t0, t1);
    r1, t2 := Settle25(t1, t2);
    r2, t3 := Settle26(t2, t3);
    r3, t4 := Settle25(t3, t4);
    r4, t5 := Settle26(t4, t5);
    r5, t6 := Settle25(t5, t6);
    r6, t7 := Settle26(t6, t7);
    r7, t8 := Settle25(t7, t8);
    r8, t9 := Settle26(t8, t9);
    r9, t10 := Settle25(t9, t10);
    c := t10 as int;
    FeOf(h);
  }

  lemma SettledBound(
      r0: U26, r1: U25, r2: U26, r3: U25, r4: U26, r5: U25, r6: U26, r7: U25, r8: U26, r9: U25)
    ensures 0 <= V10(r0 as int, r1 as int, r2 as int, r3 as int, r4 as int, r5 as int, r6 as int, r7 as int,
      r8 as int, r9 as int) < TWO255
  {
  }

  /** The limbs of the canonical residue. */
  method CanonicalLimbs(h: seq<int32>)
    returns (r0: U26, r1: U25, r2: U26, r3: U25, r4: U26, r5: U25, r6: U26, r7: U25, r8: U26, r9: U25)
    requires Loosest(h)
    ensures V10(r0 as int, r1 as int, r2 as int, r3 as int, r4 as int, r5 as int, r6 as int, r7 as int, r8 as int,
      r9 as int) == Fe(h) % P
  {
    var q, q0, r := ShiftedQuotient(h);
    ghost var low := LowerLimbs(h);
    EstimateIsExact(Fe(h), h[9] as int, low, q0, q as int, r);
    ghost var c;
    r0, r1, r2, r3, r4, r5, r6, r7, r8, r9, c := SettleLimbs(h, q);
    SettledBound(r0, r1, r2, r3, r4, r5, r6, r7, r8, r9);
    DroppedMultiple(Fe(h), V10(r0 as int, r1 as int, r2 as int, r3 as int, r4 as int, r5 as int, r6 as int,
      r7 as int, r8 as int, r9 as int), c);
  }

  lemma DroppedMultiple(v: int, r: int, c: int)
    requires r == v + 19 * (v / P) - TWO255 * c && 0 <= r < TWO255
    ensures r == v % P
  {
    var q := v / P;
    assert v == P * q + v % P;
    Quotient(v + 19 * q, TWO255, c, r);
    Quotient(v + 19 * q, TWO255, q, v % P);
  }

  // ---- FeToBytes: the bytes ----

  /** Go's int32(x): the source shifts left in 32 bits, which only loses bits that byte() drops anyway. */
  function Wrap32(x: int64): int32 {
    ((x as int + 0x8000_0000) % 0x1_0000_0000 - 0x8000_0000) as int32
  }

  function ToByte32(x: int64): (b: byte)
    ensures b as int == x as int % 0x100
  {
    (Wrap32(x) as int % 0x100) as byte
  }

  // Each method emits the whole bytes of one limb; `lo` are the bits its lowest byte shares with the limb below,
  // `top` those it leaves for the limb above.

  method Emit0x26(l: int64) returns (b0: byte, b1: byte, b2: byte, top: int64)
    requires 0 <= l < 0x400_0000
    ensures 0 <= top < 4
    ensures b0 as int + 0x100 * b1 as int + 0x1_0000 * b2 as int + 0x100_0000 * top as int
      == l as int
  {
    b0 := ToByte32(l);
    b1 := ToByte32(l / 0x100);
    b2 := ToByte32(l / 0x1_0000);
    top := l / 0x100_0000;
    ghost var q := l as int / 0x100;
    Quotient(l as int, 0x100, q, (l as int - 0x100 * q));
    ghost var q2 := q / 0x100;
    Quotient(l as int, 0x1_0000, q2, l as int - 0x1_0000 * q2);
    ghost var q3 := q2 / 0x100;
    Quotient(l as int, 0x100_0000, q3, l as int - 0x100_0000 * q3);
  }

  method Emit2x25(lo: int64, l: int64) returns (b0: byte, b1: byte, b2: byte, top: int64)
    requires 0 <= lo < 4 && 0 <= l < 0x200_0000
    ensures 0 <= top < 8
    ensures b0 as int + 0x100 * b1 as int + 0x1_0000 * b2 as int + 0x100_0000 * top as int
      == lo as int + 4 * l as int
  {
    b0 := ToByte32(lo + l * 4);
    b1 := ToByte32(l / 0x40);
    b2 := ToByte32(l / 0x4000);
    top := l / 0x40_0000;
    ghost var q := l as int / 0x40;
    Quotient(lo as int + 4 * l as int, 0x100, q, lo as int + 4 * (l as int - 0x40 * q));
    ghost var q2 := q / 0x100;
    Quotient(l as int, 0x4000, q2, l as int - 0x4000 * q2);
    ghost var q3 := q2 / 0x100;
    Quotient(l as int, 0x40_0000, q3, l as int - 0x40_0000 * q3);
  }

  method Emit3x26(lo: int64, l: int64) returns (b0: byte, b1: byte, b2: byte, top: int64)
    requires 0 <= lo < 8 && 0 <= l < 0x400_0000
    ensures 0 <= top < 0x20
    ensures b0 as int + 0x100 * b1 as int + 0x1_0000 * b2 as int + 0x100_0000 * top as int
      == lo as int + 8 * l as int
  {
    b0 := ToByte32(lo + l * 8);
    b1 := ToByte32(l / 0x20);
    b2 := ToByte32(l / 0x2000);
    top := l / 0x20_0000;
    ghost var q := l as int / 0x20;
    Quotient(lo as int + 8 * l as int, 0x100, q, lo as int + 8 * (l as int - 0x20 * q));
    ghost var q2 := q / 0x100;
    Quotient(l as int, 0x2000, q2, l as int - 0x2000 * q2);
    ghost var q3 := q2 / 0x100;
    Quotient(l as int, 0x20_0000, q3, l as int - 0x20_0000 * q3);
  }

  method Emit5x25(lo: int64, l: int64) returns (b0: byte, b1: byte, b2: byte, top: int64)
    requires 0 <= lo < 0x20 && 0 <= l < 0x200_0000
    ensures 0 <= top < 0x40
    ensures b0 as int + 0x100 * b1 as int + 0x1_0000 * b2 as int + 0x100_0000 * top as int
      == lo as int + 0x20 * l as int
  {
    b0 := ToByte32(lo + l * 0x20);
    b1 := ToByte32(l / 8);
    b2 := ToByte32(l / 0x800);
    top := l / 0x8_0000;
    ghost var q := l as int / 8;
    Quotient(lo as int + 0x20 * l as int, 0x100, q, lo as int + 0x20 * (l as int - 8 * q));
    ghost var q2 := q / 0x100;
    Quotient(l as int, 0x800, q2, l as int - 0x800 * q2);
    ghost var q3 := q2 / 0x100;
    Quotient(l as int, 0x8_0000, q3, l as int - 0x8_0000 * q3);
  }

  method Emit6x26(lo: int64, l: int64) returns (b0: byte, b1: byte, b2: byte, b3: byte)
    requires 0 <= lo < 0x40 && 0 <= l < 0x400_0000
    ensures b0 as int + 0x100 * b1 as int + 0x1_0000 * b2 as int + 0x100_0000 * b3 as int
      == lo as int + 0x40 * l as int
  {
    b0 := ToByte32(lo + l * 0x40);
    b1 := ToByte32(l / 4);
    b2 := ToByte32(l / 0x400);
    b3 := ToByte32(l / 0x4_0000);
    ghost var q := l as int / 4;
    Quotient(lo as int + 0x40 * l as int, 0x100, q, lo as int + 0x40 * (l as int - 4 * q));
    ghost var q2 := q / 0x100;
    Quotient(l as int, 0x400, q2, l as int - 0x400 * q2);
    ghost var q3 := q2 / 0x100;
    Quotient(l as int, 0x4_0000, q3, l as int - 0x4_0000 * q3);
    Quotient(q3, 0x100, 0, q3);
  }

  method Emit0x25(l: int64) returns (b0: byte, b1: byte, b2: byte, top: int64)
    requires 0 <= l < 0x200_0000
    ensures 0 <= top < 2
    ensures b0 as int + 0x100 * b1 as int + 0x1_0000 * b2 as int + 0x100_0000 * top as int
      == l as int
  {
    b0 := ToByte32(l);
    b1 := ToByte32(l / 0x100);
    b2 := ToByte32(l / 0x1_0000);
    top := l / 0x100_0000;
    ghost var q := l as int / 0x100;
    Quotient(l as int, 0x100, q, (l as int - 0x100 * q));
    ghost var q2 := q / 0x100;
    Quotient(l as int, 0x1_0000, q2, l as int - 0x1_0000 * q2);
    ghost var q3 := q2 / 0x100;
    Quotient(l as int, 0x100_0000, q3, l as int - 0x100_0000 * q3);
  }

  method Emit1x26(lo: int64, l: int64) returns (b0: byte, b1: byte, b2: byte, top: int64)
    requires 0 <= lo < 2 && 0 <= l < 0x400_0000
    ensures 0 <= top < 8
    ensures b0 as int + 0x100 * b1 as int + 0x1_0000 * b2 as int + 0x100_0000 * top as int
      == lo as int + 2 * l as int
  {
    b0 := ToByte32(lo + l * 2);
    b1 := ToByte32(l / 0x80);
    b2 := ToByte32(l / 0x8000);
    top := l / 0x80_0000;
    ghost var q := l as int / 0x80;
    Quotient(lo as int + 2 * l as int, 0x100, q, lo as int + 2 * (l as int - 0x80 * q));
    ghost var q2 := q / 0x100;
    Quotient(l as int, 0x8000, q2, l as int - 0x8000 * q2);
    ghost var q3 := q2 / 0x100;
    Quotient(l as int, 0x80_0000, q3, l as int - 0x80_0000 * q3);
  }

  method Emit3x25(lo: int64, l: int64) returns (b0: byte, b1: byte, b2: byte, top: int64)
    requires 0 <= lo < 8 && 0 <= l < 0x200_0000
    ensures 0 <= top < 0x10
    ensures b0 as int + 0x100 * b1 as int + 0x1_0000 * b2 as int + 0x100_0000 * top as int
      == lo as int + 8 * l as int
  {
    b0 := ToByte32(lo + l * 8);
    b1 := ToByte32(l / 0x20);
    b2 := ToByte32(l / 0x2000);
    top := l / 0x20_0000;
    ghost var q := l as int / 0x20;
    Quotient(lo as int + 8 * l as int, 0x100, q, lo as int + 8 * (l as int - 0x20 * q));
    ghost var q2 := q / 0x100;
    Quotient(l as int, 0x2000, q2, l as int - 0x2000 * q2);
    ghost var q3 := q2 / 0x100;
    Quotient(l as int, 0x20_0000, q3, l as int - 0x20_0000 * q3);
  }

  method Emit4x26(lo: int64, l: int64) returns (b0: byte, b1: byte, b2: byte, top: int64)
    requires 0 <= lo < 0x10 && 0 <= l < 0x400_0000
    ensures 0 <= top < 0x40
    ensures b0 as int + 0x100 * b1 as int + 0x1_0000 * b2 as int + 0x100_0000 * top as int
      == lo as int + 0x10 * l as int
  {
    b0 := ToByte32(lo + l * 0x10);
    b1 := ToByte32(l / 0x10);
    b2 := ToByte32(l / 0x1000);
    top := l / 0x10_0000;
    ghost var q := l as int / 0x10;
    Quotient(lo as int + 0x10 * l as int, 0x100, q, lo as int + 0x10 * (l as int - 0x10 * q));
    ghost var q2 := q / 0x100;
    Quotient(l as int, 0x1000, q2, l as int - 0x1000 * q2);
    ghost var q3 := q2 / 0x100;
    Quotient(l as int, 0x10_0000, q3, l as int - 0x10_0000 * q3);
  }

  method Emit6x25Last(lo: int64, l: int64) returns (b0: byte, b1: byte, b2: byte, b3: byte)
    requires 0 <= lo < 0x40 && 0 <= l < 0x200_0000
    ensures b3 < 0x80
    ensures b0 as int + 0x100 * b1 as int + 0x1_0000 * b2 as int + 0x100_0000 * b3 as int
      == lo as int + 0x40 * l as int
  {
    b0 := ToByte32(lo + l * 0x40);
    b1 := ToByte32(l / 4);
    b2 := ToByte32(l / 0x400);
    b3 := ToByte32(l / 0x4_0000);
    ghost var q := l as int / 4;
    Quotient(lo as int + 0x40 * l as int, 0x100, q, lo as int + 0x40 * (l as int - 4 * q));
    ghost var q2 := q / 0x100;
    Quotient(l as int, 0x400, q2, l as int - 0x400 * q2);
    ghost var q3 := q2 / 0x100;
    Quotient(l as int, 0x4_0000, q3, l as int - 0x4_0000 * q3);
    Quotient(q3, 0x100, 0, q3);
  }

  /** Limbs 0 to 4 are bytes 0 to 15. */
  method EmitLow(r0: U26, r1: U25, r2: U26, r3: U25, r4: U26)
    returns (
      b0: byte, b1: byte, b2: byte, b3: byte, b4: byte, b5: byte, b6: byte, b7: byte, b8: byte, b9: byte, b10: byte,
      b11: byte, b12: byte, b13: byte, b14: byte, b15: byte)
    ensures
      b0 as int + 0x100 * b1 as int + 0x1_0000 * b2 as int + 0x100_0000 * b3 as int + 0x1_0000_0000 * b4 as int +
      0x100_0000_0000 * b5 as int + 0x1_0000_0000_0000 * b6 as int + 0x100_0000_0000_0000 * b7 as int +
      0x1_0000_0000_0000_0000 * b8 as int + 0x100_0000_0000_0000_0000 * b9 as int +
      0x1_0000_0000_0000_0000_0000 * b10 as int + 0x100_0000_0000_0000_0000_0000 * b11 as int +
      0x1_0000_0000_0000_0000_0000_0000 * b12 as int + 0x100_0000_0000_0000_0000_0000_0000 * b13 as int +
      0x1_0000_0000_0000_0000_0000_0000_0000 * b14 as int + 0x100_0000_0000_0000_0000_0000_0000_0000 * b15 as int
      ==
      r0 as int + 0x400_0000 * r1 as int + 0x8_0000_0000_0000 * r2 as int + 0x2000_0000_0000_0000_0000 * r3 as int +
      0x40_0000_0000_0000_0000_0000_0000 * r4 as int
  {
    var top: int64;
    b0, b1, b2, top := Emit0x26(r0);
    b3, b4, b5, top := Emit2x25(top, r1);
    b6, b7, b8, top := Emit3x26(top, r2);
    b9, b10, b11, top := Emit5x25(top, r3);
    b12, b13, b14, b15 := Emit6x26(top, r4);
  }

  /** Limbs 5 to 9 are bytes 16 to 31; the top bit stays clear. */
  method EmitHigh(r5: U25, r6: U26, r7: U25, r8: U26, r9: U25)
    returns (
      b0: byte, b1: byte, b2: byte, b3: byte, b4: byte, b5: byte, b6: byte, b7: byte, b8: byte, b9: byte, b10: byte,
      b11: byte, b12: byte, b13: byte, b14: byte, b15: byte)
    ensures b15 < 0x80
    ensures
      b0 as int + 0x100 * b1 as int + 0x1_0000 * b2 as int + 0x100_0000 * b3 as int + 0x1_0000_0000 * b4 as int +
      0x100_0000_0000 * b5 as int + 0x1_0000_0000_0000 * b6 as int + 0x100_0000_0000_0000 * b7 as int +
      0x1_0000_0000_0000_0000 * b8 as int + 0x100_0000_0000_0000_0000 * b9 as int +
      0x1_0000_0000_0000_0000_0000 * b10 as int + 0x100_0000_0000_0000_0000_0000 * b11 as int +
      0x1_0000_0000_0000_0000_0000_0000 * b12 as int + 0x100_0000_0000_0000_0000_0000_0000 * b13 as int +
      0x1_0000_0000_0000_0000_0000_0000_0000 * b14 as int + 0x100_0000_0000_0000_0000_0000_0000_0000 * b15 as int
      ==
      r5 as int + 0x200_0000 * r6 as int + 0x8_0000_0000_0000 * r7 as int + 0x1000_0000_0000_0000_0000 * r8 as int +
      0x40_0000_0000_0000_0000_0000_0000 * r9 as int
  {
    var top: int64;
    b0, b1, b2, top := Emit0x25(r5);
    b3, b4, b5, top := Emit1x26(top, r6);
    b6, b7, b8, top := Emit3x25(top, r7);
    b9, b10, b11, top := Emit4x26(top, r8);
    b12, b13, b14, b15 := Emit6x25Last(top, r9);
  }

  lemma Sixteen(s: seq<byte>, o: nat)
    requires o + 16 <= |s|
    ensures Part(s, o, 16) ==
      s[o] as int + 0x100 * s[o + 1] as int + 0x1_0000 * s[o + 2] as int + 0x100_0000 * s[o + 3] as int +
      0x1_0000_0000 * s[o + 4] as int + 0x100_0000_0000 * s[o + 5] as int + 0x1_0000_0000_0000 * s[o + 6] as int +
      0x100_0000_0000_0000 * s[o + 7] as int + 0x1_0000_0000_0000_0000 * s[o + 8] as int +
      0x100_0000_0000_0000_0000 * s[o + 9] as int + 0x1_0000_0000_0000_0000_0000 * s[o + 10] as int +
      0x100_0000_0000_0000_0000_0000 * s[o + 11] as int + 0x1_0000_0000_0000_0000_0000_0000 * s[o + 12] as int +
      0x100_0000_0000_0000_0000_0000_0000 * s[o + 13] as int +
      0x1_0000_0000_0000_0000_0000_0000_0000 * s[o + 14] as int +
      0x100_0000_0000_0000_0000_0000_0000_0000 * s[o + 15] as int
  {
    Weights();
    PartSplitBy(s, o, 14, 2, 0x1_0000_0000_0000_0000_0000_0000_0000);
    Part14(s, o);
    assert Part(s, o + 14, 2) == s[o + 14] as int + 256 * Part(s, o + 15, 1);
    Part1(s, o + 15);
  }

  method EmitKey(r0: U26, r1: U25, r2: U26, r3: U25, r4: U26, r5: U25, r6: U26, r7: U25, r8: U26,
    r9: U25) returns (s: seq<byte>)
    ensures |s| == 32 && s[31] < 0x80
    ensures LE(s) == V10(r0 as int, r1 as int, r2 as int, r3 as int, r4 as int, r5 as int, r6 as int, r7 as int,
      r8 as int, r9 as int)
  {
    var b0, b1, b2, b3, b4, b5, b6, b7, b8, b9, b10, b11, b12, b13, b14, b15 := EmitLow(r0, r1, r2, r3, r4);
    var b16, b17, b18, b19, b20, b21, b22, b23, b24, b25, b26, b27, b28, b29, b30, b31 := EmitHigh(r5, r6, r7, r8,
      r9);
    s := [b0, b1, b2, b3, b4, b5, b6, b7, b8, b9, b10, b11, b12, b13, b14, b15,
      b16, b17, b18, b19, b20, b21, b22, b23, b24, b25, b26, b27, b28, b29, b30, b31];
    ghost var lo, hi := KeyDigits(s);
  }

  /** A key as two numbers of sixteen bytes. */
  lemma KeyDigits(s: seq<byte>) returns (lo: int, hi: int)
    requires |s| == 32
    ensures LE(s) == lo + 0x1_0000_0000_0000_0000_0000_0000_0000_0000 * hi
    ensures lo ==
      s[0] as int + 0x100 * s[1] as int + 0x1_0000 * s[2] as int + 0x100_0000 * s[3] as int +
      0x1_0000_0000 * s[4] as int + 0x100_0000_0000 * s[5] as int + 0x1_0000_0000_0000 * s[6] as int +
      0x100_0000_0000_0000 * s[7] as int + 0x1_0000_0000_0000_0000 * s[8] as int +
      0x100_0000_0000_0000_0000 * s[9] as int + 0x1_0000_0000_0000_0000_0000 * s[10] as int +
      0x100_0000_0000_0000_0000_0000 * s[11] as int + 0x1_0000_0000_0000_0000_0000_0000 * s[12] as int +
      0x100_0000_0000_0000_0000_0000_0000 * s[13] as int + 0x1_0000_0000_0000_0000_0000_0000_0000 * s[14] as int +
      0x100_0000_0000_0000_0000_0000_0000_0000 * s[15] as int
    ensures hi ==
      s[16] as int + 0x100 * s[17] as int + 0x1_0000 * s[18] as int + 0x100_0000 * s[19] as int +
      0x1_0000_0000 * s[20] as int + 0x100_0000_0000 * s[21] as int + 0x1_0000_0000_0000 * s[22] as int +
      0x100_0000_0000_0000 * s[23] as int + 0x1_0000_0000_0000_0000 * s[24] as int +
      0x100_0000_0000_0000_0000 * s[25] as int + 0x1_0000_0000_0000_0000_0000 * s[26] as int +
      0x100_0000_0000_0000_0000_0000 * s[27] as int + 0x1_0000_0000_0000_0000_0000_0000 * s[28] as int +
      0x100_0000_0000_0000_0000_0000_0000 * s[29] as int + 0x1_0000_0000_0000_0000_0000_0000_0000 * s[30] as int +
      0x100_0000_0000_0000_0000_0000_0000_0000 * s[31] as int
  {
    ScalarKeys.EightWords(s);
    Sixteen(s, 0);
    Sixteen(s, 16);
    lo, hi := Part(s, 0, 16), Part(s, 16, 16);
  }

  /** FeToBytes on values: the encoding, and the limbs left in its argument. */
  method Encode(h: seq<int32>) returns (s: seq<byte>, r: seq<int32>)
    requires Loosest(h)
    ensures |s| == 32 && LE(s) == Fe(h) % P && s[31] < 0x80
    ensures Carried(r) && Fe(r) == Fe(h) % P
  {
    var r0, r1, r2, r3, r4, r5, r6, r7, r8, r9 := CanonicalLimbs(h);
    s := EmitKey(r0, r1, r2, r3, r4, r5, r6, r7, r8, r9);
    r := [r0 as int32, r1 as int32, r2 as int32, r3 as int32, r4 as int32, r5 as int32, r6 as int32, r7 as int32,
      r8 as int32, r9 as int32];
    FeOf(r);
  }

  /** The canonical encoding of h; h itself is replaced by the limbs of its residue. */
  method FeToBytes(s: array<byte>, h: array<int32>)
    requires s.Length == 32 && Loosest(h[..])
    modifies s, h
    ensures LE(s[..]) == old(Fe(h[..])) % P && s[31] < 0x80
    ensures Carried(h[..]) && Fe(h[..]) == old(Fe(h[..])) % P
  {
    var k, r := Encode(h[..]);
    Store(h, r);
    forall i | 0 <= i < 32 {
      s[i] := k[i];
    }
    assert s[..] == k && h[..] == r;
  }

  // ---- FeFromBytes ----

  /** The ten limbs of the low 255 bits, as the source loads them. */
  method LoadLimbs(b: seq<byte>) returns (h0: Abs62, h1: Abs62, h2: Abs62, h3: Abs62, h4: Abs62, h5: Abs62,
    h6: Abs62, h7: Abs62, h8: Abs62, h9: Abs62)
    requires |b| == 32
    ensures V10(h0 as int, h1 as int, h2 as int, h3 as int, h4 as int, h5 as int, h6 as int, h7 as int, h8 as int,
      h9 as int) == LE(b) % TWO255
  {
    h0 := Load4(b, 0);
    h1 := Load3(b, 4) * 0x40;
    h2 := Load3(b, 7) * 0x20;
    h3 := Load3(b, 10) * 8;
    h4 := Load3(b, 13) * 4;
    h5 := Load4(b, 16);
    h6 := Load3(b, 20) * 0x80;
    h7 := Load3(b, 23) * 0x20;
    h8 := Load3(b, 26) * 0x10;
    h9 := Load3(b, 29) % 0x80_0000 * 4;
    ghost var lo, hi := LoadedHalves(b);
    ghost var low := V10(h0 as int, h1 as int, h2 as int, h3 as int, h4 as int, h5 as int, h6 as int, h7 as int,
      h8 as int, h9 as int);
    Quotient(LE(b), TWO255, Load3(b, 29) as int / 0x80_0000, low);
  }

  lemma LoadedHalves(b: seq<byte>) returns (lo: int, hi: int)
    requires |b| == 32
    ensures LE(b) == lo + 0x1_0000_0000_0000_0000_0000_0000_0000_0000 * hi
    ensures lo == Load4(b, 0) as int + 0x1_0000_0000 * Load3(b, 4) as int + 0x100_0000_0000_0000 * Load3(b, 7) as int
      + 0x1_0000_0000_0000_0000_0000 * Load3(b, 10) as int + 0x100_0000_0000_0000_0000_0000_0000 * Load3(b, 13) as int
    ensures hi == Load4(b, 16) as int + 0x1_0000_0000 * Load3(b, 20) as int + 0x100_0000_0000_0000 * Load3(b, 23) as int
      + 0x1_0000_0000_0000_0000_0000 * Load3(b, 26) as int + 0x100_0000_0000_0000_0000_0000_0000 * Load3(b, 29) as int
  {
    ScalarKeys.EightWords(b);
    LoadedHalf(b, 0);
    LoadedHalf(b, 16);
    lo, hi := Part(b, 0, 16), Part(b, 16, 16);
  }

  lemma LoadedHalf(b: seq<byte>, o: nat)
    requires o + 16 <= |b|
    ensures Part(b, o, 16) == Load4(b, o) as int + 0x1_0000_0000 * Load3(b, o + 4) as int
      + 0x100_0000_0000_0000 * Load3(b, o + 7) as int + 0x1_0000_0000_0000_0000_0000 * Load3(b, o + 10) as int
      + 0x100_0000_0000_0000_0000_0000_0000 * Load3(b, o + 13) as int
  {
    Weights();
    ScalarKeys.Word(b, o);
    PartSplitBy(b, o, 4, 12, 0x1_0000_0000);
    PartSplitBy(b, o + 4, 3, 9, 0x100_0000);
    PartSplitBy(b, o + 7, 3, 6, 0x100_0000);
    PartSplitBy(b, o + 10, 3, 3, 0x100_0000);
    Part3(b, o + 4);
    Part3(b, o + 7);
    Part3(b, o + 10);
    Part3(b, o + 13);
  }

  /** FeFromBytes on values. */
  method Decode(src: seq<byte>) returns (r: seq<int32>)
    requires |src| == 32
    ensures Tight(r) && Congruent(Fe(r), LE(src) % TWO255)
  {
    var h0, h1, h2, h3, h4, h5, h6, h7, h8, h9 := LoadLimbs(src);
    ghost var q;
    r, q := Combine(h0, h1, h2, h3, h4, h5, h6, h7, h8, h9);
    CongruentBy(Fe(r), LE(src) % TWO255, q);
  }

  /** The field element of the low 255 bits, canonical or not. */
  method FeFromBytes(dst: array<int32>, src: array<byte>)
    requires dst.Length == 10 && src.Length == 32
    modifies dst
    ensures Tight(dst[..]) && Congruent(Fe(dst[..]), LE(src[..]) % TWO255)
  {
    var r := Decode(src[..]);
    Store(dst, r);
  }

  /** Decoding and encoding reduce the low 255 bits modulo P. */
  method DecodeEncode(s: array<byte>, src: array<byte>)
    requires s.Length == 32 && src.Length == 32
    modifies s
    ensures LE(s[..]) == old(LE(src[..])) % TWO255 % P
  {
    var h := new int32[10];
    FeFromBytes(h, src);
    FeToBytes(s, h);
  }

  /** The parity of the canonical residue, and the limbs left in the argument. */
  method Parity(f: seq<int32>) returns (b: byte, r: seq<int32>)
    requires Loosest(f)
    ensures b as int == Fe(f) % P % 2
    ensures Carried(r) && Fe(r) == Fe(f) % P
  {
    var s;
    s, r := Encode(f);
    b := s[0] % 2;
    LowestBit(s);
  }

  method FeIsNegative(f: array<int32>) returns (b: byte)
    requires Loosest(f[..])
    modifies f
    ensures b as int == old(Fe(f[..])) % P % 2
    ensures Carried(f[..]) && Fe(f[..]) == old(Fe(f[..])) % P
  {
    var r;
    b, r := Parity(f[..]);
    Store(f, r);
  }

  lemma LowestBit(s: seq<byte>)
    requires |s| >= 1
    ensures LE(s) % 2 == s[0] as int % 2
  {
    assert LE(s) == s[0] as int + 256 * Part(s, 1, |s| - 1);
  }

  /** Whether the canonical residue is not zero, and the limbs left in the argument. */
  method NonZero(f: seq<int32>) returns (b: int32, r: seq<int32>)
    requires Loosest(f)
    ensures b == if Fe(f) % P == 0 then 0 else 1
    ensures Carried(r) && Fe(r) == Fe(f) % P
  {
    var s;
    s, r := Encode(f);
    b := AnyBit(s);
  }

  method FeIsNonZero(f: array<int32>) returns (b: int32)
    requires Loosest(f[..])
    modifies f
    ensures b == if old(Fe(f[..])) % P == 0 then 0 else 1
    ensures Carried(f[..]) && Fe(f[..]) == old(Fe(f[..])) % P
  {
    var r;
    b, r := NonZero(f[..]);
    Store(f, r);
  }

  /** The or of all bytes, folded onto its lowest bit. */
  method AnyBit(s: seq<byte>) returns (b: int32)
    ensures b == if LE(s) == 0 then 0 else 1
  {
    var x: bv8 := 0;
    for i := 0 to |s|
      invariant x == 0 <==> forall j :: 0 <= j < i ==> s[j] == 0
    {
      x := x | (s[i] as bv8);
    }
    ZeroIffAllZero(s, 0, |s|);
    x := x | (x >> 4);
    x := x | (x >> 2);
    x := x | (x >> 1);
    b := if x & 1 == 1 then 1 else 0;
  }

  lemma {:induction false} ZeroIffAllZero(b: seq<byte>, lo: nat, n: nat)
    requires lo + n <= |b|
    ensures Part(b, lo, n) == 0 <==> forall i :: lo <= i < lo + n ==> b[i] == 0
    ensures Part(b, lo, n) >= 0
    decreases n
  {
    if n != 0 {
      ZeroIffAllZero(b, lo + 1, n - 1);
    }
  }

  /** Fully carried limbs: 26 and 25 bits, none negative. */
  ghost predicate Carried(h: seq<int32>) {
    && |h| == 10
    && 0 <= h[0] < 0x400_0000 && 0 <= h[1] < 0x200_0000
    && 0 <= h[2] < 0x400_0000 && 0 <= h[3] < 0x200_0000
    && 0 <= h[4] < 0x400_0000 && 0 <= h[5] < 0x200_0000
    && 0 <= h[6] < 0x400_0000 && 0 <= h[7] < 0x200_0000
    && 0 <= h[8] < 0x400_0000 && 0 <= h[9] < 0x200_0000
  }
}
