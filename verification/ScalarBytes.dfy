/** Bytes to 21-bit limbs and back (load3, load4, and the first and last lines of the scalar functions of
    crypto/curve25519/edwards_25519_scalar.go). Eight limbs are exactly 21 bytes, so one block of each kind serves
    every position. `& 2097151` and byte() are remainders, `>> k` is division by 2^k rounding down, and `|` of
    values with no common bit is their sum. */
module ScalarBytes {
  import opened Arith
  import opened Bytes
  import opened MachineInts
  import opened ScalarLimbs

  function Load3(b: seq<byte>, i: nat): (r: int64)
    requires i + 3 <= |b|
    ensures 0 <= r < 0x100_0000
  {
    b[i] as int64 + 0x100 * b[i + 1] as int64 + 0x1_0000 * b[i + 2] as int64
  }

  function Load4(b: seq<byte>, i: nat): (r: int64)
    requires i + 4 <= |b|
    ensures 0 <= r < 0x1_0000_0000
  {
    b[i] as int64 + 0x100 * b[i + 1] as int64 + 0x1_0000 * b[i + 2] as int64 + 0x100_0000 * b[i + 3] as int64
  }

  // The eight limbs of the 21-byte block at o.

  method Limb0(b: seq<byte>, o: nat) returns (l: U21)
    requires o + 3 <= |b|
    ensures l as int == b[o] as int + 0x100 * b[o + 1] as int + 0x1_0000 * (b[o + 2] as int % 0x20)
  {
    l := Load3(b, o) % 0x20_0000;
    Quotient(Load3(b, o) as int, 0x20_0000, b[o + 2] as int / 0x20,
      b[o] as int + 0x100 * b[o + 1] as int + 0x1_0000 * (b[o + 2] as int % 0x20));
  }

  method Limb1(b: seq<byte>, o: nat) returns (l: U21)
    requires o + 6 <= |b|
    ensures l as int == b[o + 2] as int / 0x20 + 8 * b[o + 3] as int + 0x800 * b[o + 4] as int
      + 0x8_0000 * (b[o + 5] as int % 4)
  {
    l := Load4(b, o + 2) / 0x20 % 0x20_0000;
    ghost var t := b[o + 2] as int / 0x20 + 8 * b[o + 3] as int + 0x800 * b[o + 4] as int + 0x8_0000 * b[o + 5] as int;
    Quotient(Load4(b, o + 2) as int, 0x20, t, b[o + 2] as int % 0x20);
    Quotient(t, 0x20_0000, b[o + 5] as int / 4,
      b[o + 2] as int / 0x20 + 8 * b[o + 3] as int + 0x800 * b[o + 4] as int + 0x8_0000 * (b[o + 5] as int % 4));
  }

  method Limb2(b: seq<byte>, o: nat) returns (l: U21)
    requires o + 8 <= |b|
    ensures l as int == b[o + 5] as int / 4 + 0x40 * b[o + 6] as int + 0x4000 * (b[o + 7] as int % 0x80)
  {
    l := Load3(b, o + 5) / 4 % 0x20_0000;
    ghost var t := b[o + 5] as int / 4 + 0x40 * b[o + 6] as int + 0x4000 * b[o + 7] as int;
    Quotient(Load3(b, o + 5) as int, 4, t, b[o + 5] as int % 4);
    Quotient(t, 0x20_0000, b[o + 7] as int / 0x80,
      b[o + 5] as int / 4 + 0x40 * b[o + 6] as int + 0x4000 * (b[o + 7] as int % 0x80));
  }

  method Limb3(b: seq<byte>, o: nat) returns (l: U21)
    requires o + 11 <= |b|
    ensures l as int == b[o + 7] as int / 0x80 + 2 * b[o + 8] as int + 0x200 * b[o + 9] as int
      + 0x2_0000 * (b[o + 10] as int % 0x10)
  {
    l := Load4(b, o + 7) / 0x80 % 0x20_0000;
    ghost var t := b[o + 7] as int / 0x80 + 2 * b[o + 8] as int + 0x200 * b[o + 9] as int + 0x2_0000 * b[o + 10] as int;
    Quotient(Load4(b, o + 7) as int, 0x80, t, b[o + 7] as int % 0x80);
    Quotient(t, 0x20_0000, b[o + 10] as int / 0x10,
      b[o + 7] as int / 0x80 + 2 * b[o + 8] as int + 0x200 * b[o + 9] as int + 0x2_0000 * (b[o + 10] as int % 0x10));
  }

  method Limb4(b: seq<byte>, o: nat) returns (l: U21)
    requires o + 14 <= |b|
    ensures l as int == b[o + 10] as int / 0x10 + 0x10 * b[o + 11] as int + 0x1000 * b[o + 12] as int
      + 0x10_0000 * (b[o + 13] as int % 2)
  {
    l := Load4(b, o + 10) / 0x10 % 0x20_0000;
    ghost var t := b[o + 10] as int / 0x10 + 0x10 * b[o + 11] as int + 0x1000 * b[o + 12] as int
      + 0x10_0000 * b[o + 13] as int;
    Quotient(Load4(b, o + 10) as int, 0x10, t, b[o + 10] as int % 0x10);
    Quotient(t, 0x20_0000, b[o + 13] as int / 2,
      b[o + 10] as int / 0x10 + 0x10 * b[o + 11] as int + 0x1000 * b[o + 12] as int
        + 0x10_0000 * (b[o + 13] as int % 2));
  }

  method Limb5(b: seq<byte>, o: nat) returns (l: U21)
    requires o + 16 <= |b|
    ensures l as int == b[o + 13] as int / 2 + 0x80 * b[o + 14] as int + 0x8000 * (b[o + 15] as int % 0x40)
  {
    l := Load3(b, o + 13) / 2 % 0x20_0000;
    ghost var t := b[o + 13] as int / 2 + 0x80 * b[o + 14] as int + 0x8000 * b[o + 15] as int;
    Quotient(Load3(b, o + 13) as int, 2, t, b[o + 13] as int % 2);
    Quotient(t, 0x20_0000, b[o + 15] as int / 0x40,
      b[o + 13] as int / 2 + 0x80 * b[o + 14] as int + 0x8000 * (b[o + 15] as int % 0x40));
  }

  method Limb6(b: seq<byte>, o: nat) returns (l: U21)
    requires o + 19 <= |b|
    ensures l as int == b[o + 15] as int / 0x40 + 4 * b[o + 16] as int + 0x400 * b[o + 17] as int
      + 0x4_0000 * (b[o + 18] as int % 8)
  {
    l := Load4(b, o + 15) / 0x40 % 0x20_0000;
    ghost var t := b[o + 15] as int / 0x40 + 4 * b[o + 16] as int + 0x400 * b[o + 17] as int
      + 0x4_0000 * b[o + 18] as int;
    Quotient(Load4(b, o + 15) as int, 0x40, t, b[o + 15] as int % 0x40);
    Quotient(t, 0x20_0000, b[o + 18] as int / 8,
      b[o + 15] as int / 0x40 + 4 * b[o + 16] as int + 0x400 * b[o + 17] as int + 0x4_0000 * (b[o + 18] as int % 8));
  }

  method Limb7(b: seq<byte>, o: nat) returns (l: U21)
    requires o + 21 <= |b|
    ensures l as int == b[o + 18] as int / 8 + 0x20 * b[o + 19] as int + 0x2000 * b[o + 20] as int
  {
    l := Load3(b, o + 18) / 8 % 0x20_0000;
    ghost var t := b[o + 18] as int / 8 + 0x20 * b[o + 19] as int + 0x2000 * b[o + 20] as int;
    Quotient(Load3(b, o + 18) as int, 8, t, b[o + 18] as int % 8);
    Quotient(t, 0x20_0000, 0,
      b[o + 18] as int / 8 + 0x20 * b[o + 19] as int + 0x2000 * b[o + 20] as int);
  }

  // The top limbs keep all their bits: 25 of 32 bytes, 29 of 64 bytes.

  method TopLimb7(b: seq<byte>, o: nat) returns (l: U25)
    requires o + 4 <= |b|
    ensures l as int == b[o] as int / 0x80 + 2 * b[o + 1] as int + 0x200 * b[o + 2] as int + 0x2_0000 * b[o + 3] as int
  {
    l := Load4(b, o) / 0x80;
    ghost var t := b[o] as int / 0x80 + 2 * b[o + 1] as int + 0x200 * b[o + 2] as int + 0x2_0000 * b[o + 3] as int;
    Quotient(Load4(b, o) as int, 0x80, t, b[o] as int % 0x80);
  }

  method TopLimb3(b: seq<byte>, o: nat) returns (l: U29)
    requires o + 4 <= |b|
    ensures l as int == b[o] as int / 8 + 0x20 * b[o + 1] as int + 0x2000 * b[o + 2] as int
      + 0x20_0000 * b[o + 3] as int
  {
    l := Load4(b, o) / 8;
    ghost var t := b[o] as int / 8 + 0x20 * b[o + 1] as int + 0x2000 * b[o + 2] as int + 0x20_0000 * b[o + 3] as int;
    Quotient(Load4(b, o) as int, 8, t, b[o] as int % 8);
  }

  /** The number that eleven bytes spell. */
  ghost function Sum11(
      x0: int, x1: int, x2: int, x3: int, x4: int, x5: int, x6: int, x7: int, x8: int, x9: int, x10: int): int
  {
    x0 + 0x100 * x1 + 0x1_0000 * x2 + 0x100_0000 * x3 + 0x1_0000_0000 * x4 + 0x100_0000_0000 * x5 +
    0x1_0000_0000_0000 * x6 + 0x100_0000_0000_0000 * x7 + 0x1_0000_0000_0000_0000 * x8 +
    0x100_0000_0000_0000_0000 * x9 + 0x1_0000_0000_0000_0000_0000 * x10
  }

  /** The number that 21 bytes spell. */
  ghost function Sum21(
      x0: int, x1: int, x2: int, x3: int, x4: int, x5: int, x6: int, x7: int, x8: int, x9: int, x10: int, x11: int,
      x12: int, x13: int, x14: int, x15: int, x16: int, x17: int, x18: int, x19: int, x20: int): int
  {
    x0 + 0x100 * x1 + 0x1_0000 * x2 + 0x100_0000 * x3 + 0x1_0000_0000 * x4 + 0x100_0000_0000 * x5 +
    0x1_0000_0000_0000 * x6 + 0x100_0000_0000_0000 * x7 + 0x1_0000_0000_0000_0000 * x8 +
    0x100_0000_0000_0000_0000 * x9 + 0x1_0000_0000_0000_0000_0000 * x10 + 0x100_0000_0000_0000_0000_0000 * x11 +
    0x1_0000_0000_0000_0000_0000_0000 * x12 + 0x100_0000_0000_0000_0000_0000_0000 * x13 +
    0x1_0000_0000_0000_0000_0000_0000_0000 * x14 + 0x100_0000_0000_0000_0000_0000_0000_0000 * x15 +
    0x1_0000_0000_0000_0000_0000_0000_0000_0000 * x16 + 0x100_0000_0000_0000_0000_0000_0000_0000_0000 * x17 +
    0x1_0000_0000_0000_0000_0000_0000_0000_0000_0000 * x18 +
    0x100_0000_0000_0000_0000_0000_0000_0000_0000_0000 * x19 +
    0x1_0000_0000_0000_0000_0000_0000_0000_0000_0000_0000 * x20
  }

  lemma BlockValue(
      x0: int, x1: int, x2: int, x3: int, x4: int, x5: int, x6: int, x7: int, x8: int, x9: int, x10: int, x11: int,
      x12: int, x13: int, x14: int, x15: int, x16: int, x17: int, x18: int, x19: int, x20: int, l2: int, h2: int,
      l5: int, h5: int, l7: int, h7: int, l10: int, h10: int, l13: int, h13: int, l15: int, h15: int, l18: int,
      h18: int)
    requires x2 == l2 + 0x20 * h2 && x5 == l5 + 4 * h5 && x7 == l7 + 0x80 * h7 && x10 == l10 + 0x10 * h10
      && x13 == l13 + 2 * h13 && x15 == l15 + 0x40 * h15 && x18 == l18 + 8 * h18
    ensures
      x0 + 0x100 * x1 + 0x1_0000 * l2 + 0x20_0000 * (h2 + 8 * x3 + 0x800 * x4 + 0x8_0000 * l5) +
      0x400_0000_0000 * (h5 + 0x40 * x6 + 0x4000 * l7) +
      0x8000_0000_0000_0000 * (h7 + 2 * x8 + 0x200 * x9 + 0x2_0000 * l10) +
      0x10_0000_0000_0000_0000_0000 * (h10 + 0x10 * x11 + 0x1000 * x12 + 0x10_0000 * l13) +
      0x200_0000_0000_0000_0000_0000_0000 * (h13 + 0x80 * x14 + 0x8000 * l15) +
      0x4000_0000_0000_0000_0000_0000_0000_0000 * (h15 + 4 * x16 + 0x400 * x17 + 0x4_0000 * l18) +
      0x8_0000_0000_0000_0000_0000_0000_0000_0000_0000 * (h18 + 0x20 * x19 + 0x2000 * x20)
      ==
      Sum21(x0, x1, x2, x3, x4, x5, x6, x7, x8, x9, x10, x11, x12, x13, x14, x15, x16, x17, x18, x19, x20)
  {
  }

  lemma TopValue11(
      x0: int, x1: int, x2: int, x3: int, x4: int, x5: int, x6: int, x7: int, x8: int, x9: int, x10: int, l2: int,
      h2: int, l5: int, h5: int, l7: int, h7: int, l10: int, h10: int)
    requires x2 == l2 + 0x20 * h2 && x5 == l5 + 4 * h5 && x7 == l7 + 0x80 * h7 && x10 == l10 + 0x10 * h10
    ensures
      x0 + 0x100 * x1 + 0x1_0000 * l2 + 0x20_0000 * (h2 + 8 * x3 + 0x800 * x4 + 0x8_0000 * l5) +
      0x400_0000_0000 * (h5 + 0x40 * x6 + 0x4000 * l7) +
      0x8000_0000_0000_0000 * (h7 + 2 * x8 + 0x200 * x9 + 0x2_0000 * x10)
      ==
      Sum11(x0, x1, x2, x3, x4, x5, x6, x7, x8, x9, x10)
  {
  }

  lemma TopValue22(
      x0: int, x1: int, x2: int, x3: int, x4: int, x5: int, x6: int, x7: int, x8: int, x9: int, x10: int, x11: int,
      x12: int, x13: int, x14: int, x15: int, x16: int, x17: int, x18: int, x19: int, x20: int, x21: int, l2: int,
      h2: int, l5: int, h5: int, l7: int, h7: int, l10: int, h10: int, l13: int, h13: int, l15: int, h15: int,
      l18: int, h18: int)
    requires x2 == l2 + 0x20 * h2 && x5 == l5 + 4 * h5 && x7 == l7 + 0x80 * h7 && x10 == l10 + 0x10 * h10
      && x13 == l13 + 2 * h13 && x15 == l15 + 0x40 * h15 && x18 == l18 + 8 * h18
    ensures
      x0 + 0x100 * x1 + 0x1_0000 * l2 + 0x20_0000 * (h2 + 8 * x3 + 0x800 * x4 + 0x8_0000 * l5) +
      0x400_0000_0000 * (h5 + 0x40 * x6 + 0x4000 * l7) +
      0x8000_0000_0000_0000 * (h7 + 2 * x8 + 0x200 * x9 + 0x2_0000 * l10) +
      0x10_0000_0000_0000_0000_0000 * (h10 + 0x10 * x11 + 0x1000 * x12 + 0x10_0000 * l13) +
      0x200_0000_0000_0000_0000_0000_0000 * (h13 + 0x80 * x14 + 0x8000 * l15) +
      0x4000_0000_0000_0000_0000_0000_0000_0000 * (h15 + 4 * x16 + 0x400 * x17 + 0x4_0000 * l18) +
      0x8_0000_0000_0000_0000_0000_0000_0000_0000_0000 * (h18 + 0x20 * x19 + 0x2000 * x20 + 0x20_0000 * x21)
      ==
      Sum21(x0, x1, x2, x3, x4, x5, x6, x7, x8, x9, x10, x11, x12, x13, x14, x15, x16, x17, x18, x19, x20)
        + 0x100_0000_0000_0000_0000_0000_0000_0000_0000_0000_0000 * x21
  {
  }

  lemma Weights()
    ensures Pow256(3) == 0x100_0000 && Pow256(7) == 0x100_0000_0000_0000
    ensures Pow256(14) == 0x1_0000_0000_0000_0000_0000_0000_0000 && Pow256(21)
      == 0x100_0000_0000_0000_0000_0000_0000_0000_0000_0000_0000
  {
    assert Pow256(3) == 256 * Pow256(2) && Pow256(2) == 256 * Pow256(1) && Pow256(1) == 256 * Pow256(0);
    Pow256Sum(3, 3);
    assert Pow256(7) == 256 * Pow256(6);
    Pow256Sum(7, 7);
    Pow256Sum(14, 7);
  }

  lemma {:induction false} Part14(b: seq<byte>, o: nat)
    requires o + 14 <= |b|
    ensures Part(b, o, 14) ==
      b[o] as int + 0x100 * b[o + 1] as int + 0x1_0000 * b[o + 2] as int + 0x100_0000 * b[o + 3] as int +
      0x1_0000_0000 * b[o + 4] as int + 0x100_0000_0000 * b[o + 5] as int + 0x1_0000_0000_0000 * b[o + 6] as int +
      0x100_0000_0000_0000 * b[o + 7] as int + 0x1_0000_0000_0000_0000 * b[o + 8] as int +
      0x100_0000_0000_0000_0000 * b[o + 9] as int + 0x1_0000_0000_0000_0000_0000 * b[o + 10] as int +
      0x100_0000_0000_0000_0000_0000 * b[o + 11] as int + 0x1_0000_0000_0000_0000_0000_0000 * b[o + 12] as int +
      0x100_0000_0000_0000_0000_0000_0000 * b[o + 13] as int
  {
    Weights();
    PartSplitBy(b, o, 7, 7, 0x100_0000_0000_0000);
    Part7(b, o);
    Part7(b, o + 7);
  }

  lemma {:induction false} Part21(b: seq<byte>, o: nat)
    requires o + 21 <= |b|
    ensures Part(b, o, 21) ==
      Sum21(b[o] as int, b[o + 1] as int, b[o + 2] as int, b[o + 3] as int, b[o + 4] as int, b[o + 5] as int,
      b[o + 6] as int, b[o + 7] as int, b[o + 8] as int, b[o + 9] as int, b[o + 10] as int, b[o + 11] as int,
      b[o + 12] as int, b[o + 13] as int, b[o + 14] as int, b[o + 15] as int, b[o + 16] as int, b[o + 17] as int,
      b[o + 18] as int, b[o + 19] as int, b[o + 20] as int)
  {
    Weights();
    PartSplitBy(b, o, 14, 7, 0x1_0000_0000_0000_0000_0000_0000_0000);
    Part14(b, o);
    Part7(b, o + 14);
  }

  lemma PartSplit21(b: seq<byte>, o: nat, m: nat)
    requires o + 21 + m <= |b|
    ensures Part(b, o, 21 + m) == Part(b, o, 21) + 0x100_0000_0000_0000_0000_0000_0000_0000_0000_0000_0000
      * Part(b, o + 21, m)
  {
    Weights();
    PartSplitBy(b, o, 21, m, 0x100_0000_0000_0000_0000_0000_0000_0000_0000_0000_0000);
  }

  lemma Value32(b: seq<byte>)
    requires |b| == 32
    ensures LE(b) == Part(b, 0, 21) + 0x100_0000_0000_0000_0000_0000_0000_0000_0000_0000_0000 * Part(b, 21, 11)
  {
    PartSplit21(b, 0, 11);
  }

  lemma Value64(b: seq<byte>)
    requires |b| == 64
    ensures LE(b) == Part(b, 0, 21) + 0x100_0000_0000_0000_0000_0000_0000_0000_0000_0000_0000
      * (Part(b, 21, 21) + 0x100_0000_0000_0000_0000_0000_0000_0000_0000_0000_0000 * Part(b, 42, 22))
  {
    PartSplit21(b, 0, 43);
    PartSplit21(b, 21, 22);
  }

  lemma {:induction false} Part11(b: seq<byte>, o: nat)
    requires o + 11 <= |b|
    ensures Part(b, o, 11) ==
      Sum11(b[o] as int, b[o + 1] as int, b[o + 2] as int, b[o + 3] as int, b[o + 4] as int, b[o + 5] as int,
      b[o + 6] as int, b[o + 7] as int, b[o + 8] as int, b[o + 9] as int, b[o + 10] as int)
  {
    Weights();
    PartSplitBy(b, o, 7, 4, 0x100_0000_0000_0000);
    PartSplitBy(b, o + 7, 3, 1, 0x100_0000);
    Part7(b, o);
    Part3(b, o + 7);
    Part1(b, o + 10);
  }

  lemma {:induction false} Part22(b: seq<byte>, o: nat)
    requires o + 22 <= |b|
    ensures Part(b, o, 22) ==
      Sum21(b[o] as int, b[o + 1] as int, b[o + 2] as int, b[o + 3] as int, b[o + 4] as int, b[o + 5] as int,
      b[o + 6] as int, b[o + 7] as int, b[o + 8] as int, b[o + 9] as int, b[o + 10] as int, b[o + 11] as int,
      b[o + 12] as int, b[o + 13] as int, b[o + 14] as int, b[o + 15] as int, b[o + 16] as int, b[o + 17] as int,
      b[o + 18] as int, b[o + 19] as int, b[o + 20] as int)
        + 0x100_0000_0000_0000_0000_0000_0000_0000_0000_0000_0000 * b[o + 21] as int
  {
    Weights();
    PartSplitBy(b, o, 21, 1, 0x100_0000_0000_0000_0000_0000_0000_0000_0000_0000_0000);
    Part21(b, o);
    Part1(b, o + 21);
  }

  /** The 21 bytes at o as eight limbs. */
  method LoadBlock(b: seq<byte>, o: nat)
    returns (l0: U21, l1: U21, l2: U21, l3: U21, l4: U21, l5: U21, l6: U21, l7: U21)
    requires o + 21 <= |b|
    ensures V8(l0, l1, l2, l3, l4, l5, l6, l7) == Part(b, o, 21)
  {
    l0 := Limb0(b, o);
    l1 := Limb1(b, o);
    l2 := Limb2(b, o);
    l3 := Limb3(b, o);
    l4 := Limb4(b, o);
    l5 := Limb5(b, o);
    l6 := Limb6(b, o);
    l7 := Limb7(b, o);
    BlockValue(
      b[o] as int, b[o + 1] as int, b[o + 2] as int, b[o + 3] as int, b[o + 4] as int, b[o + 5] as int,
      b[o + 6] as int, b[o + 7] as int, b[o + 8] as int, b[o + 9] as int, b[o + 10] as int, b[o + 11] as int,
      b[o + 12] as int, b[o + 13] as int, b[o + 14] as int, b[o + 15] as int, b[o + 16] as int, b[o + 17] as int,
      b[o + 18] as int, b[o + 19] as int, b[o + 20] as int, b[o + 2] as int % 0x20, b[o + 2] as int / 0x20,
      b[o + 5] as int % 4, b[o + 5] as int / 4, b[o + 7] as int % 0x80, b[o + 7] as int / 0x80,
      b[o + 10] as int % 0x10, b[o + 10] as int / 0x10, b[o + 13] as int % 2, b[o + 13] as int / 2,
      b[o + 15] as int % 0x40, b[o + 15] as int / 0x40, b[o + 18] as int % 8, b[o + 18] as int / 8);
    Part21(b, o);
  }

  /** The eleven bytes at o as four limbs, the last one not masked. */
  method LoadTop11(b: seq<byte>, o: nat) returns (l0: U21, l1: U21, l2: U21, l3: U25)
    requires o + 11 <= |b|
    ensures V3(l0, l1, l2) + 0x8000_0000_0000_0000 * l3 as int == Part(b, o, 11)
  {
    l0 := Limb0(b, o);
    l1 := Limb1(b, o);
    l2 := Limb2(b, o);
    l3 := TopLimb7(b, o + 7);
    TopValue11(
      b[o] as int, b[o + 1] as int, b[o + 2] as int, b[o + 3] as int, b[o + 4] as int, b[o + 5] as int,
      b[o + 6] as int, b[o + 7] as int, b[o + 8] as int, b[o + 9] as int, b[o + 10] as int, b[o + 2] as int % 0x20,
      b[o + 2] as int / 0x20, b[o + 5] as int % 4, b[o + 5] as int / 4, b[o + 7] as int % 0x80,
      b[o + 7] as int / 0x80, b[o + 10] as int % 0x10, b[o + 10] as int / 0x10);
    Part11(b, o);
  }

  /** The 22 bytes at o as eight limbs, the last one not masked. */
  method LoadTop22(b: seq<byte>, o: nat)
    returns (l0: U21, l1: U21, l2: U21, l3: U21, l4: U21, l5: U21, l6: U21, l7: U29)
    requires o + 22 <= |b|
    ensures V8(l0, l1, l2, l3, l4, l5, l6, l7) == Part(b, o, 22)
  {
    l0 := Limb0(b, o);
    l1 := Limb1(b, o);
    l2 := Limb2(b, o);
    l3 := Limb3(b, o);
    l4 := Limb4(b, o);
    l5 := Limb5(b, o);
    l6 := Limb6(b, o);
    l7 := TopLimb3(b, o + 18);
    TopValue22(
      b[o] as int, b[o + 1] as int, b[o + 2] as int, b[o + 3] as int, b[o + 4] as int, b[o + 5] as int,
      b[o + 6] as int, b[o + 7] as int, b[o + 8] as int, b[o + 9] as int, b[o + 10] as int, b[o + 11] as int,
      b[o + 12] as int, b[o + 13] as int, b[o + 14] as int, b[o + 15] as int, b[o + 16] as int, b[o + 17] as int,
      b[o + 18] as int, b[o + 19] as int, b[o + 20] as int, b[o + 21] as int, b[o + 2] as int % 0x20,
      b[o + 2] as int / 0x20, b[o + 5] as int % 4, b[o + 5] as int / 4, b[o + 7] as int % 0x80,
      b[o + 7] as int / 0x80, b[o + 10] as int % 0x10, b[o + 10] as int / 0x10, b[o + 13] as int % 2,
      b[o + 13] as int / 2, b[o + 15] as int % 0x40, b[o + 15] as int / 0x40, b[o + 18] as int % 8,
      b[o + 18] as int / 8);
    Part22(b, o);
  }

  /** a0..a11 of a 32-byte key. */
  method Load32(b: seq<byte>)
    returns (
      a0: U21, a1: U21, a2: U21, a3: U21, a4: U21, a5: U21, a6: U21, a7: U21, a8: U21, a9: U21, a10: U21, a11: U25)
    requires |b| == 32
    ensures Val(L12(a0, a1, a2, a3, a4, a5, a6, a7, a8, a9, a10, a11)) == LE(b)
  {
    a0, a1, a2, a3, a4, a5, a6, a7 := LoadBlock(b, 0);
    a8, a9, a10, a11 := LoadTop11(b, 21);
    ValOfL12(a0, a1, a2, a3, a4, a5, a6, a7, a8, a9, a10, a11);
    Value32(b);
  }

  /** s0..s23 of a 64-byte number. */
  method Load64(b: seq<byte>)
    returns (
      s0: U21, s1: U21, s2: U21, s3: U21, s4: U21, s5: U21, s6: U21, s7: U21, s8: U21, s9: U21, s10: U21, s11: U21,
      s12: U21, s13: U21, s14: U21, s15: U21, s16: U21, s17: U21, s18: U21, s19: U21, s20: U21, s21: U21, s22: U21,
      s23: U29)
    requires |b| == 64
    ensures Val(L12(s0, s1, s2, s3, s4, s5, s6, s7, s8, s9, s10, s11))
        + (ELL - DELTA) * Val(L12(s12, s13, s14, s15, s16, s17, s18, s19, s20, s21, s22, s23))
      == LE(b)
  {
    s0, s1, s2, s3, s4, s5, s6, s7 := LoadBlock(b, 0);
    s8, s9, s10, s11, s12, s13, s14, s15 := LoadBlock(b, 21);
    s16, s17, s18, s19, s20, s21, s22, s23 := LoadTop22(b, 42);
    ValOfL12(s0, s1, s2, s3, s4, s5, s6, s7, s8, s9, s10, s11);
    ValOfL12(s12, s13, s14, s15, s16, s17, s18, s19, s20, s21, s22, s23);
    Value64(b);
  }

  // Limbs back to bytes. Spread_k emits the bytes of a limb whose lowest bit falls k bits into a byte; `lo` is
  // what the limb below left in that byte and `top` what this one leaves for the next.

  function ToByte(x: int64): (r: byte)
  {
    (x % 0x100) as byte
  }

  method Spread0(l: int64) returns (b0: byte, b1: byte, top: int64)
    requires 0 <= l < 0x20_0000
    ensures 0 <= top < 0x20
    ensures b0 as int + 0x100 * b1 as int + 0x1_0000 * top as int
      == l as int
  {
    b0 := ToByte(l);
    b1 := ToByte(l / 0x100);
    top := l / 0x1_0000;
    ghost var q := l as int / 0x100;
    Quotient(l as int, 0x100, q, (l as int - 0x100 * q));
    ghost var q2 := q / 0x100;
    Quotient(l as int, 0x1_0000, q2, l as int - 0x1_0000 * q2);
  }

  method Spread5(lo: int64, l: int64) returns (b0: byte, b1: byte, b2: byte, top: int64)
    requires 0 <= lo < 0x20 && 0 <= l < 0x20_0000
    ensures 0 <= top < 4
    ensures b0 as int + 0x100 * b1 as int + 0x1_0000 * b2 as int + 0x100_0000 * top as int
      == lo as int + 0x20 * l as int
  {
    b0 := ToByte(lo + l * 0x20);
    b1 := ToByte(l / 8);
    b2 := ToByte(l / 0x800);
    top := l / 0x8_0000;
    ghost var q := l as int / 8;
    Quotient(lo as int + 0x20 * l as int, 0x100, q, lo as int + 0x20 * (l as int - 8 * q));
    ghost var q2 := q / 0x100;
    Quotient(l as int, 0x800, q2, l as int - 0x800 * q2);
    ghost var q3 := q2 / 0x100;
    Quotient(l as int, 0x8_0000, q3, l as int - 0x8_0000 * q3);
  }

  method Spread2(lo: int64, l: int64) returns (b0: byte, b1: byte, top: int64)
    requires 0 <= lo < 4 && 0 <= l < 0x20_0000
    ensures 0 <= top < 0x80
    ensures b0 as int + 0x100 * b1 as int + 0x1_0000 * top as int
      == lo as int + 4 * l as int
  {
    b0 := ToByte(lo + l * 4);
    b1 := ToByte(l / 0x40);
    top := l / 0x4000;
    ghost var q := l as int / 0x40;
    Quotient(lo as int + 4 * l as int, 0x100, q, lo as int + 4 * (l as int - 0x40 * q));
    ghost var q2 := q / 0x100;
    Quotient(l as int, 0x4000, q2, l as int - 0x4000 * q2);
  }

  method Spread7(lo: int64, l: int64) returns (b0: byte, b1: byte, b2: byte, top: int64)
    requires 0 <= lo < 0x80 && 0 <= l < 0x20_0000
    ensures 0 <= top < 0x10
    ensures b0 as int + 0x100 * b1 as int + 0x1_0000 * b2 as int + 0x100_0000 * top as int
      == lo as int + 0x80 * l as int
  {
    b0 := ToByte(lo + l * 0x80);
    b1 := ToByte(l / 2);
    b2 := ToByte(l / 0x200);
    top := l / 0x2_0000;
    ghost var q := l as int / 2;
    Quotient(lo as int + 0x80 * l as int, 0x100, q, lo as int + 0x80 * (l as int - 2 * q));
    ghost var q2 := q / 0x100;
    Quotient(l as int, 0x200, q2, l as int - 0x200 * q2);
    ghost var q3 := q2 / 0x100;
    Quotient(l as int, 0x2_0000, q3, l as int - 0x2_0000 * q3);
  }

  method Spread4(lo: int64, l: int64) returns (b0: byte, b1: byte, b2: byte, top: int64)
    requires 0 <= lo < 0x10 && 0 <= l < 0x20_0000
    ensures 0 <= top < 2
    ensures b0 as int + 0x100 * b1 as int + 0x1_0000 * b2 as int + 0x100_0000 * top as int
      == lo as int + 0x10 * l as int
  {
    b0 := ToByte(lo + l * 0x10);
    b1 := ToByte(l / 0x10);
    b2 := ToByte(l / 0x1000);
    top := l / 0x10_0000;
    ghost var q := l as int / 0x10;
    Quotient(lo as int + 0x10 * l as int, 0x100, q, lo as int + 0x10 * (l as int - 0x10 * q));
    ghost var q2 := q / 0x100;
    Quotient(l as int, 0x1000, q2, l as int - 0x1000 * q2);
    ghost var q3 := q2 / 0x100;
    Quotient(l as int, 0x10_0000, q3, l as int - 0x10_0000 * q3);
  }

  method Spread1(lo: int64, l: int64) returns (b0: byte, b1: byte, top: int64)
    requires 0 <= lo < 2 && 0 <= l < 0x20_0000
    ensures 0 <= top < 0x40
    ensures b0 as int + 0x100 * b1 as int + 0x1_0000 * top as int
      == lo as int + 2 * l as int
  {
    b0 := ToByte(lo + l * 2);
    b1 := ToByte(l / 0x80);
    top := l / 0x8000;
    ghost var q := l as int / 0x80;
    Quotient(lo as int + 2 * l as int, 0x100, q, lo as int + 2 * (l as int - 0x80 * q));
    ghost var q2 := q / 0x100;
    Quotient(l as int, 0x8000, q2, l as int - 0x8000 * q2);
  }

  method Spread6(lo: int64, l: int64) returns (b0: byte, b1: byte, b2: byte, top: int64)
    requires 0 <= lo < 0x40 && 0 <= l < 0x20_0000
    ensures 0 <= top < 8
    ensures b0 as int + 0x100 * b1 as int + 0x1_0000 * b2 as int + 0x100_0000 * top as int
      == lo as int + 0x40 * l as int
  {
    b0 := ToByte(lo + l * 0x40);
    b1 := ToByte(l / 4);
    b2 := ToByte(l / 0x400);
    top := l / 0x4_0000;
    ghost var q := l as int / 4;
    Quotient(lo as int + 0x40 * l as int, 0x100, q, lo as int + 0x40 * (l as int - 4 * q));
    ghost var q2 := q / 0x100;
    Quotient(l as int, 0x400, q2, l as int - 0x400 * q2);
    ghost var q3 := q2 / 0x100;
    Quotient(l as int, 0x4_0000, q3, l as int - 0x4_0000 * q3);
  }

  method Spread3(lo: int64, l: int64) returns (b0: byte, b1: byte, b2: byte)
    requires 0 <= lo < 8 && 0 <= l < 0x20_0000
    ensures b0 as int + 0x100 * b1 as int + 0x1_0000 * b2 as int
      == lo as int + 8 * l as int
  {
    b0 := ToByte(lo + l * 8);
    b1 := ToByte(l / 0x20);
    b2 := ToByte(l / 0x2000);
    ghost var q := l as int / 0x20;
    Quotient(lo as int + 8 * l as int, 0x100, q, lo as int + 8 * (l as int - 0x20 * q));
    ghost var q2 := q / 0x100;
    Quotient(l as int, 0x2000, q2, l as int - 0x2000 * q2);
  }

  method SpreadTop(lo: int64, l: int64) returns (b0: byte, b1: byte, b2: byte, b3: byte)
    requires 0 <= lo < 0x80 && 0 <= l < 0x40_0000
    ensures b0 as int + 0x100 * b1 as int + 0x1_0000 * b2 as int + 0x100_0000 * b3 as int
      == lo as int + 0x80 * l as int
  {
    b0 := ToByte(lo + l * 0x80);
    b1 := ToByte(l / 2);
    b2 := ToByte(l / 0x200);
    b3 := ToByte(l / 0x2_0000);
    ghost var q := l as int / 2;
    Quotient(lo as int + 0x80 * l as int, 0x100, q, lo as int + 0x80 * (l as int - 2 * q));
    ghost var q2 := q / 0x100;
    Quotient(l as int, 0x200, q2, l as int - 0x200 * q2);
    ghost var q3 := q2 / 0x100;
    Quotient(l as int, 0x2_0000, q3, l as int - 0x2_0000 * q3);
  }

  /** Eight limbs as 21 bytes. */
  method PackBlock(s0: U21, s1: U21, s2: U21, s3: U21, s4: U21, s5: U21, s6: U21, s7: U21)
    returns (
      b0: byte, b1: byte, b2: byte, b3: byte, b4: byte, b5: byte, b6: byte, b7: byte, b8: byte, b9: byte, b10: byte,
      b11: byte, b12: byte, b13: byte, b14: byte, b15: byte, b16: byte, b17: byte, b18: byte, b19: byte, b20: byte)
    ensures
      Sum21(b0 as int, b1 as int, b2 as int, b3 as int, b4 as int, b5 as int, b6 as int, b7 as int, b8 as int,
      b9 as int, b10 as int, b11 as int, b12 as int, b13 as int, b14 as int, b15 as int, b16 as int, b17 as int,
      b18 as int, b19 as int, b20 as int)
      == V8(s0, s1, s2, s3, s4, s5, s6, s7)
  {
    var top: int64;
    b0, b1, top := Spread0(s0);
    b2, b3, b4, top := Spread5(top, s1);
    b5, b6, top := Spread2(top, s2);
    b7, b8, b9, top := Spread7(top, s3);
    b10, b11, b12, top := Spread4(top, s4);
    b13, b14, top := Spread1(top, s5);
    b15, b16, b17, top := Spread6(top, s6);
    b18, b19, b20 := Spread3(top, s7);
  }

  /** The last four limbs as eleven bytes. */
  method PackTop(s8: U21, s9: U21, s10: U21, s11: U22)
    returns (
      b0: byte, b1: byte, b2: byte, b3: byte, b4: byte, b5: byte, b6: byte, b7: byte, b8: byte, b9: byte, b10: byte)
    ensures
      Sum11(b0 as int, b1 as int, b2 as int, b3 as int, b4 as int, b5 as int, b6 as int, b7 as int, b8 as int,
      b9 as int, b10 as int)
      == V3(s8, s9, s10) + 0x8000_0000_0000_0000 * s11 as int
  {
    var top: int64;
    b0, b1, top := Spread0(s8);
    b2, b3, b4, top := Spread5(top, s9);
    b5, b6, top := Spread2(top, s10);
    b7, b8, b9, b10 := SpreadTop(top, s11);
  }

  /** A key as a block of 21 bytes and one of eleven. */
  lemma Digits32(k: seq<byte>) returns (lo: int, hi: int)
    requires |k| == 32
    ensures LE(k) == lo + 0x100_0000_0000_0000_0000_0000_0000_0000_0000_0000_0000 * hi
    ensures lo ==
      Sum21(k[0] as int, k[1] as int, k[2] as int, k[3] as int, k[4] as int, k[5] as int, k[6] as int, k[7] as int,
      k[8] as int, k[9] as int, k[10] as int, k[11] as int, k[12] as int, k[13] as int, k[14] as int, k[15] as int,
      k[16] as int, k[17] as int, k[18] as int, k[19] as int, k[20] as int)
    ensures hi ==
      Sum11(k[21] as int, k[22] as int, k[23] as int, k[24] as int, k[25] as int, k[26] as int, k[27] as int,
      k[28] as int, k[29] as int, k[30] as int, k[31] as int)
  {
    Value32(k);
    Part21(k, 0);
    Part11(k, 21);
    lo, hi := Part(k, 0, 21), Part(k, 21, 11);
  }

  /** Twelve limbs as the 32 bytes of a key. */
  method Pack32(
      s0: U21, s1: U21, s2: U21, s3: U21, s4: U21, s5: U21, s6: U21, s7: U21, s8: U21, s9: U21, s10: U21, s11: U22)
    returns (k: seq<byte>)
    ensures |k| == 32
    ensures LE(k) == V12(s0, s1, s2, s3, s4, s5, s6, s7, s8, s9, s10, s11)
  {
    var b0, b1, b2, b3, b4, b5, b6, b7, b8, b9, b10, b11, b12, b13, b14, b15, b16, b17, b18, b19, b20
      := PackBlock(s0, s1, s2, s3, s4, s5, s6, s7);
    var b21, b22, b23, b24, b25, b26, b27, b28, b29, b30, b31 :=
      PackTop(s8, s9, s10, s11);
    k := [
      b0, b1, b2, b3, b4, b5, b6, b7, b8, b9, b10, b11, b12, b13, b14, b15, b16, b17, b18, b19, b20,
      b21, b22, b23, b24, b25, b26, b27, b28, b29, b30, b31];
    ghost var lo, hi := Digits32(k);
  }
}
