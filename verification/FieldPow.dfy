/** The exponentiation chains of crypto/curve25519/edwards25519_field.go, on ten-limb field elements. */
module FieldPow {
  import opened Arith
  import opened Field10
  import opened MachineInts
  import opened Residues

  /** f stands for z^e. */
  ghost predicate IsPower(f: seq<int32>, z: int, e: nat) {
    |f| == 10 && Congruent(Fe(f), Pow(z, e))
  }

  lemma ProductOfPowers(v: int, a: int, b: int, z: int, m: nat, n: nat, q: int)
    requires Congruent(a, Pow(z, m)) && Congruent(b, Pow(z, n))
    requires v == a * b - P * q
    ensures Congruent(v, Pow(z, m + n))
  {
    CongruentBy(v, a * b, q);
    CongruentProduct(a, Pow(z, m), b, Pow(z, n));
    PowSum(z, m, n);
  }

  method Mul(f: seq<int32>, g: seq<int32>, ghost z: int, ghost m: nat, ghost n: nat) returns (r: seq<int32>)
    requires Loose(f) && Loose(g) && IsPower(f, z, m) && IsPower(g, z, n)
    ensures Tight(r) && Loose(r) && IsPower(r, z, m + n)
  {
    ghost var q;
    r, q := MulLimbs(f, g);
    ProductOfPowers(Fe(r), Fe(f), Fe(g), z, m, n, q);
  }

  method Square(f: seq<int32>, ghost z: int, ghost m: nat) returns (r: seq<int32>)
    requires Loose(f) && IsPower(f, z, m)
    ensures Tight(r) && Loose(r) && IsPower(r, z, 2 * m)
  {
    ghost var q;
    r, q := SquareLoose(f);
    ProductOfPowers(Fe(r), Fe(f), Fe(f), z, m, m, q);
  }

  // The loop counts of the chains, as powers of two.

  lemma ShortLoops()
    ensures Pow2(0) == 1 && Pow2(1) == 2 && Pow2(4) == 16 && Pow2(9) == 512 && Pow2(10) == 1024
  {
    Pow2Sum(4, 5);
  }

  lemma LongLoops()
    ensures Pow2(19) == 0x8_0000 && Pow2(49) == 0x2_0000_0000_0000
    ensures Pow2(99) == 0x8_0000_0000_0000_0000_0000_0000
  {
    ShortLoops();
    Pow2Sum(9, 10);
    Pow2Sum(10, 19);
    Pow2Sum(20, 29);
    Pow2Sum(1, 19);
    Pow2Sum(50, 49);
    Pow2Sum(1, 49);
  }

  lemma Doubled(m: nat, e: nat, i: nat) returns (e': nat)
    requires i >= 1 && e == m * Pow2(i - 1)
    ensures e' == 2 * e == m * Pow2(i)
  {
    e' := 2 * e;
    assert 2 * (m * Pow2(i - 1)) == m * (2 * Pow2(i - 1));
  }

  /** n - 1 squarings in place, counted from 1 as the source does. */
  method SquareLoop(f: seq<int32>, n: nat, ghost z: int, ghost m: nat, ghost e: nat) returns (r: seq<int32>)
    requires n >= 1 && e == m * Pow2(n - 1)
    requires Loose(f) && IsPower(f, z, m)
    ensures Loose(r) && IsPower(r, z, e)
  {
    r := f;
    var i := 1;
    ghost var k := m;
    while i < n
      invariant 1 <= i <= n
      invariant Loose(r) && IsPower(r, z, k) && k == m * Pow2(i - 1)
    {
      r := Square(r, z, k);
      k := Doubled(m, k, i);
      i := i + 1;
    }
  }

  lemma FirstPower(f: seq<int32>)
    requires |f| == 10
    ensures IsPower(f, Fe(f), 1)
  {
    assert Pow(Fe(f), 1) == Fe(f) * Pow(Fe(f), 0);
  }

  /** The part the two chains share: z^11 and z^(2^50 - 1). */
  method Ladder50(z: seq<int32>) returns (t0: seq<int32>, t1: seq<int32>)
    requires Loose(z)
    ensures Loose(t0) && IsPower(t0, Fe(z), 11) && Loose(t1) && IsPower(t1, Fe(z), 0x3_ffff_ffff_ffff)
  {
    ghost var x := Fe(z);
    FirstPower(z);
    ShortLoops();
    LongLoops();
    var t2, t3;
    t0 := Square(z, x, 1);
    t1 := Square(t0, x, 2);
    t1 := SquareLoop(t1, 2, x, 4, 8);
    t1 := Mul(z, t1, x, 1, 8);
    t0 := Mul(t0, t1, x, 2, 9);
    t2 := Square(t0, x, 11);
    t1 := Mul(t1, t2, x, 9, 0x16);
    t2 := Square(t1, x, 0x1f);
    t2 := SquareLoop(t2, 5, x, 0x3e, 0x3e0);
    t1 := Mul(t2, t1, x, 0x3e0, 0x1f);
    t2 := Square(t1, x, 0x3ff);
    t2 := SquareLoop(t2, 10, x, 0x7fe, 0xf_fc00);
    t2 := Mul(t2, t1, x, 0xf_fc00, 0x3ff);
    t3 := Square(t2, x, 0xf_ffff);
    t3 := SquareLoop(t3, 20, x, 0x1f_fffe, 0xff_fff0_0000);
    t2 := Mul(t3, t2, x, 0xff_fff0_0000, 0xf_ffff);
    t2 := Square(t2, x, 0xff_ffff_ffff);
    t2 := SquareLoop(t2, 10, x, 0x1ff_ffff_fffe, 0x3_ffff_ffff_fc00);
    t1 := Mul(t2, t1, x, 0x3_ffff_ffff_fc00, 0x3ff);
  }

  // Exponents of the second part, too long to repeat.

  const E100: nat := 0xf_ffff_ffff_ffff_ffff_ffff_ffff
  const E200: nat := 0xff_ffff_ffff_ffff_ffff_ffff_ffff_ffff_ffff_ffff_ffff_ffff_ffff
  const E250: nat := 0x3ff_ffff_ffff_ffff_ffff_ffff_ffff_ffff_ffff_ffff_ffff_ffff_ffff_ffff_ffff_ffff

  /** From z^(2^50 - 1) to z^(2^250 - 1). */
  method Ladder250(t: seq<int32>, ghost x: int) returns (t1: seq<int32>)
    requires Loose(t) && IsPower(t, x, 0x3_ffff_ffff_ffff)
    ensures Loose(t1) && IsPower(t1, x, E250)
  {
    LongLoops();
    var t2, t3;
    t2 := Square(t, x, 0x3_ffff_ffff_ffff);
    t2 := SquareLoop(t2, 50, x, 0x7_ffff_ffff_fffe, 0xf_ffff_ffff_fffc_0000_0000_0000);
    t2 := Mul(t2, t, x, 0xf_ffff_ffff_fffc_0000_0000_0000, 0x3_ffff_ffff_ffff);
    t3 := Square(t2, x, E100);
    t3 := SquareLoop(t3, 100, x, 2 * E100, E200 - E100);
    t2 := Mul(t3, t2, x, E200 - E100, E100);
    t2 := Square(t2, x, E200);
    t2 := SquareLoop(t2, 50, x, 2 * E200, E250 - 0x3_ffff_ffff_ffff);
    t1 := Mul(t2, t, x, E250 - 0x3_ffff_ffff_ffff, 0x3_ffff_ffff_ffff);
  }

  /** out = z^(2^255 - 21), which inverts z when z is not zero. */
  method FeInvert(z: seq<int32>) returns (out: seq<int32>)
    requires Loose(z)
    ensures Tight(out) && IsPower(out, Fe(z), P - 2)
  {
    ghost var x := Fe(z);
    var t0, t1 := Ladder50(z);
    t1 := Ladder250(t1, x);
    ShortLoops();
    t1 := Square(t1, x, E250);
    t1 := SquareLoop(t1, 5, x, 2 * E250, 32 * E250);
    out := Mul(t1, t0, x, 32 * E250, 11);
  }

  /** out = z^(2^252 - 3), that is z^((P - 5) / 8). Loops that never run are left out. */
  method FePow22523(z: seq<int32>) returns (out: seq<int32>)
    requires Loose(z)
    ensures Tight(out) && IsPower(out, Fe(z), (P - 5) / 8)
  {
    ghost var x := Fe(z);
    FirstPower(z);
    var _, t0 := Ladder50(z);
    t0 := Ladder250(t0, x);
    ShortLoops();
    t0 := Square(t0, x, E250);
    t0 := SquareLoop(t0, 2, x, 2 * E250, 4 * E250);
    out := Mul(t0, z, x, 4 * E250, 1);
  }
}
