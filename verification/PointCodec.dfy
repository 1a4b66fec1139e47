/** Decoding and encoding of curve points (ExtendedGroupElement.FromBytes and ToBytes of
    crypto/curve25519/edwards_25519_group.go, sections 5.1.2 and 5.1.3 of RFC 8032), on the ten-limb field. */
module PointCodec {
  import opened Arith
  import opened Bytes
  import opened CurveRoot
  import opened Field10
  import opened Field10Bytes
  import opened FieldPow
  import opened MachineInts
  import opened PrimeField
  import opened Residues
  import opened ScalarBytes
  import ScalarKeys

  // ---- The constants of crypto/curve25519/edwards_const_general.go ----

  /** The numbers those limbs stand for: d, and a square root of -1. */
  const D: int := -0x2dfc_9311_d490_018c_7338_bf86_8886_1767_ff8f_f5b2_bebe_2754_8a14_b235_eca6_874a
  const ROOT: int := 0x2b83_2480_4fc1_df0b_2b4d_0099_3dfb_d7a7_2f43_1806_ad2f_e478_c4ee_1b27_4a0e_a0b0

  /** Ten limbs as a field element. */
  method Limbs(a0: int32, a1: int32, a2: int32, a3: int32, a4: int32,
      a5: int32, a6: int32, a7: int32, a8: int32, a9: int32, ghost even: int, ghost odd: int)
    returns (f: seq<int32>)
    requires -even <= a0 as int <= even && -even <= a2 as int <= even && -even <= a4 as int <= even
      && -even <= a6 as int <= even && -even <= a8 as int <= even
    requires -odd <= a1 as int <= odd && -odd <= a3 as int <= odd && -odd <= a5 as int <= odd
      && -odd <= a7 as int <= odd && -odd <= a9 as int <= odd
    ensures Within(f, even, odd)
    ensures Fe(f) == V10(a0 as int, a1 as int, a2 as int, a3 as int, a4 as int, a5 as int, a6 as int, a7 as int,
      a8 as int, a9 as int)
  {
    f := [a0, a1, a2, a3, a4, a5, a6, a7, a8, a9];
    FeOf(f);
  }

  method LoadD() returns (d: seq<int32>)
    ensures Loose(d) && Fe(d) == D
  {
    d := Limbs(-10913610, 13857413, -15372611, 6949391, 114729, -8787816, -6275908, -3247719, -18696448, -12055116,
      73819750, 36909875);
  }

  method LoadSqrtM1() returns (i: seq<int32>)
    ensures Loose(i) && Fe(i) == ROOT
  {
    i := Limbs(-32595792, -7943725, 9377950, 3500415, 12389472, -272473, -25146209, -2005654, 326686, 11406482,
      73819750, 36909875);
  }

  method LoadOne() returns (one: seq<int32>)
    ensures Within(one, 1, 0) && Loose(one) && Fe(one) == 1
  {
    one := Limbs(1, 0, 0, 0, 0, 0, 0, 0, 0, 0, 1, 0);
    OneIsLoose(one);
  }

  lemma OneIsLoose(f: seq<int32>)
    requires Within(f, 1, 0)
    ensures Loose(f)
  {
  }

  /** d = -121665 / 121666, and d + 1 is not zero. */
  lemma CurveConstant()
    ensures Congruent(121666 * D, -121665)
    ensures (D + 1) % P != 0
  {
    CongruentBy(121666 * D, -121665, 0xaabf);
  }

  lemma RootOfMinusOne()
    ensures Congruent(ROOT * ROOT, -1)
  {
    CongruentBy(ROOT * ROOT, -1, -0xeca_a2e2_f6a2_302c_cedb_31ac_0572_0688_238c_ed20_78f3_eb0e_c9f2_2e8f_6219_72e5);
  }

  // ---- What decoding means ----

  /** The low 255 bits and the top bit of a key. */
  ghost function YOf(s: seq<byte>): int {
    LE(s) % TWO255
  }

  ghost function SignOf(s: seq<byte>): int {
    LE(s) / TWO255
  }

  /** -x^2 + y^2 = 1 + d x^2 y^2 */
  ghost predicate OnCurve(x: int, y: int) {
    Congruent(Square(y) - Square(x), 1 + Times(Times(Square(x), Square(y)), D))
  }

  ghost function Square(x: int): int {
    Times(x, x)
  }

  /** The equation of the decoder: v x^2 = u with these two. */
  ghost function Numerator(y: int): int {
    Square(y) - 1
  }

  ghost function Denominator(y: int): int {
    Times(Square(y), D) + 1
  }

  /** u v^3 (u v^7)^((P - 5) / 8), in the order of the source. */
  ghost function Root(u: int, v: int): int {
    var v3 := Times(Square(v), v);
    Times(Times(Pow(Times(Times(Square(v3), v), u), E), v3), u)
  }

  ghost predicate CandidateWorks(u: int, v: int) {
    Congruent(Times(Square(Root(u, v)), v), u) || Congruent(Times(Square(Root(u, v)), v), -u)
  }

  /** x is the first coordinate that section 5.1.3 of RFC 8032 assigns to the key. */
  ghost predicate Decodes(s: seq<byte>, x: int) {
    YOf(s) < P && OnCurve(x, YOf(s)) && 0 <= x < P && x % 2 == SignOf(s)
  }

  // ---- Canonical second coordinates ----

  /** The test at the start of FromBytes: the ten loaded limbs spell a number of P or more. */
  method NotCanonical(s: seq<byte>) returns (r: bool)
    requires |s| == 32
    ensures r <==> YOf(s) >= P
  {
    var h0 := Load4(s, 0);
    var h1 := Load3(s, 4) * 0x40;
    var h2 := Load3(s, 7) * 0x20;
    var h3 := Load3(s, 10) * 8;
    var h4 := Load3(s, 13) * 4;
    var h5 := Load4(s, 16);
    var h6 := Load3(s, 20) * 0x80;
    var h7 := Load3(s, 23) * 0x20;
    var h8 := Load3(s, 26) * 0x10;
    var h9 := Load3(s, 29) % 0x80_0000 * 4;
    r := h9 == 33554428 && h8 == 268435440 && h7 == 536870880 && h6 == 2147483520 &&
         h5 == 4294967295 && h4 == 67108860 && h3 == 134217720 && h2 == 536870880 &&
         h1 == 1073741760 && h0 >= 4294967277;
    ghost var top := Load3(s, 29) as int % 0x80_0000;
    LowBits(s, top);
    AllOnes(Load4(s, 0) as int, Load3(s, 4) as int, Load3(s, 7) as int, Load3(s, 10) as int, Load3(s, 13) as int,
      Load4(s, 16) as int, Load3(s, 20) as int, Load3(s, 23) as int, Load3(s, 26) as int, top);
  }

  ghost function Loaded(l0: int, l1: int, l2: int, l3: int, l4: int, l5: int, l6: int, l7: int, l8: int, l9: int): int {
    l0 + 0x1_0000_0000 * l1 + 0x100_0000_0000_0000 * l2 + 0x1_0000_0000_0000_0000_0000 * l3
      + 0x100_0000_0000_0000_0000_0000_0000 * l4
    + 0x1_0000_0000_0000_0000_0000_0000_0000_0000 * l5 + 0x1_0000_0000_0000_0000_0000_0000_0000_0000_0000_0000 * l6
    + 0x100_0000_0000_0000_0000_0000_0000_0000_0000_0000_0000_0000 * l7
      + 0x1_0000_0000_0000_0000_0000_0000_0000_0000_0000_0000_0000_0000_0000 * l8
    + 0x100_0000_0000_0000_0000_0000_0000_0000_0000_0000_0000_0000_0000_0000_0000 * l9
  }

  lemma LowBits(s: seq<byte>, top: int)
    requires |s| == 32 && top == Load3(s, 29) as int % 0x80_0000
    ensures YOf(s) == Loaded(
      Load4(s, 0) as int, Load3(s, 4) as int, Load3(s, 7) as int, Load3(s, 10) as int, Load3(s, 13) as int,
      Load4(s, 16) as int, Load3(s, 20) as int, Load3(s, 23) as int, Load3(s, 26) as int, top)
  {
    var lo, hi := LoadedHalves(s);
    var low := Loaded(
      Load4(s, 0) as int, Load3(s, 4) as int, Load3(s, 7) as int, Load3(s, 10) as int, Load3(s, 13) as int,
      Load4(s, 16) as int, Load3(s, 20) as int, Load3(s, 23) as int, Load3(s, 26) as int, top);
    Quotient(LE(s), TWO255, Load3(s, 29) as int / 0x80_0000, low);
  }

  lemma AllOnes(l0: int, l1: int, l2: int, l3: int, l4: int, l5: int, l6: int, l7: int, l8: int, l9: int)
    requires 0 <= l0 < 0x1_0000_0000 && 0 <= l5 < 0x1_0000_0000 && 0 <= l9 < 0x80_0000
    requires 0 <= l1 < 0x100_0000 && 0 <= l2 < 0x100_0000 && 0 <= l3 < 0x100_0000 && 0 <= l4 < 0x100_0000
    requires 0 <= l6 < 0x100_0000 && 0 <= l7 < 0x100_0000 && 0 <= l8 < 0x100_0000
    ensures Loaded(l0, l1, l2, l3, l4, l5, l6, l7, l8, l9) >= P <==>
      l9 == 0x7f_ffff && l8 == 0xff_ffff && l7 == 0xff_ffff && l6 == 0xff_ffff && l5 == 0xffff_ffff &&
      l4 == 0xff_ffff && l3 == 0xff_ffff && l2 == 0xff_ffff && l1 == 0xff_ffff && l0 >= 0xffff_ffed
  {
  }

  // ---- Arithmetic on limbs, traced as residues ----

  method MulTraced(f: seq<int32>, g: seq<int32>, ghost a: int, ghost b: int) returns (r: seq<int32>)
    requires Loose(f) && Loose(g) && Congruent(Fe(f), a) && Congruent(Fe(g), b)
    ensures Tight(r) && Loose(r) && Congruent(Fe(r), Times(a, b))
  {
    ghost var q;
    r, q := MulLimbs(f, g);
    TracedProduct(Fe(r), Fe(f), Fe(g), a, b, q);
  }

  method SquareTraced(f: seq<int32>, ghost a: int) returns (r: seq<int32>)
    requires Loose(f) && Congruent(Fe(f), a)
    ensures Tight(r) && Loose(r) && Congruent(Fe(r), Square(a))
  {
    ghost var q;
    r, q := SquareLoose(f);
    TracedProduct(Fe(r), Fe(f), Fe(f), a, a, q);
  }

  lemma TracedProduct(r: int, f: int, g: int, a: int, b: int, q: int)
    requires r == f * g - P * q && Congruent(f, a) && Congruent(g, b)
    ensures Congruent(r, Times(a, b))
  {
    CongruentBy(r, f * g, q);
    CongruentTimes(f, a, g, b);
    TimesIsProduct(f, g);
  }

  lemma CongruentTimes(f: int, a: int, g: int, b: int)
    requires Congruent(f, a) && Congruent(g, b)
    ensures Congruent(Times(f, g), Times(a, b))
  {
    CongruentProduct(f, a, g, b);
    TimesIsProduct(f, g);
    TimesIsProduct(a, b);
  }

  /** Just above the bound on results: u and v differ from one by 1. */
  ghost predicate Near(f: seq<int32>) {
    Within(f, 36909876, 18454937)
  }

  method MinusOne(f: seq<int32>, ghost a: int) returns (r: seq<int32>)
    requires Tight(f) && Congruent(Fe(f), a)
    ensures Near(r) && Loose(r) && Congruent(Fe(r), a - 1)
  {
    var one := LoadOne();
    r := SubLimbs(f, one, 36909875, 18454937, 1, 0);
    CongruentSum(Fe(f), a, 1, 1);
  }

  method PlusOne(f: seq<int32>, ghost a: int) returns (r: seq<int32>)
    requires Tight(f) && Congruent(Fe(f), a)
    ensures Near(r) && Loose(r) && Congruent(Fe(r), a + 1)
  {
    var one := LoadOne();
    r := AddLimbs(f, one, 36909875, 18454937, 1, 0);
    CongruentSum(Fe(f), a, 1, 1);
  }

  /** u = y^2 - 1 and v = d y^2 + 1. */
  method CurveTerms(Y: seq<int32>, ghost y: int) returns (u: seq<int32>, v: seq<int32>)
    requires Loose(Y) && Congruent(Fe(Y), y)
    ensures Near(u) && Near(v) && Loose(u) && Loose(v)
    ensures Congruent(Fe(u), Numerator(y)) && Congruent(Fe(v), Denominator(y))
  {
    var d := LoadD();
    var square := SquareTraced(Y, y);
    var scaled := MulTraced(square, d, Square(y), D);
    u := MinusOne(square, Square(y));
    v := PlusOne(scaled, Times(Square(y), D));
  }

  /** u v^3 (u v^7)^((P - 5) / 8) */
  method CandidateRoot(u: seq<int32>, v: seq<int32>, ghost a: int, ghost b: int) returns (x: seq<int32>)
    requires Loose(u) && Loose(v) && Congruent(Fe(u), a) && Congruent(Fe(v), b)
    ensures Tight(x) && Loose(x) && Congruent(Fe(x), Root(a, b))
  {
    ghost var b3 := Times(Square(b), b);
    var v3 := SquareTraced(v, b);
    v3 := MulTraced(v3, v, Square(b), b);
    x := SquareTraced(v3, b3);
    x := MulTraced(x, v, Square(b3), b);
    x := MulTraced(x, u, Times(Square(b3), b), a);
    ghost var seventh := Times(Times(Square(b3), b), a);
    ghost var before := Fe(x);
    x := FePow22523(x);
    PowCongruent(before, seventh, E);
    TightIsLoose(x);
    x := MulTraced(x, v3, Pow(seventh, E), b3);
    x := MulTraced(x, u, Times(Pow(seventh, E), b3), a);
  }

  lemma TightIsLoose(f: seq<int32>)
    requires Tight(f)
    ensures Loose(f)
  {
  }

  lemma ZeroDifference(x: int, y: int)
    ensures (x - y) % P == 0 <==> Congruent(x, y)
    ensures (x + y) % P == 0 <==> Congruent(x, -y)
  {
    if (x - y) % P == 0 {
      CongruentSum(x - y, 0, y, y);
    }
    if Congruent(x, y) {
      CongruentSum(x, y, y, y);
    }
    if (x + y) % P == 0 {
      CongruentSum(x + y, 0, y, y);
    }
    if Congruent(x, -y) {
      CongruentSum(x, -y, y, y);
    }
  }

  /** Whether v x^2 differs from u. The difference may exceed the bound documented for FeToBytes. */
  method IsDifferent(vxx: seq<int32>, u: seq<int32>, ghost w: int, ghost a: int) returns (bit: int32)
    requires Tight(vxx) && Near(u) && Congruent(Fe(vxx), w) && Congruent(Fe(u), a)
    ensures bit == if Congruent(w, a) then 0 else 1
  {
    var check := SubLimbs(vxx, u, 36909875, 18454937, 36909876, 18454937);
    bit, check := NonZero(check);
    CongruentSum(Fe(vxx), w, Fe(u), a);
    ZeroDifference(w, a);
  }

  /** Whether v x^2 differs from -u. */
  method IsNotOpposite(vxx: seq<int32>, u: seq<int32>, ghost w: int, ghost a: int) returns (bit: int32)
    requires Tight(vxx) && Near(u) && Congruent(Fe(vxx), w) && Congruent(Fe(u), a)
    ensures bit == if Congruent(w, -a) then 0 else 1
  {
    var check := AddLimbs(vxx, u, 36909875, 18454937, 36909876, 18454937);
    bit, check := NonZero(check);
    CongruentSum(Fe(vxx), w, Fe(u), a);
    ZeroDifference(w, a);
  }

  /** Checks the candidate, multiplying it by a square root of -1 where that helps. */
  method SettleRoot(x: seq<int32>, u: seq<int32>, v: seq<int32>, ghost r: int, ghost a: int, ghost b: int)
    returns (ok: bool, root: seq<int32>)
    requires Loose(x) && Near(u) && Loose(v) && Congruent(Fe(x), r) && Congruent(Fe(u), a) && Congruent(Fe(v), b)
    ensures ok ==> Loose(root) && Congruent(Times(Square(Fe(root)), b), a)
    ensures !ok ==> !Congruent(Times(Square(r), b), a) && !Congruent(Times(Square(r), b), -a)
  {
    ok, root := true, x;
    ghost var w := Times(Square(r), b);
    var vxx := SquareTraced(x, r);
    vxx := MulTraced(vxx, v, Square(r), b);
    var bit := IsDifferent(vxx, u, w, a);
    if bit == 1 {
      bit := IsNotOpposite(vxx, u, w, a);
      if bit == 1 {
        return false, x;
      }
      var i := LoadSqrtM1();
      root := MulTraced(x, i, r, ROOT);
      TimesRoot(Fe(root), r, a, b);
    } else {
      CongruentTimes(Fe(x), r, Fe(x), r);
      CongruentTimes(Square(Fe(x)), Square(r), b, b);
    }
  }

  lemma TimesRoot(x: int, r: int, a: int, b: int)
    requires Congruent(x, Times(r, ROOT)) && Congruent(Times(Square(r), b), -a)
    ensures Congruent(Times(Square(x), b), a)
  {
    TimesIsProduct(r, ROOT);
    TimesIsProduct(r, r);
    TimesIsProduct(r * r, b);
    RootOfMinusOne();
    CongruentProduct(x, r * ROOT, x, r * ROOT);
    SquareOfProduct(r, ROOT, b);
    CongruentProduct(x * x, (r * ROOT) * (r * ROOT), b, b);
    CongruentProduct((r * r) * b, -a, ROOT * ROOT, -1);
    TimesIsProduct(x, x);
    TimesIsProduct(x * x, b);
  }

  lemma SquareOfProduct(r: int, i: int, b: int)
    ensures ((r * i) * (r * i)) * b == ((r * r) * b) * (i * i)
  {
  }

  /** Gives x the parity of the sign bit, by negating it; zero has no negative. */
  method SettleSign(x: seq<int32>, bit: byte) returns (ok: bool, r: seq<int32>)
    requires Loose(x) && bit < 2
    ensures ok ==> Loose(r) && Fe(r) % P % 2 == bit as int
    ensures ok ==> Congruent(Fe(r), Fe(x)) || Congruent(Fe(r), -Fe(x))
    ensures !ok ==> Fe(x) % P == 0 && bit == 1
  {
    LooseIsLoosest(x);
    var negative;
    negative, r := Parity(x);
    CarriedIsLoose(r);
    Reduced(Fe(x));
    ok := true;
    if negative != bit {
      var nonZero;
      nonZero, r := NonZero(r);
      if nonZero == 0 {
        return false, r;
      }
      CarriedIsLoose(r);
      r := NegLimbs(r);
      NegativeParity(Fe(x));
    }
  }

  lemma CarriedIsLoose(r: seq<int32>)
    requires Carried(r)
    ensures Loose(r) && Loosest(r)
  {
  }

  method NegLimbs(a: seq<int32>) returns (r: seq<int32>)
    requires Loose(a)
    ensures Loose(r) && Fe(r) == -Fe(a)
  {
    r := Limbs(-a[0], -a[1], -a[2], -a[3], -a[4], -a[5], -a[6], -a[7], -a[8], -a[9],
      73819750, 36909875);
    FeOf(a);
  }

  lemma Reduced(v: int)
    ensures v % P % P == v % P && Congruent(v % P, v)
  {
    CongruentBy(v % P, v, v / P);
  }

  /** P is odd, so negating a nonzero residue flips its parity. */
  lemma NegativeParity(v: int)
    requires v % P != 0
    ensures (-(v % P)) % P % 2 != v % P % 2
    ensures Congruent(-(v % P), -v)
  {
    Quotient(-(v % P), P, -1, P - v % P);
    CongruentBy(-(v % P), -v, -(v / P));
  }

  // ---- From roots to curve points and back ----

  lemma CurveFromRoot(x: int, y: int)
    ensures OnCurve(x, y) <==> Congruent(Times(Square(x), Denominator(y)), Numerator(y))
  {
    var l, r := Times(Square(x), Denominator(y)), Numerator(y);
    var c := Times(Times(Square(x), Square(y)), D);
    ExpandDenominator(Square(x), Square(y));
    var a, b := Square(y) - Square(x), 1 + c;
    assert a + l == b + r;
    if Congruent(l, r) {
      CongruentSum(a + l, b + r, l, r);
    }
    if Congruent(a, b) {
      CongruentSum(a + l, b + r, a, b);
    }
  }

  lemma ExpandDenominator(x2: int, y2: int)
    ensures Times(x2, Times(y2, D) + 1) == Times(Times(x2, y2), D) + x2
  {
    TimesIsProduct(y2, D);
    TimesIsProduct(x2, y2 * D + 1);
    TimesIsProduct(x2, y2);
    TimesIsProduct(x2 * y2, D);
  }

  lemma NegatedSquare(x: int)
    ensures Square(-x) == Square(x)
  {
    TimesIsProduct(x, x);
    TimesIsProduct(-x, -x);
  }

  lemma OnCurveCongruent(x: int, x': int, y: int)
    requires OnCurve(x, y) && (Congruent(x', x) || Congruent(x', -x))
    ensures OnCurve(x', y)
  {
    var v := Denominator(y);
    CurveFromRoot(x, y);
    if Congruent(x', x) {
      CongruentTimes(x', x, x', x);
    } else {
      CongruentTimes(x', -x, x', -x);
      NegatedSquare(x);
    }
    CongruentTimes(Square(x'), Square(x), v, v);
    CurveFromRoot(x', y);
  }

  lemma ReducedIsCongruent(x: int)
    ensures Congruent(x % P, x) && 0 <= x % P < P
  {
    CongruentBy(x % P, x, x / P);
  }

  lemma ZeroTimes(a: int, b: int)
    requires a % P == 0
    ensures Congruent(Times(b, a), 0)
  {
    ZeroFactor(a, b);
    TimesIsProduct(b, a);
  }

  /** v is not zero when v x^2 = u has a solution: otherwise y^2 = 1 and v = d + 1. */
  lemma DenominatorNotZero(x: int, y: int)
    requires OnCurve(x, y)
    ensures Denominator(y) % P != 0
  {
    CurveFromRoot(x, y);
    CurveConstant();
    if Denominator(y) % P == 0 {
      ZeroTimes(Denominator(y), Square(x));
      CongruentSum(Numerator(y), 0, 1, 1);
      CongruentTimes(Square(y), 1, D, D);
      assert Times(1, D) == D;
      CongruentSum(Times(Square(y), D), D, 1, 1);
    }
  }

  lemma Commute(a: int, b: int)
    ensures a * b == b * a
  {
  }

  lemma RootIsCandidate(u: int, v: int)
    ensures Root(u, v) == Candidate(u, v)
  {
    var v3 := Cube(v);
    TimesIsProduct(v, v);
    TimesIsProduct(v * v, v);
    TimesIsProduct(v3, v3);
    TimesIsProduct(v3 * v3, v);
    TimesIsProduct((v3 * v3) * v, u);
    var w := Pow(Seventh(u, v), E);
    TimesIsProduct(w, v3);
    TimesIsProduct(w * v3, u);
  }

  /** The decoder does not miss a root. */
  lemma RootNotMissed(x: int, y: int)
    requires PIsPrime() && OnCurve(x, y)
    ensures CandidateWorks(Numerator(y), Denominator(y))
  {
    var u, v := Numerator(y), Denominator(y);
    DenominatorNotZero(x, y);
    CurveFromRoot(x, y);
    TimesIsProduct(Square(x), v);
    TimesIsProduct(x, x);
    Commute(v, x * x);
    RootFound(u, v, x);
    RootIsCandidate(u, v);
    var r := Candidate(u, v);
    TimesIsProduct(r, r);
    TimesIsProduct(r * r, v);
  }

  lemma DifferenceOfSquares(x: int, x': int, v: int)
    ensures ((x - x') * (x + x')) * v == (x * x) * v - (x' * x') * v
  {
    assert (x - x') * (x + x') == x * x - x' * x';
  }

  lemma ZeroProduct(a: int, b: int)
    requires PIsPrime() && (a * b) % P == 0 && b % P != 0
    ensures a % P == 0
  {
    Euclid(a, b);
  }

  /** Two solutions for one y agree up to sign. */
  lemma RootsAgree(x: int, x': int, y: int)
    requires PIsPrime() && OnCurve(x, y) && OnCurve(x', y)
    ensures Congruent(x, x') || Congruent(x, -x')
  {
    var v := Denominator(y);
    DenominatorNotZero(x, y);
    CurveFromRoot(x, y);
    CurveFromRoot(x', y);
    TimesIsProduct(x, x);
    TimesIsProduct(x', x');
    TimesIsProduct(x * x, v);
    TimesIsProduct(x' * x', v);
    ZeroDifference((x * x) * v, (x' * x') * v);
    DifferenceOfSquares(x, x', v);
    ZeroProduct((x - x') * (x + x'), v);
    ZeroDifference(x, x');
    if (x + x') % P != 0 {
      ZeroProduct(x - x', x + x');
    }
  }

  /** Residues with one parity that agree up to sign are equal. */
  lemma ParityDecides(x: int, x': int)
    requires 0 <= x < P && 0 <= x' < P && x % 2 == x' % 2
    requires Congruent(x, x') || Congruent(x, -x')
    ensures x == x'
  {
    Quotient(x, P, 0, x);
    Quotient(x', P, 0, x');
    if x' == 0 {
    } else {
      Quotient(-x', P, -1, P - x');
      OddComplement(x, x', P);
    }
  }

  lemma OddComplement(x: int, x': int, p: int)
    requires p % 2 == 1 && x % 2 == x' % 2
    ensures x != p - x'
  {
  }

  /** At most one x belongs to a key. */
  lemma DecodesUnique(s: seq<byte>, x: int, x': int)
    requires PIsPrime() && Decodes(s, x) && Decodes(s, x')
    ensures x == x'
  {
    RootsAgree(x, x', YOf(s));
    ParityDecides(x, x');
  }

  lemma NoneBeyondP(s: seq<byte>)
    requires YOf(s) >= P
    ensures forall x :: !Decodes(s, x)
  {
  }

  /** When neither check of the candidate passes, the key has no decoding. */
  lemma NoRoot(s: seq<byte>)
    requires !CandidateWorks(Numerator(YOf(s)), Denominator(YOf(s)))
    ensures PIsPrime() ==> forall x :: !Decodes(s, x)
  {
    if PIsPrime() {
      forall x ensures !Decodes(s, x) {
        if Decodes(s, x) {
          RootNotMissed(x, YOf(s));
        }
      }
    }
  }

  /** When x is zero but the sign bit is set, the key has no decoding. */
  lemma NoNegativeZero(s: seq<byte>, zero: int)
    requires zero % P == 0 && OnCurve(zero, YOf(s)) && SignOf(s) == 1
    ensures PIsPrime() ==> forall x :: !Decodes(s, x)
  {
    if PIsPrime() {
      forall x ensures !Decodes(s, x) {
        if Decodes(s, x) {
          RootsAgree(x, zero, YOf(s));
          ZeroResidue(x, zero);
        }
      }
    }
  }

  lemma ZeroResidue(x: int, zero: int)
    requires 0 <= x < P && zero % P == 0
    requires Congruent(x, zero) || Congruent(x, -zero)
    ensures x == 0
  {
    Quotient(-zero, P, -(zero / P), 0);
  }

  // ---- The point object ----

  lemma SignBit(s: seq<byte>)
    requires |s| == 32
    ensures SignOf(s) == s[31] as int / 0x80
  {
    Pow31();
    PartSplitBy(s, 0, 31, 1, TWO255 / 0x80);
    Part1(s, 31);
    PartBound(s, 0, 31);
    TopBit(Part(s, 0, 31), s[31] as int);
  }

  lemma TopBit(low: int, top: int)
    requires 0 <= low < TWO255 / 0x80 && 0 <= top < 0x100
    ensures (low + (TWO255 / 0x80) * top) / TWO255 == top / 0x80
  {
    TopBits(low, top, TWO255 / 0x80);
  }

  lemma TopBits(low: int, top: int, m: int)
    requires 0 <= low < m && 0 <= top < 0x100
    ensures (low + m * top) / (0x80 * m) == top / 0x80
  {
    var q, r := top / 0x80, top % 0x80;
    assert m * top == (0x80 * m) * q + m * r;
    Monotone(m, 0, r);
    Monotone(m, r, 0x7f);
    Quotient(low + m * top, 0x80 * m, q, low + m * r);
  }

  lemma Pow31()
    ensures Pow256(31) == TWO255 / 0x80
  {
    Weights();
    Pow256Sum(21, 7);
    Pow256Sum(28, 3);
  }

  method Multiply(f: seq<int32>, g: seq<int32>) returns (r: seq<int32>)
    requires Loose(f) && Loose(g)
    ensures Tight(r) && Loose(r) && Congruent(Fe(r), Times(Fe(f), Fe(g)))
  {
    r := MulTraced(f, g, Fe(f), Fe(g));
  }

  /** X / Z as a residue; AffineIsQuotient says why. */
  ghost function Affine(X: seq<int32>, Z: seq<int32>): int {
    Times(Fe(X), Pow(Fe(Z), P - 2)) % P
  }

  class ExtendedGroupElement {
    var X: seq<int32>
    var Y: seq<int32>
    var Z: seq<int32>
    var T: seq<int32>

    /** A finite point in extended form, within the bounds every operation accepts. */
    ghost predicate Valid()
      reads this
    {
      Loose(X) && Loose(Y) && Loose(Z) && Loose(T)
    }

    /** Succeeds, when P is prime, exactly on the keys that have a decoding; then this is that point. */
    method FromBytes(s: array<byte>) returns (ok: bool)
      requires s.Length == 32
      modifies this
      ensures ok ==> Valid() && Fe(Z) == 1 && Congruent(Fe(T), Times(Fe(X), Fe(Y)))
      ensures ok ==> Fe(Y) % P == YOf(s[..]) && Decodes(s[..], Fe(X) % P)
      ensures !ok && PIsPrime() ==> forall x :: !Decodes(s[..], x)
    {
      ok, X, Y, Z, T := DecodePoint(s[..]);
    }

    method ToBytes(s: array<byte>)
      requires s.Length == 32 && Valid()
      modifies s
      ensures YOf(s[..]) == Affine(Y, Z) && SignOf(s[..]) == Affine(X, Z) % 2
    {
      var k := EncodePoint(X, Y, Z);
      forall i | 0 <= i < 32 {
        s[i] := k[i];
      }
      assert s[..] == k;
    }
  }

  /** FromBytes on values. */
  method DecodePoint(s: seq<byte>) returns (ok: bool, X: seq<int32>, Y: seq<int32>, Z: seq<int32>, T: seq<int32>)
    requires |s| == 32
    ensures ok ==> Loose(X) && Loose(Y) && Loose(Z) && Loose(T)
    ensures ok ==> Fe(Z) == 1 && Congruent(Fe(T), Times(Fe(X), Fe(Y)))
    ensures ok ==> Fe(Y) % P == YOf(s) && Decodes(s, Fe(X) % P)
    ensures !ok && PIsPrime() ==> forall x :: !Decodes(s, x)
  {
    X, Y, Z, T := [], [], [], [];
    var big := NotCanonical(s);
    if big {
      NoneBeyondP(s);
      return false, X, Y, Z, T;
    }
    Y := Decode(s);
    TightIsLoose(Y);
    Z := LoadOne();
    ok, X := RecoverX(s, Y);
    SmallResidue(Fe(Y), YOf(s));
    if ok {
      T := Multiply(X, Y);
    }
  }

  lemma SmallResidue(v: int, y: int)
    requires Congruent(v, y) && 0 <= y < P
    ensures v % P == y
  {
  }

  /** The x coordinate of a canonical y and a sign bit. */
  method RecoverX(s: seq<byte>, Y: seq<int32>) returns (ok: bool, X: seq<int32>)
    requires |s| == 32 && YOf(s) < P && Loose(Y) && Congruent(Fe(Y), YOf(s))
    ensures ok ==> Loose(X) && Decodes(s, Fe(X) % P)
    ensures !ok && PIsPrime() ==> forall x :: !Decodes(s, x)
  {
    ghost var y := YOf(s);
    ok, X := RootOf(Y, y);
    if !ok {
      NoRoot(s);
      return;
    }
    SignBit(s);
    ghost var before := Fe(X);
    ok, X := SettleSign(X, s[31] / 0x80);
    if !ok {
      NoNegativeZero(s, before);
      return;
    }
    OnCurveCongruent(before, Fe(X), y);
    ReducedIsCongruent(Fe(X));
    OnCurveCongruent(Fe(X), Fe(X) % P, y);
  }

  /** Some x with v x^2 = u, unless neither check of the candidate passes. */
  method RootOf(Y: seq<int32>, ghost y: int) returns (ok: bool, X: seq<int32>)
    requires Loose(Y) && Congruent(Fe(Y), y)
    ensures ok ==> Loose(X) && OnCurve(Fe(X), y)
    ensures !ok ==> !CandidateWorks(Numerator(y), Denominator(y))
  {
    ghost var a, b := Numerator(y), Denominator(y);
    var u, v := CurveTerms(Y, y);
    X := CandidateRoot(u, v, a, b);
    ok, X := SettleRoot(X, u, v, Root(a, b), a, b);
    CurveFromRoot(Fe(X), y);
  }

  method EncodePoint(X: seq<int32>, Y: seq<int32>, Z: seq<int32>) returns (s: seq<byte>)
    requires Loose(X) && Loose(Y) && Loose(Z)
    ensures |s| == 32 && YOf(s) == Affine(Y, Z) && SignOf(s) == Affine(X, Z) % 2
  {
    var recip := FeInvert(Z);
    TightIsLoose(recip);
    var x := MulTraced(X, recip, Fe(X), Pow(Fe(Z), P - 2));
    var y := MulTraced(Y, recip, Fe(Y), Pow(Fe(Z), P - 2));
    LooseIsLoosest(x);
    LooseIsLoosest(y);
    var k, negative;
    k, y := Encode(y);
    negative, x := Parity(x);
    WithSign(k, negative);
    s := k[31 := k[31] + negative * 0x80];
  }

  /** The sign goes into the top bit, which the encoding of y leaves clear. */
  lemma WithSign(k: seq<byte>, sign: byte)
    requires |k| == 32 && k[31] < 0x80 && sign < 2
    ensures YOf(k[31 := k[31] + sign * 0x80]) == LE(k) && SignOf(k[31 := k[31] + sign * 0x80]) == sign as int
  {
    var s := k[31 := k[31] + sign * 0x80];
    Pow31();
    PartSplitBy(k, 0, 31, 1, TWO255 / 0x80);
    PartSplitBy(s, 0, 31, 1, TWO255 / 0x80);
    Part1(k, 31);
    Part1(s, 31);
    ScalarKeys.PartShift(k, s, 0, 0, 31);
    PartBound(k, 0, 31);
    Quotient(LE(s), TWO255, sign as int, LE(k));
  }

  lemma KeyFromParts(s: seq<byte>, t: seq<byte>)
    requires |s| == 32 && |t| == 32 && YOf(s) == YOf(t) && SignOf(s) == SignOf(t)
    ensures s == t
  {
    LEInjective(s, t);
  }

  lemma UnitDenominator(v: int)
    ensures Times(v, Pow(1, P - 2)) % P == v % P
  {
    PowOfOne(P - 2);
    TimesIsProduct(v, 1);
  }

  /** Encoding undoes decoding: the same 32 bytes come back. */
  lemma SameKey(s: seq<byte>, t: seq<byte>, X: seq<int32>, Y: seq<int32>, Z: seq<int32>)
    requires |s| == 32 && |t| == 32 && Fe(Z) == 1
    requires Fe(Y) % P == YOf(s) && Decodes(s, Fe(X) % P)
    requires YOf(t) == Affine(Y, Z) && SignOf(t) == Affine(X, Z) % 2
    ensures t == s
  {
    UnitDenominator(Fe(X));
    UnitDenominator(Fe(Y));
    KeyFromParts(s, t);
  }

  method DecodeEncodePoint(s: array<byte>, t: array<byte>) returns (ok: bool)
    requires s.Length == 32 && t.Length == 32
    modifies t
    ensures ok ==> t[..] == old(s[..])
  {
    ghost var key := s[..];
    var p := new ExtendedGroupElement;
    ok := p.FromBytes(s);
    if ok {
      p.ToBytes(t);
      SameKey(key, t[..], p.X, p.Y, p.Z);
    }
  }

  /** Affine(X, Z) is the quotient: times Z it is X again. */
  lemma AffineIsQuotient(X: seq<int32>, Z: seq<int32>)
    requires PIsPrime() && Fe(Z) % P != 0
    ensures Congruent(Affine(X, Z) * Fe(Z), Fe(X))
  {
    var x, z := Fe(X), Fe(Z);
    var i := Pow(z, P - 2);
    var n := P - 1;
    assert Pow(z, n) == z * i;
    Fermat(z, n);
    TimesIsProduct(x, i);
    ReducedIsCongruent(x * i);
    CongruentProduct(Affine(X, Z), x * i, z, z);
    Regroup(x, i, z);
    CongruentProduct(x, x, z * i, 1);
  }

  lemma Regroup(x: int, i: int, z: int)
    ensures (x * i) * z == x * (z * i)
  {
  }

  /** Decoding undoes encoding: a point of the curve comes back with the same affine coordinates. */
  lemma SamePoint(s: seq<byte>, ok: bool, X: seq<int32>, Y: seq<int32>, x: int, y: int)
    requires YOf(s) == y && SignOf(s) == x % 2 && 0 <= x < P && 0 <= y < P
    requires ok ==> Fe(Y) % P == y && Decodes(s, Fe(X) % P)
    requires !ok && PIsPrime() ==> forall x' :: !Decodes(s, x')
    ensures PIsPrime() && OnCurve(x, y) ==> ok && Fe(X) % P == x && Fe(Y) % P == y
  {
    if PIsPrime() && OnCurve(x, y) {
      assert Decodes(s, x);
      if ok {
        DecodesUnique(s, Fe(X) % P, x);
      }
    }
  }

  method EncodeDecodePoint(p: ExtendedGroupElement, s: array<byte>) returns (ok: bool, r: ExtendedGroupElement)
    requires s.Length == 32 && p.Valid()
    modifies s
    ensures PIsPrime() && OnCurve(Affine(p.X, p.Z), Affine(p.Y, p.Z)) ==>
      ok && Fe(r.Z) == 1 && Fe(r.X) % P == Affine(p.X, p.Z) && Fe(r.Y) % P == Affine(p.Y, p.Z)
  {
    p.ToBytes(s);
    r := new ExtendedGroupElement;
    ok := r.FromBytes(s);
    SamePoint(s[..], ok, r.X, r.Y, Affine(p.X, p.Z), Affine(p.Y, p.Z));
  }
}
