/** Signed digit expansions of scalars: `slide` of crypto/curve25519/edwards_25519_group.go, SignedRadix16 of
    crypto/curve25519/key.go and the recoding inside GeScalarMult and GeScalarMultBase. */
module Recoding {
  import opened Arith
  import opened Bytes
  import opened MachineInts

  // ---- Binary digits ----

  /** The number digits i and up stand for, counted from digit i. */
  ghost function Val2(r: seq<int8>, i: nat): int
    decreases |r| - i
  {
    if i >= |r| then 0 else r[i] as int + 2 * Val2(r, i + 1)
  }

  ghost predicate Bits(r: seq<int8>, i: nat) {
    forall k :: i <= k < |r| ==> r[k] == 0 || r[k] == 1
  }

  /** What slide promises of a digit. */
  ghost predicate WindowDigit(d: int8) {
    d == 0 || (d % 2 == 1 && -15 <= d <= 15)
  }

  /** What is lost, counted from digit i, when a carry runs off the end of n digits. */
  ghost function Lost(n: nat, i: nat, lost: bool): (l: int)
    requires i <= n
  {
    if lost then Pow2(n - i) else 0
  }

  /** Lists that agree below i and lose the same from i up lose the same altogether. */
  lemma {:induction false} ChangeAbove(r: seq<int8>, r': seq<int8>, i: nat, m: nat, lost: bool)
    requires |r| == |r'| && m <= i <= |r|
    requires forall k :: m <= k < i ==> r[k] == r'[k]
    requires Val2(r', i) == Val2(r, i) - Lost(|r|, i, lost)
    ensures Val2(r', m) == Val2(r, m) - Lost(|r|, m, lost)
    decreases i - m
  {
    if m < i {
      ChangeAbove(r, r', i, m + 1, lost);
    }
  }

  lemma {:induction false} SameAbove(r: seq<int8>, r': seq<int8>, i: nat)
    requires |r| == |r'|
    requires forall k :: i <= k < |r| ==> r[k] == r'[k]
    ensures Val2(r, i) == Val2(r', i)
    decreases |r| - i
  {
    if i < |r| {
      SameAbove(r, r', i + 1);
    }
  }

  lemma {:induction false} ZerosBetween(r: seq<int8>, i: nat, m: nat)
    requires i <= m <= |r| && forall k :: i <= k < m ==> r[k] == 0
    ensures Val2(r, i) == Pow2(m - i) * Val2(r, m)
    decreases m - i
  {
    if i < m {
      ZerosBetween(r, i + 1, m);
      assert 2 * (Pow2(m - i - 1) * Val2(r, m)) == (2 * Pow2(m - i - 1)) * Val2(r, m);
    }
  }

  // ---- Carries that run off the end ----

  /** Whether a carry c into position i of the bits runs off their end: it passes bits equal to it; any other bit
      opens a window of five, whose top bit is the carry out of it, and a window cut short has none. */
  predicate RunsOff(s: seq<int8>, i: nat, c: bool)
    decreases |s| - i
  {
    if i >= |s| then c
    else if (s[i] == 1) == c then RunsOff(s, i + 1, c)
    else i + 5 <= |s| && RunsOff(s, i + 5, s[i + 4] == 1)
  }

  lemma {:induction false} RunsOffSame(s: seq<int8>, s': seq<int8>, i: nat, c: bool)
    requires |s| == |s'| && forall k :: i <= k < |s| ==> s[k] == s'[k]
    ensures RunsOff(s, i, c) == RunsOff(s', i, c)
    decreases |s| - i
  {
    if i < |s| {
      if (s[i] == 1) == c {
        RunsOffSame(s, s', i + 1, c);
      } else if i + 5 <= |s| {
        RunsOffSame(s, s', i + 5, s[i + 4] == 1);
      }
    }
  }

  /** s' is s with one added from p up: ones turn to zeros up to k, where a zero turns to one. */
  ghost predicate Carried(s: seq<int8>, s': seq<int8>, p: nat, k: nat) {
    && |s| == |s'| && p <= k <= |s|
    && (forall j :: p <= j < k ==> s[j] == 1 && s'[j] == 0)
    && (k < |s| ==> s[k] == 0 && s'[k] == 1)
    && (forall j :: k < j < |s| ==> s'[j] == s[j])
  }

  /** Adding the carry now or passing it on makes no difference to what runs off. */
  lemma {:induction false} RunsOffCarried(s: seq<int8>, s': seq<int8>, p: nat, k: nat)
    requires Carried(s, s', p, k)
    ensures RunsOff(s, p, true) <==> k == |s| || RunsOff(s', p, false)
    ensures k == |s| ==> !RunsOff(s', p, false)
    decreases k - p
  {
    if p < k {
      RunsOffCarried(s, s', p + 1, k);
    } else if p + 5 <= |s| {
      RunsOffSame(s, s', p + 5, s[p + 4] == 1);
    }
  }

  lemma {:induction false} RunsOffZeros(s: seq<int8>, i: nat, m: nat)
    requires i <= m <= |s| && forall k :: i <= k < m ==> s[k] == 0
    ensures RunsOff(s, i, false) == RunsOff(s, m, false)
    decreases m - i
  {
    if i < m {
      RunsOffZeros(s, i + 1, m);
    }
  }

  /** No carry runs off past a zero at the top. */
  lemma {:induction false} TopZero(s: seq<int8>, i: nat, c: bool)
    requires i <= |s| && |s| >= 1 && s[|s| - 1] == 0 && (i == |s| ==> !c)
    ensures !RunsOff(s, i, c)
    decreases |s| - i
  {
    if i < |s| {
      if (s[i] == 1) == c {
        TopZero(s, i + 1, c);
      } else if i + 5 <= |s| {
        TopZero(s, i + 5, s[i + 4] == 1);
      }
    }
  }

  /** A number with its top bit set is at least that bit, and equal to it only without other bits. */
  lemma {:induction false} TopBitAlone(s: seq<int8>, i: nat)
    requires i < |s| && Bits(s, i) && s[|s| - 1] == 1
    ensures Val2(s, i) >= Pow2(|s| - 1 - i)
    ensures Val2(s, i) == Pow2(|s| - 1 - i) ==> forall k :: i <= k < |s| - 1 ==> s[k] == 0
    decreases |s| - i
  {
    if i < |s| - 1 {
      TopBitAlone(s, i + 1);
    } else {
      assert Val2(s, i + 1) == 0;
    }
  }

  /** Bits of a number up to half the range lose no carry. */
  lemma NothingRunsOff(s: seq<int8>)
    requires |s| >= 2 && Bits(s, 0) && Val2(s, 0) <= Pow2(|s| - 1)
    ensures !RunsOff(s, 0, false)
  {
    if s[|s| - 1] == 0 {
      TopZero(s, 0, false);
    } else {
      TopBitAlone(s, 0);
      RunsOffZeros(s, 0, |s| - 1);
    }
  }

  // ---- The carry of slide ----

  lemma CarryStep(p: int, v: int, k: int)
    ensures p * (2 * k + 1 + 1) == (2 * p) * (k + 1)
  {
  }

  /** Adds one to the bits from p up. When there is no zero to turn to one, the carry is lost. */
  method CarryUp(r: array<int8>, p: nat) returns (ghost k: nat)
    requires p < r.Length && Bits(r[..], p) && r[p] == 1
    modifies r
    ensures Carried(old(r[..]), r[..], p, k) && k > p
    ensures Bits(r[..], p) && Val2(r[..], p) == old(Val2(r[..], p)) + 1 - Lost(r.Length, p, k == r.Length)
    ensures forall k :: 0 <= k < p ==> r[k] == old(r[k])
  {
    ghost var s := r[..];
    var i := p;
    while i < r.Length
      invariant p <= i <= r.Length && (i == p ==> r[p] == 1)
      invariant forall j :: p <= j < i ==> s[j] == 1 && r[j] == 0
      invariant forall j :: 0 <= j < p || i <= j < r.Length ==> r[j] == s[j]
      invariant Val2(s, p) + 1 == Pow2(i - p) * (Val2(s, i) + 1)
    {
      if r[i] == 0 {
        r[i] := 1;
        SameAbove(s, r[..], i + 1);
        ZerosBetween(r[..], p, i);
        return i;
      }
      CarryStep(Pow2(i - p), Val2(s, p), Val2(s, i + 1));
      r[i] := 0;
      i := i + 1;
    }
    ZerosBetween(r[..], p, i);
    k := i;
  }

  // ---- One window of slide ----

  lemma WindowValue(r: seq<int8>, i: nat, b: nat)
    requires 1 <= b && i + b <= |r| && forall k :: i < k < i + b ==> r[k] == 0
    ensures Val2(r, i) == r[i] as int + Pow2(b) * Val2(r, i + b)
  {
    ZerosBetween(r, i + 1, i + b);
    assert 2 * (Pow2(b - 1) * Val2(r, i + b)) == (2 * Pow2(b - 1)) * Val2(r, i + b);
  }

  lemma SmallPowers(b: nat)
    requires 1 <= b <= 6
    ensures Pow2(b) == if b == 1 then 2 else if b == 2 then 4 else if b == 3 then 8 else if b == 4 then 16
                       else if b == 5 then 32 else 64
  {
  }

  /** x << b for a bit x. */
  method Shifted(x: int8, b: nat) returns (y: int8)
    requires x == 1 && 1 <= b <= 6
    ensures y as int == Pow2(b)
    ensures y == if b == 1 then 2 else if b == 2 then 4 else if b == 3 then 8 else if b == 4 then 16
                 else if b == 5 then 32 else 64
  {
    SmallPowers(b);
    y := x * Pow2(b) as int8;
  }

  /** A nonzero digit at i, zeros up to i + b, bits above. */
  ghost predicate Window(r: seq<int8>, i: nat, b: nat) {
    && i < |r| && WindowDigit(r[i]) && r[i] != 0
    && (forall k :: i < k < i + b && k < |r| ==> r[k] == 0)
    && Bits(r, i + 1)
  }

  /** The bit at i + b moves into the digit. */
  method MergeBit(r: array<int8>, i: nat, b: nat, y: int8)
    requires 1 <= b <= 6 && i + b < r.Length && Window(r[..], i, b) && r[i + b] == 1
    requires y as int == Pow2(b) && y % 2 == 0 && 0 < y <= 64 && r[i] + y <= 15
    modifies r
    ensures Window(r[..], i, b + 1) && Val2(r[..], i) == old(Val2(r[..], i))
    ensures r[..] == old(r[..][i := r[i] + y][i + b := 0])
  {
    ghost var before := r[..];
    r[i] := r[i] + y;
    r[i + b] := 0;
    Merged(before, r[..], i, b, y);
  }

  lemma Merged(s: seq<int8>, s': seq<int8>, i: nat, b: nat, y: int8)
    requires 1 <= b && i + b < |s| && Window(s, i, b) && s[i + b] == 1
    requires y as int == Pow2(b) && y % 2 == 0 && 0 < y <= 64 && s[i] + y <= 15
    requires s' == s[i := s[i] + y][i + b := 0]
    ensures Window(s', i, b + 1) && Val2(s', i) == Val2(s, i)
  {
    WindowValue(s, i, b);
    WindowValue(s', i, b);
    SameAbove(s, s', i + b + 1);
    MergedValue(Pow2(b), Val2(s, i + b));
  }

  lemma MergedValue(p: int, w: int)
    ensures p * w == p + p * (w - 1)
  {
  }

  lemma Pow2Split(n: nat, m: nat)
    requires m <= n
    ensures Pow2(n) == Pow2(m) * Pow2(n - m)
  {
    Pow2Sum(m, n - m);
    assert m + (n - m) == n;
  }

  /** Taking 2^b off the digit is made good by adding one to the bits from i + b up, unless that carry is lost. */
  lemma Borrowed(s: seq<int8>, s': seq<int8>, i: nat, b: nat, y: int8, lost: bool)
    requires 1 <= b && i + b < |s| == |s'| && Window(s, i, b)
    requires y as int == Pow2(b) && y % 2 == 0 && 0 < y <= 16 && s[i] - y >= -15
    requires s'[i] == s[i] - y && (forall k :: i < k < i + b ==> s'[k] == s[k]) && Bits(s', i + b) && s'[i + b] == 0
    requires Val2(s', i + b) == Val2(s, i + b) + 1 - Lost(|s|, i + b, lost)
    ensures Window(s', i, b + 1) && Val2(s', i) == Val2(s, i) - Lost(|s|, i, lost)
  {
    WindowValue(s, i, b);
    WindowValue(s', i, b);
    Pow2Split(|s| - i, b);
    BorrowedValue(Pow2(b), Val2(s, i + b), Lost(|s|, i + b, lost));
  }

  lemma BorrowedValue(p: int, w: int, l: int)
    ensures p * (w + 1 - l) == p * w + p - p * l
  {
  }

  /** The digit drops by 2^b and the bits from i + b up grow by one. */
  method BorrowBit(r: array<int8>, i: nat, b: nat, y: int8) returns (ghost k: nat)
    requires 1 <= b <= 4 && i + b < r.Length && Window(r[..], i, b) && r[i + b] == 1
    requires y as int == Pow2(b) && y % 2 == 0 && 0 < y <= 16 && r[i] + y > 15 && r[i] - y >= -15
    modifies r
    ensures Window(r[..], i, b + 1) && Val2(r[..], i) == old(Val2(r[..], i)) - Lost(r.Length, i, k == r.Length)
    ensures Carried(old(r[..]), r[..], i + b, k) && k > i + b
    ensures forall k :: 0 <= k < i ==> r[k] == old(r[k])
  {
    ghost var before := r[..];
    r[i] := r[i] - y;
    SameAbove(before, r[..], i + b);
    k := CarryUp(r, i + b);
    Borrowed(before, r[..], i, b, y, k == r.Length);
  }

  /** What the window at i of the bits s does to the carries: the one it sends out runs off now, or goes with the rest
      of the bits. */
  ghost predicate PassedOn(s: seq<int8>, r: seq<int8>, i: nat, lost: bool)
    requires i + 5 <= |s|
  {
    && (RunsOff(s, i + 5, s[i + 4] == 1) <==> lost || RunsOff(r, i + 5, false))
    && !(lost && RunsOff(r, i + 5, false))
  }

  /** Up to bit 4 a window only gathers bits. */
  ghost predicate Gathering(s: seq<int8>, r: seq<int8>, i: nat, b: nat) {
    && |r| == |s| && i < |r| && 1 <= r[i] <= (if b == 1 then 1 else if b == 2 then 3 else if b == 3 then 7 else 15)
    && forall j :: i + b <= j < |r| ==> r[j] == s[j]
  }

  /** The state of the inner loop before bit b. */
  ghost predicate InWindow(s: seq<int8>, r: seq<int8>, i: nat, b: nat, lost: bool) {
    && |r| == |s| && i < |r| && Window(r, i, b) && Val2(r, i) == Val2(s, i) - Lost(|s|, i, lost)
    && (forall k :: 0 <= k < i ==> r[k] == s[k])
    && if b <= 4 then !lost && Gathering(s, r, i, b) else i + 5 <= |s| && PassedOn(s, r, i, lost)
  }

  lemma ZeroSkipped(s: seq<int8>, r: seq<int8>, i: nat, b: nat, lost: bool)
    requires 1 <= b && InWindow(s, r, i, b, lost) && i + b < |r| && r[i + b] == 0
    ensures InWindow(s, r, i, b + 1, lost)
  {
    if b == 4 {
      RunsOffSame(s, r, i + 5, false);
    }
  }

  lemma BitMerged(s: seq<int8>, r: seq<int8>, r': seq<int8>, i: nat, b: nat, y: int8)
    requires 1 <= b <= 3 && InWindow(s, r, i, b, false) && i + b < |r| && y as int == Pow2(b)
    requires y == (if b == 1 then 2 else if b == 2 then 4 else 8) && r[i] + y <= 15
    requires r' == r[i := r[i] + y][i + b := 0] && Window(r', i, b + 1) && Val2(r', i) == Val2(r, i)
    ensures InWindow(s, r', i, b + 1, false)
  {
  }

  lemma BitBorrowed(s: seq<int8>, r: seq<int8>, r': seq<int8>, i: nat, k: nat)
    requires InWindow(s, r, i, 4, false) && i + 4 < |r| && Carried(r, r', i + 4, k) && k > i + 4
    requires Window(r', i, 5) && Val2(r', i) == Val2(r, i) - Lost(|r|, i, k == |r|)
    requires forall j :: 0 <= j < i ==> r'[j] == r[j]
    ensures InWindow(s, r', i, 5, k == |r|)
  {
    RunsOffCarried(r, r', i + 5, k);
    RunsOffSame(s, r, i + 5, true);
  }

  /** The inner loop of slide at a position that holds a bit: it leaves a digit followed by four zeros. */
  method OneWindow(r: array<int8>, i: nat) returns (ghost lost: bool)
    requires i < r.Length && Bits(r[..], i) && r[i] == 1
    modifies r
    ensures Window(r[..], i, 5) && Val2(r[..], i) == old(Val2(r[..], i)) - Lost(r.Length, i, lost)
    ensures i + 5 <= r.Length ==> PassedOn(old(r[..]), r[..], i, lost)
    ensures i + 5 > r.Length ==> !lost
    ensures forall k :: 0 <= k < i ==> r[k] == old(r[k])
  {
    ghost var s := r[..];
    var b := 1;
    lost := false;
    while b <= 6 && i + b < r.Length
      invariant 1 <= b <= 7 && InWindow(s, r[..], i, b, lost)
    {
      ghost var before := r[..];
      if r[i + b] != 0 {
        var y := Shifted(r[i + b], b);
        if r[i] + y <= 15 {
          MergeBit(r, i, b, y);
          BitMerged(s, before, r[..], i, b, y);
        } else if r[i] - y >= -15 {
          ghost var k := BorrowBit(r, i, b, y);
          BitBorrowed(s, before, r[..], i, k);
          lost := k == r.Length;
        } else {
          break;
        }
      } else {
        ZeroSkipped(s, r[..], i, b, lost);
      }
      b := b + 1;
    }
  }

  // ---- slide ----

  /** Halfway through slide: digits below i, zeros up to h, and bits from h up. */
  ghost predicate Sliding(r: seq<int8>, i: nat, h: nat) {
    && i <= h <= |r|
    && (forall k :: 0 <= k < i ==> WindowDigit(r[k]))
    && (forall k :: i <= k < h ==> r[k] == 0)
    && Bits(r, h)
  }

  /** The loss so far and the loss to come make up the loss of the bits s. */
  ghost predicate Accounted(s: seq<int8>, r: seq<int8>, h: nat, lost: bool) {
    && |r| == |s|
    && (RunsOff(s, 0, false) <==> lost || RunsOff(r, h, false))
    && !(lost && RunsOff(r, h, false))
    && Val2(r, 0) == Val2(s, 0) - Lost(|s|, 0, lost)
  }

  /** A window at i ends at i + 5, or at the end of the list. */
  lemma PastWindow(s: seq<int8>, r: seq<int8>, r': seq<int8>, i: nat, lost: bool, more: bool) returns (h: nat)
    requires |r| == |r'| && Sliding(r, i, i) && Accounted(s, r, i, lost) && i < |r| && r[i] == 1
    requires Window(r', i, 5) && Val2(r', i) == Val2(r, i) - Lost(|r|, i, more)
    requires if i + 5 <= |r| then PassedOn(r, r', i, more) else !more
    requires forall k :: 0 <= k < i ==> r'[k] == r[k]
    ensures Sliding(r', i + 1, h) && Accounted(s, r', h, lost || more)
  {
    ChangeAbove(r, r', i, 0, more);
    h := if i + 5 <= |r| then i + 5 else |r|;
  }

  lemma PastZero(s: seq<int8>, r: seq<int8>, i: nat, h: nat, lost: bool) returns (h': nat)
    requires i < |r| && Sliding(r, i, h) && Accounted(s, r, h, lost) && r[i] == 0
    ensures Sliding(r, i + 1, h') && Accounted(s, r, h', lost)
  {
    h' := if i == h then h + 1 else h;
  }

  /** The main loop of slide: windows and zeros, with one carry at most lost at the end. */
  method Windows(r: array<int8>)
    requires Bits(r[..], 0)
    modifies r
    ensures Val2(r[..], 0) == old(Val2(r[..], 0)) - Lost(r.Length, 0, old(RunsOff(r[..], 0, false)))
    ensures forall i :: 0 <= i < r.Length ==> WindowDigit(r[i])
  {
    ghost var s, h, lost := r[..], 0, false;
    for i := 0 to r.Length
      invariant Sliding(r[..], i, h) && Accounted(s, r[..], h, lost)
    {
      ghost var before := r[..];
      if r[i] != 0 {
        ghost var more := OneWindow(r, i);
        h := PastWindow(s, before, r[..], i, lost, more);
        lost := lost || more;
      } else {
        h := PastZero(s, before, i, h, lost);
      }
    }
  }

  // ---- The bits of a key ----

  /** Bit i of a key. */
  function Bit(a: seq<byte>, i: nat): (b: int8)
    requires i < 8 * |a|
  {
    (a[i / 8] as int / Pow2(i % 8) % 2) as int8
  }

  lemma Halves(x: int, m: int)
    requires x >= 0 && m > 0
    ensures x / m / 2 == x / (2 * m)
  {
    var q := x / m / 2;
    var r := x - (2 * m) * q;
    assert x == m * (x / m) + x % m;
    assert x / m == 2 * q + x / m % 2;
    HalvedRemainder(x, m, q, x / m % 2, x % m);
    Quotient(x, 2 * m, q, r);
  }

  lemma HalvedRemainder(x: int, m: int, q: int, b: int, s: int)
    requires m > 0 && x == m * (2 * q + b) + s && 0 <= b < 2 && 0 <= s < m
    ensures 0 <= x - (2 * m) * q < 2 * m
  {
    assert m * (2 * q + b) == (2 * m) * q + m * b;
    assert b == 0 || b == 1;
  }

  /** Bits k and up of byte j, with the bits of the bytes above. */
  lemma {:induction false} ByteSpells(r: seq<int8>, a: seq<byte>, j: nat, k: nat)
    requires |r| == 8 * |a| && j < |a| && k <= 8
    requires forall i :: 0 <= i < |r| ==> r[i] == Bit(a, i)
    ensures Val2(r, 8 * j + k) == a[j] as int / Pow2(k) + Pow2(8 - k) * Val2(r, 8 * j + 8)
    decreases 8 - k
  {
    if k < 8 {
      ByteSpells(r, a, j, k + 1);
      BitAt(r, a, j, k);
      Halves(a[j] as int, Pow2(k));
      OneBitMore(a[j] as int / Pow2(k), Pow2(7 - k), Val2(r, 8 * j + 8));
    } else {
      SmallPowers(4);
      Pow2Split(8, 4);
    }
  }

  lemma OneBitMore(x: int, p: int, w: int)
    ensures x % 2 + 2 * (x / 2 + p * w) == x + (2 * p) * w
  {
  }

  lemma {:induction false} BitsSpellKey(r: seq<int8>, a: seq<byte>, j: nat)
    requires |r| == 8 * |a| && j <= |a|
    requires forall i :: 0 <= i < |r| ==> r[i] == Bit(a, i)
    ensures Val2(r, 8 * j) == Part(a, j, |a| - j)
    decreases |a| - j
  {
    if j < |a| {
      BitsSpellKey(r, a, j + 1);
      ByteSpells(r, a, j, 0);
    }
  }

  lemma BitAt(r: seq<int8>, a: seq<byte>, j: nat, k: nat)
    requires |r| == 8 * |a| && j < |a| && k < 8
    requires forall i :: 0 <= i < |r| ==> r[i] == Bit(a, i)
    ensures r[8 * j + k] as int == a[j] as int / Pow2(k) % 2
  {
    Quotient(8 * j + k, 8, j, k);
  }

  /** The bits of a key, the lowest first. */
  function KeyBits(a: seq<byte>): (s: seq<int8>)
    ensures |s| == 8 * |a| && forall i :: 0 <= i < |s| ==> s[i] == Bit(a, i)
  {
    seq(8 * |a|, i requires 0 <= i < 8 * |a| => Bit(a, i))
  }

  /** Whether slide loses a carry for this key: a scan of its bits that a caller can make beforehand. */
  predicate CarryLost(a: seq<byte>) {
    RunsOff(KeyBits(a), 0, false)
  }

  /** The number that the digits of slide spell. */
  ghost function SlideValue(a: seq<byte>): int {
    LE(a) - if CarryLost(a) then Pow2(8 * |a|) else 0
  }

  /** For scalars up to 2^255 no carry is lost. */
  lemma NoCarryLost(a: seq<byte>)
    requires |a| == 32 && LE(a) <= Pow2(255)
    ensures !CarryLost(a)
  {
    var n := |a|;
    BitsSpellKey(KeyBits(a), a, 0);
    assert 8 * n - 1 == 255;
    NothingRunsOff(KeyBits(a));
  }

  /** 2^255 + 2^251 loses its carry: the window from bit 251 to bit 255 sends one out. */
  lemma CarryLostAbove(a: seq<byte>)
    requires |a| == 32 && (forall k :: 0 <= k < 31 ==> a[k] == 0) && a[31] == 0x88
    ensures CarryLost(a) && SlideValue(a) == LE(a) - Pow2(8 * |a|)
  {
    var s := KeyBits(a);
    forall i | 0 <= i < 251
      ensures s[i] == 0
    {
      ZeroBit(a, i);
    }
    Quotient(251, 8, 31, 3);
    Quotient(255, 8, 31, 7);
    assert s[251] == 1 && s[255] == 1;
    RunsOffZeros(s, 0, 251);
  }

  lemma ZeroBit(a: seq<byte>, i: nat)
    requires |a| == 32 && (forall k :: 0 <= k < 31 ==> a[k] == 0) && a[31] == 0x88 && i < 251
    ensures Bit(a, i) == 0
  {
    if i < 248 {
      Quotient(0, Pow2(i % 8), 0, 0);
    }
  }

  /** For every scalar the digits are zero or odd within 15 of zero. They spell the scalar exactly when no carry is
      lost, and 2^256 less otherwise. */
  method Slide(r: array<int8>, a: seq<byte>)
    requires r.Length == 256 && |a| == 32
    modifies r
    ensures Val2(r[..], 0) == SlideValue(a)
    ensures Val2(r[..], 0) == LE(a) <==> !CarryLost(a)
    ensures forall i :: 0 <= i < 256 ==> WindowDigit(r[i])
  {
    for i := 0 to 256
      invariant forall k :: 0 <= k < i ==> r[k] == Bit(a, k)
    {
      r[i] := Bit(a, i);
    }
    assert r[..] == KeyBits(a);
    BitsSpellKey(r[..], a, 0);
    Windows(r);
  }
}
