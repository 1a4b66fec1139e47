/** Signed radix-16 digits of a key: SignedRadix16 of crypto/curve25519/key.go and the same recoding, written with a
    running carry, inside GeScalarMult and GeScalarMultBase. */
module Radix16 {
  import opened Bytes
  import opened MachineInts

  /** The number digits i and up stand for, counted from digit i. */
  ghost function Val16(e: seq<int8>, i: nat): int
    decreases |e| - i
  {
    if i >= |e| then 0 else e[i] as int + 16 * Val16(e, i + 1)
  }

  ghost predicate SignedDigits(e: seq<int8>) {
    |e| == 64 && (forall k :: 0 <= k < 63 ==> -8 <= e[k] < 8) && -8 <= e[63] <= 8
  }

  lemma {:induction false} SameAbove16(e: seq<int8>, e': seq<int8>, i: nat)
    requires |e| == |e'| && forall k :: i <= k < |e| ==> e[k] == e'[k]
    ensures Val16(e, i) == Val16(e', i)
    decreases |e| - i
  {
    if i < |e| {
      SameAbove16(e, e', i + 1);
    }
  }

  /** A change from i up that leaves the number at i alone leaves the whole number alone. */
  lemma {:induction false} SameFrom(e: seq<int8>, e': seq<int8>, i: nat, m: nat)
    requires |e| == |e'| && i <= m <= |e| && forall k :: i <= k < m ==> e[k] == e'[k]
    requires Val16(e, m) == Val16(e', m)
    ensures Val16(e, i) == Val16(e', i)
    decreases m - i
  {
    if i < m {
      SameFrom(e, e', i + 1, m);
    }
  }

  lemma {:induction false} NibblesSpellKey(e: seq<int8>, a: seq<byte>, j: nat)
    requires |e| == 2 * |a| && j <= |a|
    requires forall i :: 0 <= i < |a| ==> e[2 * i] as int == a[i] as int % 16 && e[2 * i + 1] as int == a[i] as int / 16
    ensures Val16(e, 2 * j) == Part(a, j, |a| - j)
    decreases |a| - j
  {
    if j < |a| {
      NibblesSpellKey(e, a, j + 1);
      assert Val16(e, 2 * j) == e[2 * j] as int + 16 * (e[2 * j + 1] as int + 16 * Val16(e, 2 * j + 2));
    }
  }

  /** The low and the high half of every byte. */
  method Nibbles(e: array<int8>, a: seq<byte>)
    requires e.Length == 64 && |a| == 32
    modifies e
    ensures Val16(e[..], 0) == LE(a)
    ensures forall k :: 0 <= k < 64 ==> 0 <= e[k] <= 15
    ensures a[31] <= 127 ==> e[63] <= 7
  {
    for i := 0 to 32
      invariant forall k :: 0 <= k < i ==> e[2 * k] as int == a[k] as int % 16
      invariant forall k :: 0 <= k < i ==> e[2 * k + 1] as int == a[k] as int / 16
      invariant forall k :: 0 <= k < 2 * i ==> 0 <= e[k] <= 15
    {
      e[2 * i] := (a[i] % 16) as int8;
      e[2 * i + 1] := (a[i] / 16 % 16) as int8;
    }
    NibblesSpellKey(e[..], a, 0);
    assert e[2 * 31 + 1] as int == a[31] as int / 16;
  }

  /** One step of recentering: digit i drops by 16 c and digit i + 1 grows by c. */
  lemma Recentered(e: seq<int8>, e': seq<int8>, i: nat, c: int8)
    requires |e| == |e'| && i + 1 < |e|
    requires forall k :: 0 <= k < |e| && k != i && k != i + 1 ==> e[k] == e'[k]
    requires e'[i] as int == e[i] as int - 16 * c as int && e'[i + 1] as int == e[i + 1] as int + c as int
    ensures Val16(e, 0) == Val16(e', 0)
  {
    SameAbove16(e, e', i + 2);
    assert Val16(e, i) == e[i] as int + 16 * (e[i + 1] as int + 16 * Val16(e, i + 2));
    assert Val16(e', i) == e'[i] as int + 16 * (e'[i + 1] as int + 16 * Val16(e', i + 2));
    SameFrom(e, e', 0, i);
  }

  /** SignedRadix16; the source panics when the top bit of the key is set. */
  method SignedRadix16(a: seq<byte>) returns (digits: seq<int8>)
    requires |a| == 32 && a[31] <= 127
    ensures SignedDigits(digits) && Val16(digits, 0) == LE(a)
  {
    var d := new int8[64];
    Nibbles(d, a);
    for i := 0 to 63
      invariant Val16(d[..], 0) == LE(a)
      invariant forall k :: 0 <= k < i ==> -8 <= d[k] < 8
      invariant 0 <= d[i] <= 16 && forall k :: i < k < 64 ==> 0 <= d[k] <= 15
      invariant d[63] <= if i == 63 then 8 else 7
    {
      ghost var before := d[..];
      var carry := (d[i] + 8) / 16;
      d[i] := d[i] - carry * 16;
      d[i + 1] := d[i + 1] + carry;
      Recentered(before, d[..], i, carry);
    }
    digits := d[..];
  }

  /** The recoding inside GeScalarMult and GeScalarMultBase. */
  method CarriedDigits(a: seq<byte>) returns (digits: seq<int8>)
    requires |a| == 32 && a[31] <= 127
    ensures SignedDigits(digits) && Val16(digits, 0) == LE(a)
  {
    var e := new int8[64];
    Nibbles(e, a);
    var carry: int8 := 0;
    ghost var virtual := e[..];
    for i := 0 to 63
      invariant 0 <= carry <= 1
      invariant forall k :: 0 <= k < i ==> -8 <= e[k] < 8
      invariant forall k :: i <= k < 64 ==> 0 <= e[k] <= 15
      invariant e[63] <= 7
      invariant |virtual| == 64 && virtual == e[..][i := e[i] + carry] && Val16(virtual, 0) == LE(a)
    {
      ghost var before := virtual;
      e[i] := e[i] + carry;
      carry := (e[i] + 8) / 16;
      e[i] := e[i] - carry * 16;
      virtual := e[..][i + 1 := e[i + 1] + carry];
      Recentered(before, virtual, i, carry);
    }
    e[63] := e[63] + carry;
    assert e[..] == virtual;
    digits := e[..];
  }
}
