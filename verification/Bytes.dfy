/** Byte strings read as little-endian numbers, and the two integer facts about them used everywhere:
    splitting at any position and uniqueness of the encoding. */
module Bytes {

  newtype byte = x: int | 0 <= x < 0x100

  function Pow256(n: nat): (p: int)
    ensures p >= 1
  {
    if n == 0 then 1 else 256 * Pow256(n - 1)
  }

  /** The number written, least significant byte first, in the `n` bytes starting at `lo`. */
  function Part(b: seq<byte>, lo: nat, n: nat): (v: int)
    requires lo + n <= |b|
    decreases n, b  // naming b keeps the solver from unfolding every call whose n is a literal
  {
    if n == 0 then 0 else b[lo] as int + 256 * Part(b, lo + 1, n - 1)
  }

  function LE(b: seq<byte>): (v: int) {
    Part(b, 0, |b|)
  }

  lemma {:induction false} PartBound(b: seq<byte>, lo: nat, n: nat)
    requires lo + n <= |b|
    ensures 0 <= Part(b, lo, n) < Pow256(n)
    decreases n
  {
    if n != 0 {
      PartBound(b, lo + 1, n - 1);
    }
  }

  lemma ScaledTail(d: int, x: int, p: int, t: int)
    ensures d + 256 * (x + p * t) == (d + 256 * x) + (256 * p) * t
  {
  }

  lemma {:induction false} PartSplit(b: seq<byte>, lo: nat, n: nat, m: nat)
    requires lo + n + m <= |b|
    ensures Part(b, lo, n + m) == Part(b, lo, n) + Pow256(n) * Part(b, lo + n, m)
    decreases n
  {
    if n != 0 {
      PartSplit(b, lo + 1, n - 1, m);
      ScaledTail(b[lo] as int, Part(b, lo + 1, n - 1), Pow256(n - 1), Part(b, lo + n, m));
    }
  }

  lemma {:induction false} PartInjective(b: seq<byte>, c: seq<byte>, lo: nat, n: nat)
    requires lo + n <= |b| && lo + n <= |c|
    requires Part(b, lo, n) == Part(c, lo, n)
    ensures b[lo..lo + n] == c[lo..lo + n]
    decreases n
  {
    if n != 0 {
      PartBound(b, lo + 1, n - 1);
      PartBound(c, lo + 1, n - 1);
      assert b[lo] == c[lo];
      PartInjective(b, c, lo + 1, n - 1);
      assert b[lo..lo + n] == [b[lo]] + b[lo + 1..lo + n];
      assert c[lo..lo + n] == [c[lo]] + c[lo + 1..lo + n];
    }
  }

  /** Two byte strings of one length that spell the same number are the same string. */
  lemma LEInjective(b: seq<byte>, c: seq<byte>)
    requires |b| == |c|
    requires LE(b) == LE(c)
    ensures b == c
  {
    PartInjective(b, c, 0, |b|);
    assert b == b[0..|b|] && c == c[0..|c|];
  }

  lemma Part3(b: seq<byte>, lo: nat)
    requires lo + 3 <= |b|
    ensures Part(b, lo, 3) == b[lo] as int + 0x100 * b[lo + 1] as int + 0x1_0000 * b[lo + 2] as int
  {
    assert Part(b, lo + 2, 1) == b[lo + 2] as int + 256 * Part(b, lo + 3, 0);
    assert Part(b, lo + 1, 2) == b[lo + 1] as int + 256 * Part(b, lo + 2, 1);
    assert Part(b, lo, 3) == b[lo] as int + 256 * Part(b, lo + 1, 2);
  }

  /** Seven bytes, the unit in which the longer layouts below are unfolded. */
  lemma Part7(b: seq<byte>, lo: nat)
    requires lo + 7 <= |b|
    ensures Part(b, lo, 7) == b[lo] as int + 0x100 * b[lo + 1] as int + 0x1_0000 * b[lo + 2] as int
                            + 0x100_0000 * b[lo + 3] as int + 0x1_0000_0000 * b[lo + 4] as int
                            + 0x100_0000_0000 * b[lo + 5] as int + 0x1_0000_0000_0000 * b[lo + 6] as int
  {
    Part3(b, lo);
    Part3(b, lo + 3);
    PartSplit(b, lo, 3, 4);
    PartSplit(b, lo + 3, 3, 1);
    assert Part(b, lo + 6, 1) == b[lo + 6] as int + 256 * Part(b, lo + 7, 0);
    assert Pow256(3) == 256 * Pow256(2) && Pow256(2) == 256 * Pow256(1);
  }

  lemma Part1(b: seq<byte>, lo: nat)
    requires lo + 1 <= |b|
    ensures Part(b, lo, 1) == b[lo] as int
  {
    assert Part(b, lo, 1) == b[lo] as int + 256 * Part(b, lo + 1, 0);
  }

  lemma {:induction false} Pow256Sum(n: nat, m: nat)
    ensures Pow256(n + m) == Pow256(n) * Pow256(m)
  {
    if n != 0 {
      Pow256Sum(n - 1, m);
      assert 256 * (Pow256(n - 1) * Pow256(m)) == (256 * Pow256(n - 1)) * Pow256(m);
    }
  }

  /** PartSplit with the weight of the upper part written out as the number `p`. */
  lemma PartSplitBy(b: seq<byte>, lo: nat, n: nat, m: nat, p: int)
    requires lo + n + m <= |b| && p == Pow256(n)
    ensures Part(b, lo, n + m) == Part(b, lo, n) + p * Part(b, lo + n, m)
  {
    PartSplit(b, lo, n, m);
  }
}
