/** Base58 (common/base58/alphabet.go and common/base58/base58util.go): long multiplication in place one way, words of
    32 bits the other. Both ends of a conversion have the same leading zeros and spell the same number; Digits shows
    that this determines one from the other. */
module Base58 {
  import opened Arith
  import opened Bytes
  import opened Digits
  import opened MachineInts
  import opened Residues

  datatype Result<T> = Ok(value: T) | Err(error: string)

  // ---- The alphabet ----

  /** The two tables invert each other. */
  ghost predicate Inverse(enc: seq<byte>, dec: seq<int8>) {
    && |enc| == 58 && |dec| == 128
    && (forall i :: 0 <= i < 58 ==> enc[i] < 128 && dec[enc[i] as int] as int == i)
    && (forall c :: 0 <= c < 128 ==> dec[c] == -1 || (0 <= dec[c] < 58 && enc[dec[c] as int] as int == c))
  }

  class Alphabet {
    var decode: array<int8>
    var encode: array<byte>

    ghost predicate Valid()
      reads this, decode, encode
    {
      Inverse(encode[..], decode[..])
    }

    /** NewAlphabet; the source panics on a string that is not 58 characters or not ASCII. */
    constructor (s: seq<byte>)
      requires |s| == 58 && forall i :: 0 <= i < 58 ==> s[i] < 128
      requires forall i, j :: 0 <= i < j < 58 ==> s[i] != s[j]
      ensures Valid() && fresh(decode) && fresh(encode) && encode[..] == s
    {
      var dec := new int8[128](_ => -1);
      var enc := new byte[58](i requires 0 <= i < 58 => s[i]);
      for i := 0 to 58
        invariant enc[..] == s
        invariant forall k :: 0 <= k < i ==> dec[s[k] as int] as int == k
        invariant forall c :: 0 <= c < 128 ==> dec[c] == -1 || (0 <= dec[c] as int < i && s[dec[c] as int] as int == c)
      {
        dec[enc[i] as int] := i as int8;
      }
      decode, encode := dec, enc;
    }
  }

  /** BTCAlphabet: the digits without 0, the capitals without I and O, the small letters without l. */
  const BTC_LETTERS: string := "123456789" + "ABCDEFGH" + "JKLMN" + "PQRSTUVWXYZ" + "abcdefghijk" + "mnopqrstuvwxyz"

  function BtcLetter(i: nat): byte
    requires i < 58
  {
    if i < 9 then (49 + i) as byte
    else if i < 17 then (65 + (i - 9)) as byte
    else if i < 22 then (74 + (i - 17)) as byte
    else if i < 33 then (80 + (i - 22)) as byte
    else if i < 44 then (97 + (i - 33)) as byte
    else (109 + (i - 44)) as byte
  }

  lemma BtcLetters(i: nat)
    requires i < 58
    ensures |BTC_LETTERS| == 58 && BTC_LETTERS[i] as int == BtcLetter(i) as int
  {
  }

  method BtcAlphabet() returns (a: Alphabet)
    ensures fresh(a) && a.Valid() && |BTC_LETTERS| == 58
    ensures forall i :: 0 <= i < 58 ==> a.encode[i] as int == BTC_LETTERS[i] as int
  {
    var letters := seq(58, i requires 0 <= i < 58 => BtcLetter(i));
    a := new Alphabet(letters);
    assert a.encode[..] == letters;
    forall i | 0 <= i < 58
      ensures a.encode[i] as int == BTC_LETTERS[i] as int
    {
      BtcLetters(i);
    }
    BtcLetters(0);
  }

  // ---- Encoding ----

  lemma PowTwo(b: nat)
    ensures Pow(b, 2) == b * b
  {
    assert Pow(b, 2) == b * Pow(b, 1) && Pow(b, 1) == b * Pow(b, 0);
  }

  /** 256^8 <= 58^11, the fact behind the buffer size. */
  lemma EightForEleven()
    ensures Pow(256, 8) <= Pow(58, 11)
  {
    PowTwo(256);
    PowTwo(58);
    PowSum(256, 2, 2);
    PowSum(256, 4, 4);
    PowSum(58, 2, 1);
    assert Pow(58, 1) == 58 * Pow(58, 0);
    PowSum(58, 2, 3);
    PowSum(58, 5, 5);
    PowSum(58, 10, 1);
  }

  lemma {:induction false} PowLe(a: int, b: int, n: nat)
    requires 0 <= a <= b
    ensures 0 <= Pow(a, n) <= Pow(b, n)
    decreases n
  {
    if n > 0 {
      PowLe(a, b, n - 1);
      Monotone(a, Pow(a, n - 1), Pow(b, n - 1));
      Monotone(Pow(b, n - 1), a, b);
      Monotone(a, 0, Pow(a, n - 1));
    }
  }

  /** Eighth powers compare as their roots do. */
  lemma EighthRoot(a: int, b: int)
    requires 0 <= a && 1 <= b && Pow(a, 8) <= Pow(b, 8)
    ensures a <= b
  {
    if a > b {
      PowLe(b + 1, a, 8);
      PowLe(b, b + 1, 7);
      PowLe(1, b, 7);
      assert Pow(b + 1, 8) == (b + 1) * Pow(b + 1, 7) && Pow(b, 8) == b * Pow(b, 7);
      Monotone(b + 1, Pow(b, 7), Pow(b + 1, 7));
      assert (b + 1) * Pow(b, 7) == b * Pow(b, 7) + Pow(b, 7);
      PowOfOne(7);
    }
  }

  /** The buffer of m * 138 / 100 + 1 digits holds every number of m bytes. */
  lemma BufferSuffices(m: nat)
    ensures Pow(256, m) <= Pow(58, m * 138 / 100 + 1)
  {
    var s := m * 138 / 100 + 1;
    EightForEleven();
    PowPositive(256, 8);
    PowPositive(58, s);
    PowPositive(256, m);
    PowLe(Pow(256, 8), Pow(58, 11), m);
    PowProduct(256, 8, m);
    PowProduct(58, 11, m);
    PowMonotone(58, 11 * m, s * 8);
    PowProduct(256, m, 8);
    PowProduct(58, s, 8);
    EighthRoot(Pow(256, m), Pow(58, s));
  }

  /** A multiplication by 256 under way: `low` are the cells already rewritten, `rest` those still to come, and `carry`
      belongs just above `low`. */
  ghost function Underway(carry: int, low: seq<byte>, rest: seq<byte>): int {
    Times(carry, Pow(58, |low|)) + N(58, low) + 256 * Times(N(58, rest), Pow(58, |low|))
  }

  lemma Regroup(q: int, r: int, p: int, hi: int, d: int, carry: int)
    requires 58 * q + r == carry + 256 * d
    ensures q * (58 * p) + r * p + 256 * (hi * (58 * p)) == carry * p + 256 * ((58 * hi + d) * p)
  {
    assert q * (58 * p) + r * p == (58 * q + r) * p;
    assert (carry + 256 * d) * p == carry * p + 256 * (d * p);
    assert (58 * hi + d) * p == hi * (58 * p) + d * p;
  }

  /** Rewriting one more cell leaves the number under way alone. */
  lemma CarryStep(carry: int, low: seq<byte>, rest: seq<byte>, q: int, r: byte)
    requires rest != [] && 58 * q + r as int == carry + 256 * rest[|rest| - 1] as int
    ensures Underway(q, [r] + low, rest[..|rest| - 1]) == Underway(carry, low, rest)
  {
    var p, hi, d := Pow(58, |low|), N(58, rest[..|rest| - 1]), rest[|rest| - 1] as int;
    SplitNumber(58, [r], low);
    assert N(58, [r]) == 58 * N(58, [r][..0]) + r as int;
    TimesIsProduct(q, 58 * p);
    TimesIsProduct(hi, 58 * p);
    TimesIsProduct(carry, p);
    TimesIsProduct(58 * hi + d, p);
    Regroup(q, r as int, p, hi, d, carry);
  }

  /** A carry out of the first cell would be a number too large for the buffer. */
  lemma NoOverflow(carry: int, s: seq<byte>)
    requires carry >= 0 && Proper(58, s) && Underway(carry, s, []) < Pow(58, |s|)
    ensures carry == 0
  {
    NumberBound(58, s);
    TimesIsProduct(carry, Pow(58, |s|));
    if carry >= 1 {
      Monotone(Pow(58, |s|), 1, carry);
    }
  }

  lemma Finished(low: seq<byte>, rest: seq<byte>, s: seq<byte>)
    requires s == rest + low && forall i :: 0 <= i < |rest| ==> rest[i] == 0
    ensures Underway(0, low, rest) == N(58, s)
  {
    ZerosSpellZero(58, rest);
    SplitNumber(58, rest, low);
  }

  /** Multiplies the number in the buffer by 256 and adds b. Cells up to `high` are zero before, cells up to the result
      are zero after; the new number fits. */
  method MultiplyAdd(buf: array<byte>, b: byte, high: int) returns (j: int)
    requires -1 <= high < buf.Length && Proper(58, buf[..])
    requires forall k :: 0 <= k <= high ==> buf[k] == 0
    requires 256 * N(58, buf[..]) + b as int < Pow(58, buf.Length)
    modifies buf
    ensures -1 <= j <= high && Proper(58, buf[..]) && N(58, buf[..]) == 256 * old(N(58, buf[..])) + b as int
    ensures forall k :: 0 <= k <= j ==> buf[k] == 0
  {
    ghost var before := buf[..];
    ghost var v := 256 * N(58, before) + b as int;
    j := buf.Length - 1;
    var carry: uint32 := b as uint32;
    assert before[..j + 1] == before && buf[j + 1..] == [];
    TimesIsProduct(b as int, 1);
    TimesIsProduct(N(58, before), 1);
    while j > high || carry != 0
      invariant -1 <= j < buf.Length && 0 <= carry < 256
      invariant Proper(58, buf[..]) && buf[..j + 1] == before[..j + 1]
      invariant Underway(carry as int, buf[j + 1..], before[..j + 1]) == v
      decreases j
    {
      if j < 0 {
        assert buf[0..] == buf[..];
        NoOverflow(carry as int, buf[..]);
      }
      carry := RewriteCell(buf, j, carry, before);
      j := j - 1;
    }
    assert buf[..] == buf[..j + 1] + buf[j + 1..];
    assert forall k :: 0 <= k <= j ==> buf[k] == before[k] by {
      assert forall k :: 0 <= k <= j ==> buf[k] == buf[..j + 1][k];
    }
    Finished(buf[j + 1..], before[..j + 1], buf[..]);
  }

  /** One cell: the old digit, times 256, plus the carry. */
  method RewriteCell(buf: array<byte>, j: nat, carry: uint32, ghost before: seq<byte>) returns (q: uint32)
    requires j < buf.Length == |before| && carry < 256 && Proper(58, buf[..]) && buf[..j + 1] == before[..j + 1]
    modifies buf
    ensures q < 256 && Proper(58, buf[..]) && buf[..j] == before[..j]
    ensures Underway(q as int, buf[j..], before[..j]) == old(Underway(carry as int, buf[j + 1..], before[..j + 1]))
  {
    ghost var low, rest := buf[j + 1..], before[..j + 1];
    assert buf[j] == buf[..j + 1][j] == before[j];
    assert buf[..j] == buf[..j + 1][..j] == before[..j];
    var t := carry + 256 * buf[j] as uint32;
    buf[j] := (t % 58) as byte;
    q := t / 58;
    assert buf[j..] == [buf[j]] + low && rest[..j] == before[..j];
    CarryStep(carry as int, low, rest, q as int, buf[j]);
  }

  /** The characters of a list of digits. */
  ghost predicate Spells(enc: seq<byte>, s: string, d: seq<byte>)
    requires |enc| == 58
  {
    |s| == |d| && Proper(58, d) && forall i :: 0 <= i < |s| ==> s[i] == enc[d[i] as int] as char
  }

  /** The two ends of a conversion: the same leading zeros and the same number. */
  ghost predicate Matches(bin: seq<byte>, d: seq<byte>) {
    Z(bin) == Z(d) && N(256, bin) == N(58, d)
  }

  lemma AllBytesProper(s: seq<byte>)
    ensures Proper(256, s)
  {
  }

  /** The number after one more byte of the input still fits the buffer. */
  lemma Fits(bin: seq<byte>, m: nat, size: nat)
    requires m < |bin| && size == |bin| * 138 / 100 + 1
    ensures 256 * N(256, bin[..m]) + bin[m] as int == N(256, bin[..m + 1]) < Pow(58, size)
  {
    assert bin[..m + 1][..m] == bin[..m];
    AllBytesProper(bin[..m + 1]);
    NumberBound(256, bin[..m + 1]);
    PowMonotone(256, m + 1, |bin|);
    BufferSuffices(|bin|);
  }

  /** The buffer with the number of `bin` in it. */
  method ToBuffer(bin: seq<byte>) returns (buf: array<byte>)
    ensures fresh(buf) && buf.Length == |bin| * 138 / 100 + 1
    ensures Proper(58, buf[..]) && N(58, buf[..]) == N(256, bin)
  {
    var size := |bin| * 138 / 100 + 1;
    buf := new byte[size](_ => 0);
    var high := size - 1;
    ZerosSpellZero(58, buf[..]);
    for i := 0 to |bin|
      invariant -1 <= high < size && Proper(58, buf[..]) && forall k :: 0 <= k <= high ==> buf[k] == 0
      invariant N(58, buf[..]) == N(256, bin[..i])
    {
      Fits(bin, i, size);
      high := MultiplyAdd(buf, bin[i], high);
    }
    assert bin[..|bin|] == bin;
  }

  /** Digits that do not start with zero, after z zeros. */
  ghost function WithZeros(z: nat, m: seq<byte>): (d: seq<byte>)
    requires Proper(58, m) && (m != [] ==> m[0] != 0)
    ensures |d| == z + |m| && d[z..] == m && (forall i :: 0 <= i < z ==> d[i] == 0)
    ensures Z(d) == z && N(58, d) == N(58, m) && Proper(58, d)
  {
    var d := seq(z, _ => 0 as byte) + m;
    assert d[z..] == m;
    ZeroCount(d, z);
    DropZeros(58, d, z);
    d
  }

  /** How many bytes at the front are zero. */
  method CountZeros(s: seq<byte>) returns (z: nat)
    ensures z == Z(s)
  {
    z := 0;
    while z < |s| && s[z] == 0
      invariant z <= |s| && forall k :: 0 <= k < z ==> s[k] == 0
    {
      z := z + 1;
    }
    ZeroCount(s, z);
  }

  /** z zero characters, then the characters of m. */
  method Characters(a: Alphabet, z: nat, m: seq<byte>) returns (s: string)
    requires a.Valid() && Proper(58, m) && (m != [] ==> m[0] != 0)
    ensures Spells(a.encode[..], s, WithZeros(z, m))
  {
    var table := a.encode[..];
    s := seq(z, _ => table[0] as char) + seq(|m|, i requires 0 <= i < |m| => table[m[i] as int] as char);
    ghost var d := WithZeros(z, m);
    forall i | 0 <= i < |s|
      ensures s[i] == table[d[i] as int] as char
    {
      if i >= z {
        assert d[i] == d[z..][i - z];
      }
    }
  }

  lemma SameNumber(bin: seq<byte>, z: nat, buf: seq<byte>, j: nat)
    requires z == Z(bin) && j == Z(buf) && Proper(58, buf) && N(58, buf) == N(256, bin[z..])
    ensures Matches(bin, WithZeros(z, buf[j..]))
  {
    DropZeros(256, bin, z);
    DropZeros(58, buf, j);
  }

  /** FastBase58EncodingAlphabet. */
  method Encode(bin: seq<byte>, a: Alphabet) returns (b58: string)
    requires a.Valid()
    ensures AllDigits(a.decode[..], b58) && Matches(bin, Values(a.decode[..], b58))
  {
    var zCount := CountZeros(bin);
    var buf := ToBuffer(bin[zCount..]);
    var j := CountZeros(buf[..]);
    var m := buf[..][j..];
    SameNumber(bin, zCount, buf[..], j);
    b58 := Characters(a, zCount, m);
    SpellingDecides(a.encode[..], a.decode[..], b58, WithZeros(zCount, m));
  }

  // ---- Decoding ----

  /** The weight of k words of 32 bits. */
  ghost function W(k: nat): int {
    Pow(256, 4 * k)
  }

  ghost function NW(s: seq<uint32>): int {
    if s == [] then 0 else 0x1_0000_0000 * NW(s[..|s| - 1]) + s[|s| - 1] as int
  }

  lemma NextWeight(k: nat)
    ensures W(0) == 1 && W(k + 1) == 0x1_0000_0000 * W(k)
  {
    PowTwo(256);
    PowSum(256, 2, 2);
    PowSum(256, 4, 4 * k);
  }

  lemma {:induction false} SplitWords(s: seq<uint32>, t: seq<uint32>)
    ensures NW(s + t) == NW(s) * W(|t|) + NW(t)
    decreases |t|
  {
    if t == [] {
      NextWeight(0);
      assert s + t == s;
    } else {
      var u := t[..|t| - 1];
      assert (s + t)[..|s + t| - 1] == s + u;
      SplitWords(s, u);
      NextWeight(|u|);
      SplitStep(0x1_0000_0000, NW(s), W(|u|), NW(u), t[|t| - 1] as int);
    }
  }

  lemma {:induction false} WordsNotNegative(s: seq<uint32>)
    ensures NW(s) >= 0
    decreases |s|
  {
    if s != [] {
      WordsNotNegative(s[..|s| - 1]);
    }
  }

  /** A multiplication by 58 under way, as Underway for words. */
  ghost function WordsUnderway(c: int, low: seq<uint32>, rest: seq<uint32>): int {
    Times(c, W(|low|)) + NW(low) + 58 * Times(NW(rest), W(|low|))
  }

  lemma RegroupWords(q: int, r: int, p: int, p': int, hi: int, d: int, c: int)
    requires 0x1_0000_0000 * q + r == c + 58 * d && p' == 0x1_0000_0000 * p
    ensures q * p' + r * p + 58 * (hi * p') == c * p + 58 * ((0x1_0000_0000 * hi + d) * p)
  {
    assert q * p' + r * p == (0x1_0000_0000 * q + r) * p;
    assert (c + 58 * d) * p == c * p + 58 * (d * p);
    assert (0x1_0000_0000 * hi + d) * p == hi * p' + d * p;
  }

  lemma WordStep(c: int, low: seq<uint32>, rest: seq<uint32>, q: int, r: uint32)
    requires rest != [] && 0x1_0000_0000 * q + r as int == c + 58 * rest[|rest| - 1] as int
    ensures WordsUnderway(q, [r] + low, rest[..|rest| - 1]) == WordsUnderway(c, low, rest)
  {
    var p, hi, d := W(|low|), NW(rest[..|rest| - 1]), rest[|rest| - 1] as int;
    SplitWords([r], low);
    assert NW([r]) == 0x1_0000_0000 * NW([r][..0]) + r as int;
    NextWeight(|low|);
    TimesIsProduct(q, W(|low| + 1));
    TimesIsProduct(hi, W(|low| + 1));
    TimesIsProduct(c, p);
    TimesIsProduct(0x1_0000_0000 * hi + d, p);
    RegroupWords(q, r as int, p, W(|low| + 1), hi, d, c);
  }

  /** One word: times 58, plus the carry. */
  method RewriteWord(w: array<uint32>, j: nat, c: uint32, ghost before: seq<uint32>) returns (q: uint32)
    requires j < w.Length == |before| && c < 58 && w[..j + 1] == before[..j + 1]
    modifies w
    ensures q < 58 && w[..j] == before[..j]
    ensures WordsUnderway(q as int, w[j..], before[..j]) == old(WordsUnderway(c as int, w[j + 1..], before[..j + 1]))
  {
    ghost var low, rest := w[j + 1..], before[..j + 1];
    assert w[j] == w[..j + 1][j] == before[j];
    assert w[..j] == w[..j + 1][..j] == before[..j];
    var t := w[j] as uint64 * 58 + c as uint64;
    q := (t / 0x1_0000_0000 % 0x40) as uint32;
    w[j] := (t % 0x1_0000_0000) as uint32;
    assert w[j..] == [w[j]] + low && rest[..j] == before[..j];
    WordStep(c as int, low, rest, q as int, w[j]);
  }

  /** Multiplies the words by 58 and adds a digit; c is what does not fit. */
  method MultiplyAddWords(w: array<uint32>, digit: uint32) returns (c: uint32)
    requires digit < 58
    modifies w
    ensures Times(c as int, W(w.Length)) + NW(w[..]) == 58 * old(NW(w[..])) + digit as int
  {
    ghost var before := w[..];
    c := digit;
    var j := w.Length - 1;
    assert before[..j + 1] == before && w[j + 1..] == [];
    WordsStart(digit as int, before);
    while j >= 0
      invariant -1 <= j < w.Length && c < 58 && w[..j + 1] == before[..j + 1]
      invariant WordsUnderway(c as int, w[j + 1..], before[..j + 1]) == 58 * NW(before) + digit as int
    {
      c := RewriteWord(w, j, c, before);
      j := j - 1;
    }
    assert w[0..] == w[..] && before[..0] == [];
    WordsDone(c as int, w[..]);
  }

  lemma WordsStart(c: int, s: seq<uint32>)
    ensures WordsUnderway(c, [], s) == 58 * NW(s) + c
  {
    NextWeight(0);
    TimesIsProduct(c, 1);
    TimesIsProduct(NW(s), 1);
  }

  lemma WordsDone(c: int, s: seq<uint32>)
    ensures WordsUnderway(c, s, []) == Times(c, W(|s|)) + NW(s)
  {
    assert Times(0, W(|s|)) == 0;
  }

  ghost predicate Digit(dec: seq<int8>, c: char)
    requires |dec| == 128
  {
    c as int < 128 && 0 <= dec[c as int] < 58
  }

  ghost predicate AllDigits(dec: seq<int8>, s: string)
    requires |dec| == 128
  {
    forall i :: 0 <= i < |s| ==> Digit(dec, s[i])
  }

  /** The digits of a string. */
  ghost function Values(dec: seq<int8>, s: string): (d: seq<byte>)
    requires |dec| == 128 && AllDigits(dec, s)
    ensures |d| == |s| && Proper(58, d)
    ensures forall i :: 0 <= i < |s| ==> (s[i] as int) < 128 && d[i] as int == dec[s[i] as int] as int
  {
    seq(|s|, i requires 0 <= i < |s| && |dec| == 128 && AllDigits(dec, s) =>
      assert Digit(dec, s[i]); dec[s[i] as int] as byte)
  }

  // ---- The words stay within n bytes ----

  lemma NoCarry(c: int, p: int, w: int, bound: int)
    requires c >= 0 && w >= 0 && p >= bound >= 0 && c * p + w < bound
    ensures c == 0
  {
    if c >= 1 {
      Monotone(p, 1, c);
    }
  }

  lemma WordsFit(s: seq<uint32>, c: int, v: int, n: nat)
    requires c >= 0 && Times(c, W(|s|)) + NW(s) == v < Pow(256, n) && n <= 4 * |s|
    ensures c == 0 && NW(s) == v
  {
    WordsNotNegative(s);
    TimesIsProduct(c, W(|s|));
    PowMonotone(256, n, 4 * |s|);
    PowPositive(256, n);
    NoCarry(c, W(|s|), NW(s), Pow(256, n));
  }

  lemma FirstWordFits(s: seq<uint32>, n: nat, b: nat)
    requires s != [] && NW(s) < Pow(256, n) && n == 4 * (|s| - 1) + b
    ensures (s[0] as int) < Pow(256, b)
  {
    var p := W(|s| - 1);
    FirstWordBelow(s);
    PowSum(256, b, 4 * (|s| - 1));
    PowPositive(256, 4 * (|s| - 1));
    Compare(s[0] as int, Pow(256, b), p, NW(s), Pow(256, n));
  }

  lemma FirstWordBelow(s: seq<uint32>)
    requires s != []
    ensures s[0] as int * W(|s| - 1) <= NW(s)
  {
    assert s == s[..1] + s[1..];
    SplitWords(s[..1], s[1..]);
    WordsNotNegative(s[1..]);
    OneWord(s[..1]);
  }

  lemma OneWord(s: seq<uint32>)
    requires |s| == 1
    ensures NW(s) == s[0] as int
  {
    assert s[..0] == [];
  }

  lemma Compare(x: int, y: int, p: int, v: int, top: int)
    requires p >= 1 && x * p <= v < top && top == y * p
    ensures x < y
  {
    if x >= y {
      Monotone(p, y, x);
    }
  }

  /** The number of k digits is below 256^n for every n that is at least k. */
  lemma DigitsBelow(d: seq<byte>, n: nat)
    requires Proper(58, d) && |d| <= n
    ensures 0 <= N(58, d) < Pow(256, n)
  {
    NumberBound(58, d);
    PowLe(58, 256, |d|);
    PowMonotone(256, |d|, n);
  }

  // ---- Words to bytes ----

  lemma ShiftedByte(w: int, p: int)
    requires w >= 0 && p >= 1
    ensures w / p == 256 * (w / (256 * p)) + w / p % 256
  {
    var q := w / p / 256;
    var r := w - (256 * p) * q;
    assert w == p * (w / p) + w % p;
    assert w / p == 256 * q + w / p % 256;
    assert w == p * (256 * q + w / p % 256) + w % p;
    assert p * (256 * q + w / p % 256) == (256 * p) * q + p * (w / p % 256);
    Monotone(p, w / p % 256, 255);
    Monotone(p, 0, w / p % 256);
    Quotient(w, 256 * p, q, r);
  }

  /** What a shift by m bytes divides by. */
  function Unit(m: nat): uint32
    requires m < 4
  {
    if m == 0 then 1 else if m == 1 then 0x100 else if m == 2 then 0x1_0000 else 0x100_0000
  }

  lemma UnitIsPower(m: nat)
    requires m < 4
    ensures Unit(m) as int == Pow(256, m)
  {
    if m > 0 {
      UnitIsPower(m - 1);
    }
  }

  /** Appends the low b bytes of a word, the highest first. */
  method EmitWord(binU: array<byte>, cnt: nat, w: uint32, b: nat) returns (end: nat)
    requires 1 <= b <= 4 && cnt + b <= binU.Length && (w as int) < Pow(256, b)
    modifies binU
    ensures end == cnt + b && N(256, binU[..end]) == old(N(256, binU[..cnt])) * Pow(256, b) + w as int
    ensures forall k :: end <= k < binU.Length ==> binU[k] == old(binU[k])
  {
    ghost var before := N(256, binU[..cnt]);
    end := cnt;
    var m := b;
    Quotient(w as int, Pow(256, b), 0, w as int);
    assert before * Pow(256, b - m) == before;
    while m > 0
      invariant 0 <= m <= b && end == cnt + (b - m)
      invariant N(256, binU[..end]) == before * Pow(256, b - m) + w as int / Pow(256, m)
      invariant forall k :: end <= k < binU.Length ==> binU[k] == old(binU[k])
    {
      ghost var s := binU[..end];
      m := m - 1;
      UnitIsPower(m);
      binU[end] := (w / Unit(m) % 256) as byte;
      end := end + 1;
      assert binU[..end][..end - 1] == s;
      NextByte(before, Pow(256, b - m - 1), Pow(256, b - m), w as int, Pow(256, m), Pow(256, m + 1));
    }
  }

  lemma NextByte(before: int, p: int, p': int, w: int, q: int, q': int)
    requires w >= 0 && q >= 1 && q' == 256 * q && p' == 256 * p
    ensures 256 * (before * p + w / q') + w / q % 256 == before * p' + w / q
  {
    ShiftedByte(w, q);
    assert 256 * (before * p) == before * (256 * p);
  }

  /** The bytes of the words: b of the first, four of each other. */
  method EmitWords(outi: seq<uint32>, n: nat, b: nat, binU: array<byte>) returns (cnt: nat)
    requires outi != [] && 1 <= b <= 4 && n == 4 * (|outi| - 1) + b <= binU.Length && NW(outi) < Pow(256, n)
    requires forall k :: 0 <= k < binU.Length ==> binU[k] == 0
    modifies binU
    ensures cnt == n && N(256, binU[..cnt]) == NW(outi)
    ensures forall k :: cnt <= k < binU.Length ==> binU[k] == 0
  {
    FirstWordFits(outi, n, b);
    cnt := EmitWord(binU, 0, outi[0], b);
    OneWord(outi[..1]);
    assert N(256, binU[..cnt]) == outi[0] as int;
    for j := 1 to |outi|
      invariant cnt == b + 4 * (j - 1) && N(256, binU[..cnt]) == NW(outi[..j])
      invariant forall k :: cnt <= k < binU.Length ==> binU[k] == 0
    {
      FourBytes();
      cnt := EmitWord(binU, cnt, outi[j], 4);
      assert outi[..j + 1][..j] == outi[..j];
    }
    assert outi[..|outi|] == outi;
  }

  lemma FourBytes()
    ensures Pow(256, 4) == 0x1_0000_0000
  {
    PowTwo(256);
    PowSum(256, 2, 2);
  }

  // ---- The decoder ----

  lemma WorthOfPrefix(d: seq<byte>, k: nat)
    requires k < |d|
    ensures N(58, d[..k + 1]) == 58 * N(58, d[..k]) + d[k] as int
  {
    assert d[..k + 1][..k] == d[..k];
  }

  lemma ZeroWords(s: seq<uint32>)
    requires forall i :: 0 <= i < |s| ==> s[i] == 0
    ensures NW(s) == 0
    decreases |s|
  {
    if s != [] {
      ZeroWords(s[..|s| - 1]);
    }
  }

  /** The remainders that `& zMask` tests: bits of the first word above its b bytes. */
  function AboveBytes(x: uint32, b: nat): uint32
    requires 1 <= b <= 4
  {
    if b == 4 then 0 else x - x % Unit(b)
  }

  lemma NothingAbove(x: uint32, b: nat)
    requires 1 <= b <= 4 && (x as int) < Pow(256, b)
    ensures AboveBytes(x, b) == 0
  {
    if b < 4 {
      UnitIsPower(b);
    }
  }

  /** One character: the words take its digit, and neither overflow exit is taken. */
  method TakeDigit(outi: array<uint32>, digit: byte, n: nat, b: nat, ghost d: seq<byte>,
    ghost k: nat) returns (ok: bool)
    requires outi.Length >= 1 && 1 <= b <= 4 && n == 4 * (outi.Length - 1) + b
    requires Proper(58, d) && k < |d| <= n && digit == d[k] && NW(outi[..]) == N(58, d[..k])
    modifies outi
    ensures ok && NW(outi[..]) == N(58, d[..k + 1]) < Pow(256, n)
  {
    WorthOfPrefix(d, k);
    var c := MultiplyAddWords(outi, digit as uint32);
    DigitsBelow(d[..k + 1], n);
    WordsFit(outi[..], c as int, N(58, d[..k + 1]), n);
    if c > 0 {
      return false;
    }
    FirstWordFits(outi[..], n, b);
    NothingAbove(outi[0], b);
    if AboveBytes(outi[0], b) != 0 {
      return false;
    }
    ok := true;
  }

  lemma NextValue(dec: seq<int8>, s: string, k: nat) returns (d: seq<byte>)
    requires |dec| == 128 && k < |s| && AllDigits(dec, s[..k]) && Digit(dec, s[k])
    ensures AllDigits(dec, s[..k + 1]) && d == Values(dec, s[..k + 1]) && |d| == k + 1 && d[..k + 1] == d
    ensures d[..k] == Values(dec, s[..k]) && d[k] as int == dec[s[k] as int] as int
  {
    assert forall i :: 0 <= i < k ==> s[..k + 1][i] == s[..k][i];
    d := Values(dec, s[..k + 1]);
  }

  /** What is known after k characters. */
  ghost predicate Taken(dec: seq<int8>, str: string, k: nat, words: seq<uint32>, n: nat)
    requires |dec| == 128 && k <= |str|
  {
    AllDigits(dec, str[..k]) && NW(words) == N(58, Values(dec, str[..k])) && (k >= 1 ==> NW(words) < Pow(256, n))
  }

  /** One character of the string, or an error. */
  method TakeCharacter(outi: array<uint32>, enc: seq<byte>, dec: seq<int8>, str: string, k: nat,
    b: nat) returns (ok: bool)
    requires Inverse(enc, dec) && k < |str| && 1 <= b <= 4
    requires outi.Length >= 1 && |str| == 4 * (outi.Length - 1) + b && Taken(dec, str, k, outi[..], |str|)
    modifies outi
    ensures ok <==> Digit(dec, str[k])
    ensures ok ==> Taken(dec, str, k + 1, outi[..], |str|)
  {
    if str[k] as int > 127 || dec[str[k] as int] == -1 {
      return false;
    }
    ghost var d := NextValue(dec, str, k);
    ok := TakeDigit(outi, dec[str[k] as int] as byte, |str|, b, d, k);
  }

  /** The words of a string all of whose characters are digits, or an error. */
  method ToWords(str: string, a: Alphabet, b: nat) returns (r: Result<seq<uint32>>)
    requires a.Valid() && |str| >= 1 && 1 <= b <= 4 && |str| == 4 * ((|str| + 3) / 4 - 1) + b
    ensures r.Ok? <==> AllDigits(a.decode[..], str)
    ensures r.Ok? ==> |r.value| == (|str| + 3) / 4 && Taken(a.decode[..], str, |str|, r.value, |str|)
  {
    var enc, dec := a.encode[..], a.decode[..];
    var outi := new uint32[(|str| + 3) / 4](_ => 0);
    ZeroWords(outi[..]);
    for k := 0 to |str|
      invariant Taken(dec, str, k, outi[..], |str|)
    {
      var ok := TakeCharacter(outi, enc, dec, str, k, b);
      if !ok {
        return Err("invalid base58 digit");
      }
    }
    assert str[..|str|] == str;
    r := Ok(outi[..]);
  }

  /** A number of k digits needs at most k bytes. */
  lemma NoMoreBytes(d: seq<byte>, u: seq<byte>)
    requires Proper(58, d) && N(256, u) == N(58, d) && u != [] && u[0] != 0
    ensures |u| <= |d|
  {
    AllBytesProper(u);
    LeadingDigit(256, u);
    DigitsBelow(d, |d|);
    if |u| > |d| {
      PowMonotone(256, |d|, |u| - 1);
    }
  }

  lemma NoDigits(d: seq<byte>)
    requires Proper(58, d) && N(58, d) == 0 && (d != [] ==> d[0] != 0)
    ensures d == []
  {
    if d != [] {
      NonZeroNumber(58, d);
    }
  }

  /** Leading zeros of the digits are matched by zero bytes, so the result never starts before the first byte. */
  lemma EnoughZeros(d: seq<byte>, u: seq<byte>)
    requires Proper(58, d) && |u| == |d| && N(256, u) == N(58, d)
    ensures Z(u) >= Z(d) && (Z(u) == |u| ==> Z(d) == |d|)
  {
    var f, z := Z(u), Z(d);
    DropZeros(58, d, z);
    DropZeros(256, u, f);
    if f < |u| {
      NoMoreBytes(d[z..], u[f..]);
    } else {
      NoDigits(d[z..]);
    }
  }

  /** The bytes from `start` on have z leading zeros and the same number. */
  lemma Trimmed(u: seq<byte>, z: nat)
    requires z <= Z(u)
    ensures Z(u[Z(u) - z..]) == z && N(256, u[Z(u) - z..]) == N(256, u)
  {
    DropZeros(256, u, Z(u) - z);
    ZeroCount(u[Z(u) - z..], z);
  }

  /** The result bytes: the words' bytes with as many zeros in front as the digits have. */
  method FromWords(words: seq<uint32>, n: nat, b: nat, zCount: nat, ghost d: seq<byte>) returns (value: seq<byte>)
    requires words != [] && 1 <= b <= 4 && n == 4 * (|words| - 1) + b
    requires Proper(58, d) && |d| == n && zCount == Z(d) && NW(words) == N(58, d) < Pow(256, n)
    ensures Matches(value, d)
  {
    var binU := new byte[(n + 3) * 3](_ => 0);
    var cnt := EmitWords(words, n, b, binU);
    EnoughZeros(d, binU[..cnt]);
    value := Trim(binU, cnt, zCount);
  }

  /** FastBase58DecodingAlphabet: the only errors are an empty string and a character outside the alphabet. */
  method Decode(str: string, a: Alphabet) returns (r: Result<seq<byte>>)
    requires a.Valid()
    ensures r.Ok? <==> str != "" && AllDigits(a.decode[..], str)
    ensures r.Ok? ==> Matches(r.value, Values(a.decode[..], str))
  {
    if |str| == 0 {
      return Err("zero length string");
    }
    var bytesLeft := if |str| % 4 > 0 then |str| % 4 else 4;
    var words := ToWords(str, a, bytesLeft);
    if words.Err? {
      return Err(words.error);
    }
    assert str[..|str|] == str;
    var zCount := CountZeroCharacters(str, a.encode[..], a.decode[..]);
    var value := FromWords(words.value, |str|, bytesLeft, zCount, Values(a.decode[..], str));
    r := Ok(value);
  }

  /** Drops zero bytes until z are left at the front. */
  method Trim(binU: array<byte>, cnt: nat, zCount: nat) returns (r: seq<byte>)
    requires cnt <= binU.Length && forall k :: cnt <= k < binU.Length ==> binU[k] == 0
    requires zCount <= Z(binU[..cnt]) && (Z(binU[..cnt]) == cnt ==> zCount == cnt)
    ensures Z(r) == zCount && N(256, r) == N(256, binU[..cnt])
  {
    ghost var u := binU[..cnt];
    var n := FirstByte(binU, cnt);
    if n < binU.Length {
      var start := n - zCount;
      if start < 0 {
        start := 0;
      }
      Trimmed(u, zCount);
      assert binU[start..cnt] == u[start..];
      return binU[start..cnt];
    }
    r := binU[..cnt];
  }

  /** The zero characters at the front. */
  method CountZeroCharacters(str: string, enc: seq<byte>, dec: seq<int8>) returns (z: nat)
    requires Inverse(enc, dec) && AllDigits(dec, str)
    ensures z == Z(Values(dec, str))
  {
    z := 0;
    while z < |str| && str[z] == enc[0] as char
      invariant z <= |str| && forall k :: 0 <= k < z ==> str[k] == enc[0] as char
    {
      z := z + 1;
    }
    ghost var d := Values(dec, str);
    assert forall k :: 0 <= k < z ==> d[k] as int == dec[enc[0] as int] as int == 0;
    ZeroCount(d, z);
  }

  /** The first byte that is not zero, or the length when there is none. */
  method FirstByte(binU: array<byte>, cnt: nat) returns (n: nat)
    requires cnt <= binU.Length && forall k :: cnt <= k < binU.Length ==> binU[k] == 0
    ensures n == if Z(binU[..cnt]) == cnt then binU.Length else Z(binU[..cnt])
  {
    n := 0;
    while n < binU.Length
      invariant n <= binU.Length && forall k :: 0 <= k < n ==> binU[k] == 0
    {
      if binU[n] > 0 {
        ZeroCount(binU[..cnt], n);
        return;
      }
      n := n + 1;
    }
    ZeroCount(binU[..cnt], cnt);
  }

  // ---- Round trips ----

  lemma SpellingDecides(enc: seq<byte>, dec: seq<int8>, s: string, d: seq<byte>)
    requires Inverse(enc, dec) && Spells(enc, s, d)
    ensures AllDigits(dec, s) && Values(dec, s) == d
  {
    forall i | 0 <= i < |s|
      ensures Digit(dec, s[i]) && dec[s[i] as int] as int == d[i] as int
    {
      assert s[i] == enc[d[i] as int] as char;
    }
  }

  lemma ValuesSpell(enc: seq<byte>, dec: seq<int8>, s: string)
    requires Inverse(enc, dec) && AllDigits(dec, s)
    ensures Spells(enc, s, Values(dec, s))
  {
    forall i | 0 <= i < |s|
      ensures s[i] == enc[Values(dec, s)[i] as int] as char
    {
      assert Digit(dec, s[i]);
    }
  }

  /** Decode(Encode(b)) = b for every byte string that is not empty. */
  method DecodeEncode(bin: seq<byte>, a: Alphabet) returns (r: Result<seq<byte>>)
    requires a.Valid() && bin != []
    ensures r == Ok(bin)
  {
    var s := Encode(bin, a);
    NotEmpty(bin, Values(a.decode[..], s));
    r := Decode(s, a);
    AllBytesProper(bin);
    AllBytesProper(r.value);
    DigitsUnique(256, bin, r.value);
  }

  /** Bytes that are not empty give digits, all-zero ones included. */
  lemma NotEmpty(bin: seq<byte>, d: seq<byte>)
    requires bin != [] && Proper(58, d) && Matches(bin, d)
    ensures d != []
  {
    if Z(bin) == 0 {
      AllBytesProper(bin);
      NonZeroNumber(256, bin);
    }
  }

  /** Encode(Decode(s)) = s for every string of digits that is not empty. */
  method EncodeDecode(s: string, a: Alphabet) returns (t: string)
    requires a.Valid() && s != "" && AllDigits(a.decode[..], s)
    ensures t == s
  {
    var r := Decode(s, a);
    t := Encode(r.value, a);
    DigitsUnique(58, Values(a.decode[..], t), Values(a.decode[..], s));
    ValuesSpell(a.encode[..], a.decode[..], s);
    ValuesSpell(a.encode[..], a.decode[..], t);
  }
}
