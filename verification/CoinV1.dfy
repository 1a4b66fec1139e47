/** The bytes of a CoinV1 (coin/coin_v1.go): an optional ciphertext, a length prefix of one or two bytes and the
    plain coin. The prefix does not say how long it is; the reader tries one byte first. */
module CoinV1 {
  import opened Bytes
  import opened CoinFields
  import opened MachineInts
  import opened Options
  import opened PlainCoin

  const ELGAMAL_CIPHERTEXT_SIZE: nat := 64

  datatype Cipher = Cipher(symKeyEncrypted: seq<byte>, msgEncrypted: seq<byte>)

  predicate IsNil(e: Option<Cipher>) {
    e.None? || e.value.symKeyEncrypted == [] || e.value.msgEncrypted == []
  }

  function CipherBytes(e: Option<Cipher>): seq<byte> {
    if IsNil(e) then [] else e.value.symKeyEncrypted + e.value.msgEncrypted
  }

  /** A ciphertext that one length byte can announce. */
  predicate Fits(e: Option<Cipher>) {
    !IsNil(e) ==> |e.value.symKeyEncrypted| == ELGAMAL_CIPHERTEXT_SIZE && |CipherBytes(e)| < 0x100
  }

  function IntToBytes(n: nat): seq<byte>
    requires n < 0x1_0000
  {
    [(n / 0x100) as byte, (n % 0x100) as byte]
  }

  function BytesToInt(b: seq<byte>): nat
    requires |b| == 2
  {
    b[0] as nat * 0x100 + b[1] as nat
  }

  function Prefix(n: nat): seq<byte>
    requires n < 0x1_0000
  {
    if n <= 255 then [n as byte] else IntToBytes(n)
  }

  ghost function Whole(e: Option<Cipher>, p: Plain): seq<byte> {
    Length(p);
    [(|CipherBytes(e)| % 0x100) as byte] + CipherBytes(e) + Prefix(|All(Contents(p))|) + All(Contents(p))
  }

  /** The ciphertext at the start of the bytes; a zero length leaves the one that was there. */
  ghost function EncryptedAt(b: seq<byte>, before: Option<Cipher>): Parsed<Option<Cipher>>
    requires b != []
  {
    var n := b[0] as nat;
    if n == 0 then Parsed(before, 1)
    else if 1 + n > |b| || n < ELGAMAL_CIPHERTEXT_SIZE then ParseError
    else Parsed(Some(Cipher(b[1..1 + ELGAMAL_CIPHERTEXT_SIZE], b[1 + ELGAMAL_CIPHERTEXT_SIZE..1 + n])), 1 + n)
  }

  // ---- What an attempt leaves ----

  /** How plain coins are read: which bytes are one, and what reading leaves. */
  datatype Reader = Reader(readable: seq<byte> -> bool, after: (seq<byte>, Plain) -> Plain)

  ghost function ReaderOf(valid: seq<byte> -> bool): Reader {
    Reader(d => Readable(valid, d), (d: seq<byte>, p: Plain) => After(valid, d, p))
  }

  const BLANK: Plain := Plain(None, None, None, None, None, 0, [])

  ghost function CipherAfter(b: seq<byte>, before: Option<Cipher>): Option<Cipher>
    requires b != []
  {
    var n := b[0] as nat;
    if n == 0 || 1 + n > |b| then before
    else if n < 64 then Some(Cipher([], []))
    else Some(Cipher(b[1..65], b[65..1 + n]))
  }

  ghost function AfterTwoBytes(rd: Reader, b: seq<byte>, o: nat, p: Plain): Plain {
    if o + 2 > |b| then p
    else
      var n := 256 * b[o] as nat + b[o + 1] as nat;
      if o + 2 + n > |b| then p else rd.after(b[o + 2..o + 2 + n], p)
  }

  /** The plain coin after an attempt that may fail. */
  ghost function DetailsAfter(rd: Reader, b: seq<byte>, o: nat): Plain
    requires o < |b|
  {
    var n := b[o] as nat;
    if n == 0 then AfterTwoBytes(rd, b, o, BLANK)
    else if o + 1 + n > |b| then BLANK
    else
      var p := rd.after(b[o + 1..o + 1 + n], BLANK);
      if rd.readable(b[o + 1..o + 1 + n]) then p else AfterTwoBytes(rd, b, o, p)
  }

  // ---- Reading ----

  /** The attempt with a two-byte prefix succeeds. */
  ghost predicate TwoBytesOk(rd: Reader, b: seq<byte>, o: nat) {
    && o + 2 <= |b| && o + 2 + BytesToInt(b[o..o + 2]) <= |b|
    && rd.readable(b[o + 2..o + 2 + BytesToInt(b[o..o + 2])])
  }

  /** There is a plain coin after the ciphertext: a zero byte or a failure sends the reader to the two-byte attempt. */
  ghost predicate DetailsOk(rd: Reader, b: seq<byte>, o: nat) {
    o < |b| &&
    var n := b[o] as nat;
    if n == 0 then TwoBytesOk(rd, b, o)
    else o + 1 + n <= |b| && (rd.readable(b[o + 1..o + 1 + n]) || TwoBytesOk(rd, b, o))
  }

  class CoinV1 {
    var coinDetails: PlainCoinV1
    var coinDetailsEncrypted: Option<Cipher>

    constructor ()
      ensures fresh(coinDetails) && coinDetailsEncrypted == None
    {
      coinDetails := new PlainCoinV1();
      coinDetailsEncrypted := None;
    }

    method ToBytes() returns (outCoinBytes: seq<byte>)
      ensures outCoinBytes == Whole(coinDetailsEncrypted, coinDetails.View())
    {
      outCoinBytes := [];
      if coinDetailsEncrypted.Some? {
        var bytes := CipherBytes(coinDetailsEncrypted);
        outCoinBytes := outCoinBytes + [(|bytes| % 0x100) as byte];
        outCoinBytes := outCoinBytes + bytes;
      } else {
        outCoinBytes := outCoinBytes + [0];
      }
      var coinDetailBytes := coinDetails.ToBytes();
      Length(coinDetails.View());
      var lenCoinDetailBytes;
      if |coinDetailBytes| <= 255 {
        lenCoinDetailBytes := [|coinDetailBytes| as byte];
      } else {
        lenCoinDetailBytes := IntToBytes(|coinDetailBytes|);
      }
      outCoinBytes := outCoinBytes + lenCoinDetailBytes;
      outCoinBytes := outCoinBytes + coinDetailBytes;
    }

    method SetBytes(valid: seq<byte> -> bool, bytes: seq<byte>) returns (ok: bool)
      modifies this
      ensures ok <==> bytes != [] && EncryptedAt(bytes, old(coinDetailsEncrypted)).Parsed? &&
                      DetailsOk(ReaderOf(valid), bytes, EncryptedAt(bytes, old(coinDetailsEncrypted)).offset)
      ensures ok ==>
        && coinDetailsEncrypted == EncryptedAt(bytes, old(coinDetailsEncrypted)).value
        && fresh(coinDetails)
        && coinDetails.View() == DetailsAfter(ReaderOf(valid), bytes,
          EncryptedAt(bytes, old(coinDetailsEncrypted)).offset)
      ensures bytes == [] ==> coinDetails == old(coinDetails) && coinDetailsEncrypted == old(coinDetailsEncrypted)
      ensures bytes != [] ==> coinDetailsEncrypted == CipherAfter(bytes, old(coinDetailsEncrypted))
      ensures bytes != [] ==>
        var e := EncryptedAt(bytes, old(coinDetailsEncrypted));
        if e.ParseError? || e.offset >= |bytes| then coinDetails == old(coinDetails)
        else fresh(coinDetails) && coinDetails.View() == DetailsAfter(ReaderOf(valid), bytes, e.offset)
    {
      if |bytes| == 0 {
        return false;
      }
      var offset;
      ok, offset := SetCipher(bytes);
      if !ok || offset >= |bytes| {
        return false;
      }
      var details;
      ok, details := ReadDetails(valid, bytes, offset);
      coinDetails := details;
    }

    /** The ciphertext. */
    method SetCipher(bytes: seq<byte>) returns (ok: bool, offset: nat)
      requires bytes != []
      modifies this`coinDetailsEncrypted
      ensures ok <==> EncryptedAt(bytes, old(coinDetailsEncrypted)).Parsed?
      ensures ok ==> EncryptedAt(bytes, old(coinDetailsEncrypted)) == Parsed(coinDetailsEncrypted, offset)
      ensures coinDetailsEncrypted == CipherAfter(bytes, old(coinDetailsEncrypted))
    {
      offset := 1;
      var lenCoinDetailEncrypted := bytes[0] as nat;
      if lenCoinDetailEncrypted > 0 {
        if offset + lenCoinDetailEncrypted > |bytes| {
          return false, offset;
        }
        if lenCoinDetailEncrypted < ELGAMAL_CIPHERTEXT_SIZE {
          coinDetailsEncrypted := Some(Cipher([], []));
          return false, offset;
        }
        coinDetailsEncrypted := Some(Cipher(bytes[offset..offset + ELGAMAL_CIPHERTEXT_SIZE],
                                            bytes[offset + ELGAMAL_CIPHERTEXT_SIZE..offset + lenCoinDetailEncrypted]));
        offset := offset + lenCoinDetailEncrypted;
      }
      ok := true;
    }
  }

  /** The two-byte attempt on a coin that an earlier attempt may have touched. */
  method TwoBytes(details: PlainCoinV1, valid: seq<byte> -> bool, bytes: seq<byte>, offset: nat) returns (ok: bool)
    modifies details
    ensures ok <==> TwoBytesOk(ReaderOf(valid), bytes, offset)
    ensures details.View() == AfterTwoBytes(ReaderOf(valid), bytes, offset, old(details.View()))
  {
    if offset + 2 > |bytes| {
      return false;
    }
    var lenOutputCoin := BytesToInt(bytes[offset..offset + 2]);
    assert lenOutputCoin == 256 * bytes[offset] as nat + bytes[offset + 1] as nat;
    if offset + 2 + lenOutputCoin > |bytes| {
      return false;
    }
    ok := details.SetBytes(valid, bytes[offset + 2..offset + 2 + lenOutputCoin]);
  }

  method ReadDetails(valid: seq<byte> -> bool, bytes: seq<byte>, start: nat) returns (ok: bool, details: PlainCoinV1)
    requires start < |bytes|
    ensures fresh(details)
    ensures ok <==> DetailsOk(ReaderOf(valid), bytes, start)
    ensures details.View() == DetailsAfter(ReaderOf(valid), bytes, start)
  {
    details := new PlainCoinV1();
    var lenOutputCoin := bytes[start] as nat;
    if lenOutputCoin != 0 {
      var offset := start + 1;
      if offset + lenOutputCoin > |bytes| {
        return false, details;
      }
      ok := details.SetBytes(valid, bytes[offset..offset + lenOutputCoin]);
      if !ok {
        ok := TwoBytes(details, valid, bytes, start);
      }
    } else {
      ok := TwoBytes(details, valid, bytes, start);
    }
  }

  /** A field that is longer than what is left makes a one-byte list unreadable. */
  lemma OneByteFails(valid: seq<byte> -> bool, b: seq<byte>, before: uint64)
    requires |b| == 1
    ensures !Readable(valid, b) && ValueAfter(valid, b, before) == before
  {
    assert Fields(b, 0, 0) == Parsed([], 0);
    assert Fields(b, 0, 1).Parsed? ==> Fields(b, 0, 1).offset == 1;
    assert Fields(b, 0, 2).ParseError?;
    FieldsFail(b, 0, 2, 6);
    FieldsFail(b, 0, 2, 7);
  }

  /** A coin of at most 255 bytes is read at the first attempt. */
  lemma OneBytePrefix(rd: Reader, pre: seq<byte>, d: seq<byte>)
    requires 0 < |d| <= 255 && rd.readable(d)
    ensures var b := pre + Prefix(|d|) + d;
      DetailsOk(rd, b, |pre|) && DetailsAfter(rd, b, |pre|) == rd.after(d, BLANK)
  {
    var b := pre + Prefix(|d|) + d;
    assert b[|pre|] as nat == |d|;
    assert b[|pre| + 1..|pre| + 1 + |d|] == d;
  }

  /** A longer one, up to 511 bytes, at the second: its prefix starts with 1, and one byte is never a plain coin. */
  lemma TwoBytePrefix(rd: Reader, pre: seq<byte>, d: seq<byte>, x: seq<byte>)
    requires 255 < |d| < 512 && rd.readable(d)
    requires x == [(|d| % 0x100) as byte] && !rd.readable(x)
    ensures var b := pre + Prefix(|d|) + d;
      DetailsOk(rd, b, |pre|) && DetailsAfter(rd, b, |pre|) == rd.after(d, rd.after(x, BLANK))
  {
    var b, o := pre + Prefix(|d|) + d, |pre|;
    LongLayout(pre, d);
    assert b[o + 1..o + 1 + b[o] as nat] == x;
  }

  lemma LongLayout(pre: seq<byte>, d: seq<byte>)
    requires 255 < |d| < 512
    ensures var b, o := pre + Prefix(|d|) + d, |pre|;
      && |b| == o + 2 + |d| && b[o] == 1 && BytesToInt(b[o..o + 2]) == 256 * b[o] as nat + b[o + 1] as nat == |d|
      && b[o + 2..o + 2 + |d|] == d
  {
    var b, o := pre + Prefix(|d|) + d, |pre|;
    assert b[o..o + 2] == Prefix(|d|);
    assert b[o + 2..o + 2 + |d|] == d;
  }

  /** Reading the bytes that follow any ciphertext gives the plain coin back, for every length. */
  lemma DetailsBack(valid: seq<byte> -> bool, pre: seq<byte>, p: Plain)
    requires PointsValid(valid, p)
    ensures |All(Contents(p))| < 0x1_0000
    ensures var b := pre + Prefix(|All(Contents(p))|) + All(Contents(p));
      DetailsOk(ReaderOf(valid), b, |pre|) && DetailsAfter(ReaderOf(valid), b, |pre|) == p.(info := Cut(p.info))
  {
    Length(p);
    var d, rd := All(Contents(p)), ReaderOf(valid);
    if |d| <= 255 {
      WrittenIsRead(valid, p, BLANK);
      OneBytePrefix(rd, pre, d);
    } else {
      var x := [(|d| % 0x100) as byte];
      OneByteFails(valid, x, 0);
      WrittenIsRead(valid, p, rd.after(x, BLANK));
      TwoBytePrefix(rd, pre, d, x);
    }
  }

  lemma CipherBack(e: Option<Cipher>, rest: seq<byte>)
    requires Fits(e)
    ensures var b := [(|CipherBytes(e)| % 0x100) as byte] + CipherBytes(e) + rest;
      EncryptedAt(b, None) == Parsed(if IsNil(e) then None else e, 1 + |CipherBytes(e)|)
  {
    var c := CipherBytes(e);
    var b := [(|c| % 0x100) as byte] + c + rest;
    if !IsNil(e) {
      assert b[0] as nat == |c|;
      assert b[1..1 + ELGAMAL_CIPHERTEXT_SIZE] == e.value.symKeyEncrypted;
      assert b[1 + ELGAMAL_CIPHERTEXT_SIZE..1 + |c|] == e.value.msgEncrypted;
    }
  }

  /** Written bytes are read back into a fresh coin, an empty ciphertext as none. */
  lemma WholeBack(valid: seq<byte> -> bool, e: Option<Cipher>, p: Plain)
    requires Fits(e) && PointsValid(valid, p)
    ensures Whole(e, p) != []
    ensures EncryptedAt(Whole(e, p), None) == Parsed(if IsNil(e) then None else e, 1 + |CipherBytes(e)|)
    ensures DetailsOk(ReaderOf(valid), Whole(e, p), EncryptedAt(Whole(e, p), None).offset)
    ensures DetailsAfter(ReaderOf(valid), Whole(e, p), EncryptedAt(Whole(e, p), None).offset) == p.(info := Cut(p.info))
    ensures e.None? || e.value.symKeyEncrypted == [] || e.value.msgEncrypted == [] ==>
      EncryptedAt(Whole(e, p), None) == Parsed(None, 1)
    ensures e.Some? && e.value.symKeyEncrypted != [] && e.value.msgEncrypted != [] ==>
      EncryptedAt(Whole(e, p), None) == Parsed(e, 1 + |e.value.symKeyEncrypted| + |e.value.msgEncrypted|)
    ensures |p.info| <= 255 ==> DetailsAfter(ReaderOf(valid), Whole(e, p), EncryptedAt(Whole(e, p), None).offset) == p
  {
    Length(p);
    var pre, d := [(|CipherBytes(e)| % 0x100) as byte] + CipherBytes(e), All(Contents(p));
    if |p.info| <= 255 {
      KeptWhole(p.info);
    }
    DetailsBack(valid, pre, p);
    CipherBack(e, Prefix(|d|) + d);
    Regrouped(pre, Prefix(|d|), d);
  }

  lemma Regrouped(a: seq<byte>, b: seq<byte>, c: seq<byte>)
    ensures a + b + c == a + (b + c)
  {
  }
}
