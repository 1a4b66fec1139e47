/** The bytes of a PlainCoinV1 (coin/coin_v1.go). Which 32-byte strings are points is a parameter. */
module PlainCoin {
  import opened Bytes
  import opened CoinFields
  import opened Digits
  import opened MachineInts
  import opened Options

  datatype Plain = Plain(publicKey: Option<Key>, commitment: Option<Key>, snDerivator: Option<Key>,
    serialNumber: Option<Key>, randomness: Option<Key>, value: uint64, info: seq<byte>)

  function Contents(p: Plain): (fields: seq<seq<byte>>)
    ensures |fields| == 7 && Short(fields)
  {
    ValueBytes(p.value);
    [Content(p.publicKey), Content(p.commitment), Content(p.snDerivator), Content(p.serialNumber),
      Content(p.randomness), BigEndian(p.value as nat), Cut(p.info)]
  }

  predicate PointsValid(valid: seq<byte> -> bool, p: Plain) {
    && PointOk(valid, Content(p.publicKey)) && PointOk(valid, Content(p.commitment))
    && PointOk(valid, Content(p.serialNumber))
  }

  /** The coin that seven fields stand for; an empty value field leaves the value that was there. */
  function Meaning(fields: seq<seq<byte>>, before: uint64): Plain
    requires |fields| == 7
  {
    Plain(PointOf(fields[0]), PointOf(fields[1]), ScalarOf(fields[2]), PointOf(fields[3]), ScalarOf(fields[4]),
          if fields[5] == [] then before else (N(256, fields[5]) % TWO64) as uint64, fields[6])
  }

  predicate IsPoint(k: nat) {
    k == 0 || k == 1 || k == 3
  }

  /** The points among these first fields are valid. */
  predicate KeysOk(valid: seq<byte> -> bool, fields: seq<seq<byte>>) {
    forall k :: 0 <= k < |fields| && IsPoint(k) ==> PointOk(valid, fields[k])
  }

  /** The first n fields can be read and their points are valid. */
  ghost predicate Reached(valid: seq<byte> -> bool, b: seq<byte>, n: nat) {
    Fields(b, 0, n).Parsed? && |Fields(b, 0, n).value| == n && KeysOk(valid, Fields(b, 0, n).value)
  }

  /** The bytes are a plain coin, followed by anything. */
  ghost predicate Readable(valid: seq<byte> -> bool, b: seq<byte>) {
    Reached(valid, b, 7)
  }

  /** The list so far is what the first |fields| fields hold, and its points are valid. */
  ghost predicate ReadSoFar(valid: seq<byte> -> bool, b: seq<byte>, fields: seq<seq<byte>>, offset: nat) {
    Fields(b, 0, |fields|) == Parsed(fields, offset) && KeysOk(valid, fields)
  }

  /** What the field after the first k leaves in its key: the key it stands for, nothing when it is bad, and the old
      key when reading did not come so far. */
  ghost function KeyAfter(valid: seq<byte> -> bool, b: seq<byte>, k: nat, before: Option<Key>): Option<Key> {
    if !Reached(valid, b, k) then before
    else
      match FieldAt(b, Fields(b, 0, k).offset)
      case ParseError => None
      case Parsed(content, _) =>
        if !IsPoint(k) then ScalarOf(content) else if PointOk(valid, content) then PointOf(content) else None
  }

  /** The value after an attempt that may fail: it is set as soon as its field is read, unless that is empty. */
  ghost function ValueAfter(valid: seq<byte> -> bool, b: seq<byte>, before: uint64): uint64 {
    if Reached(valid, b, 6) && Fields(b, 0, 6).value[5] != []
    then (N(256, Fields(b, 0, 6).value[5]) % TWO64) as uint64 else before
  }

  ghost function InfoAfter(valid: seq<byte> -> bool, b: seq<byte>, before: seq<byte>): seq<byte> {
    if !Reached(valid, b, 6) then before
    else
      match FieldAt(b, Fields(b, 0, 6).offset)
      case ParseError => []
      case Parsed(content, _) => content
  }

  /** The coin after an attempt that may fail. */
  ghost function After(valid: seq<byte> -> bool, b: seq<byte>, p: Plain): Plain {
    if b == [] then p
    else
      Plain(KeyAfter(valid, b, 0, p.publicKey), KeyAfter(valid, b, 1, p.commitment),
            KeyAfter(valid, b, 2, p.snDerivator), KeyAfter(valid, b, 3, p.serialNumber),
            KeyAfter(valid, b, 4, p.randomness), ValueAfter(valid, b, p.value), InfoAfter(valid, b, p.info))
  }

  /** Reading comes no further than to a bad field. */
  lemma {:induction false} NotBeyond(valid: seq<byte> -> bool, b: seq<byte>, k: nat, n: nat)
    requires k <= n && !Reached(valid, b, k)
    ensures !Reached(valid, b, n)
    decreases n
  {
    if k < n {
      NotBeyond(valid, b, k, n - 1);
    }
  }

  lemma NoneBeyond(valid: seq<byte> -> bool, b: seq<byte>, k: nat)
    requires !Reached(valid, b, k)
    ensures forall n :: k <= n ==> !Reached(valid, b, n)
  {
    forall n | k <= n {
      NotBeyond(valid, b, k, n);
    }
  }

  /** One more field read. */
  lemma ReadMore(valid: seq<byte> -> bool, b: seq<byte>, fields: seq<seq<byte>>, offset: nat)
    requires ReadSoFar(valid, b, fields, offset)
    ensures Reached(valid, b, |fields|)
    ensures var f := FieldAt(b, offset);
      && (Reached(valid, b, |fields| + 1) <==>
            f.Parsed? && (IsPoint(|fields|) ==> PointOk(valid, f.value)))
      && (Reached(valid, b, |fields| + 1) ==> ReadSoFar(valid, b, fields + [f.value], f.offset))
  {
  }

  /** Reading the next field as a point or as a scalar. */
  method NextPoint(valid: seq<byte> -> bool, b: seq<byte>, offset: nat, ghost fields: seq<seq<byte>>)
    returns (r: Parsed<Option<Key>>, ghost content: seq<byte>)
    requires IsPoint(|fields|) && ReadSoFar(valid, b, fields, offset)
    ensures r.Parsed? <==> Reached(valid, b, |fields| + 1)
    ensures r.Parsed? ==> ReadSoFar(valid, b, fields + [content], r.offset) && r.value == PointOf(content)
    ensures forall before ::
      KeyAfter(valid, b, |fields|, before) == if r.Parsed? then r.value else None
  {
    ReadMore(valid, b, fields, offset);
    r := ParsePoint(valid, b, offset);
    content := if r.Parsed? then FieldAt(b, offset).value else [];
  }

  method NextScalar(ghost valid: seq<byte> -> bool, b: seq<byte>, offset: nat, ghost fields: seq<seq<byte>>)
    returns (r: Parsed<Option<Key>>, ghost content: seq<byte>)
    requires !IsPoint(|fields|) && ReadSoFar(valid, b, fields, offset)
    ensures r.Parsed? <==> Reached(valid, b, |fields| + 1)
    ensures r.Parsed? ==> ReadSoFar(valid, b, fields + [content], r.offset) && r.value == ScalarOf(content)
    ensures forall before ::
      KeyAfter(valid, b, |fields|, before) == if r.Parsed? then r.value else None
  {
    ReadMore(valid, b, fields, offset);
    r := ParseScalar(b, offset);
    content := if r.Parsed? then FieldAt(b, offset).value else [];
  }

  /** A coin that is read is the one its seven fields stand for. */
  lemma AfterIsMeaning(valid: seq<byte> -> bool, b: seq<byte>, p: Plain)
    requires Readable(valid, b)
    ensures After(valid, b, p) == Meaning(Fields(b, 0, 7).value, p.value)
  {
    Part(valid, b, 0);
    Part(valid, b, 1);
    Part(valid, b, 2);
    Part(valid, b, 3);
    Part(valid, b, 4);
    Part(valid, b, 5);
    Part(valid, b, 6);
    FieldsPrefix(b, 0, 6, 7);
  }

  lemma Part(valid: seq<byte> -> bool, b: seq<byte>, k: nat)
    requires Readable(valid, b) && k < 7
    ensures Reached(valid, b, k)
    ensures FieldAt(b, Fields(b, 0, k).offset).Parsed?
    ensures FieldAt(b, Fields(b, 0, k).offset).value == Fields(b, 0, 7).value[k]
    ensures b != []
  {
    FieldsPrefix(b, 0, k, 7);
    FieldsPrefix(b, 0, k + 1, 7);
    FieldsPrefix(b, 0, 0, 7);
    FieldsPrefix(b, 0, 1, 7);
    assert Fields(b, 0, k + 1).value[k] == Fields(b, 0, 7).value[k];
  }

  lemma ContentsMean(valid: seq<byte> -> bool, p: Plain, before: uint64)
    ensures KeysOk(valid, Contents(p)) <==> PointsValid(valid, p)
    ensures Meaning(Contents(p), before) ==
            p.(value := if p.value == 0 then before else p.value, info := Cut(p.info))
  {
    var f := Contents(p);
    assert IsPoint(0) && IsPoint(1) && IsPoint(3);
    assert KeysOk(valid, f) ==> PointOk(valid, f[0]) && PointOk(valid, f[1]) && PointOk(valid, f[3]);
    ValueBytes(p.value);
    KeyBack(p.publicKey);
    KeyBack(p.commitment);
    KeyBack(p.snDerivator);
    KeyBack(p.serialNumber);
    KeyBack(p.randomness);
  }

  /** Written bytes are read back exactly when the points are valid; the info is cut to 255 bytes, and a coin of
      value zero takes the value that its receiver had. */
  lemma RoundTrip(valid: seq<byte> -> bool, p: Plain, before: uint64)
    ensures Readable(valid, All(Contents(p))) <==> PointsValid(valid, p)
    ensures PointsValid(valid, p) ==>
              Meaning(Fields(All(Contents(p)), 0, 7).value, before) ==
              p.(value := if p.value == 0 then before else p.value, info := Cut(p.info))
    ensures PointsValid(valid, p) && |p.info| <= 255 && p.value > 0 ==>
              Meaning(Fields(All(Contents(p)), 0, 7).value, before) == p
  {
    var f := Contents(p);
    FieldsWritten([], f, []);
    assert [] + All(f) + [] == All(f);
    ContentsMean(valid, p, before);
    if |p.info| <= 255 {
      KeptWhole(p.info);
    }
  }

  /** What reading written bytes leaves, whatever was there before. */
  lemma WrittenIsRead(valid: seq<byte> -> bool, p: Plain, q: Plain)
    requires PointsValid(valid, p)
    ensures Readable(valid, All(Contents(p)))
    ensures After(valid, All(Contents(p)), q) ==
            p.(value := if p.value == 0 then q.value else p.value, info := Cut(p.info))
  {
    RoundTrip(valid, p, q.value);
    AfterIsMeaning(valid, All(Contents(p)), q);
  }

  lemma {:induction false} Length(p: Plain)
    ensures 7 <= |All(Contents(p))| <= 430
  {
    var f := Contents(p);
    ValueBytes(p.value);
    FieldsLength(f, 7);
    assert f[..7] == f;
    assert Sizes(f, 1) == Sizes(f, 0) + 1 + |f[0]|;
    assert Sizes(f, 2) == Sizes(f, 1) + 1 + |f[1]|;
    assert Sizes(f, 3) == Sizes(f, 2) + 1 + |f[2]|;
    assert Sizes(f, 4) == Sizes(f, 3) + 1 + |f[3]|;
    assert Sizes(f, 5) == Sizes(f, 4) + 1 + |f[4]|;
    assert Sizes(f, 6) == Sizes(f, 5) + 1 + |f[5]|;
    assert Sizes(f, 7) == Sizes(f, 6) + 1 + |f[6]|;
    assert |f[0]| <= 32 && |f[1]| <= 32 && |f[2]| <= 32 && |f[3]| <= 32 && |f[4]| <= 32 && |f[5]| <= 8;
  }

  function Sizes(f: seq<seq<byte>>, k: nat): nat
    requires k <= |f|
  {
    if k == 0 then 0 else Sizes(f, k - 1) + 1 + |f[k - 1]|
  }

  lemma {:induction false} FieldsLength(f: seq<seq<byte>>, k: nat)
    requires Short(f) && k <= |f|
    ensures |All(f[..k])| == Sizes(f, k)
  {
    if k > 0 {
      FieldsLength(f, k - 1);
      assert f[..k][..k - 1] == f[..k - 1];
    }
  }

  class PlainCoinV1 {
    var publicKey: Option<Key>
    var commitment: Option<Key>
    var snDerivator: Option<Key>
    var serialNumber: Option<Key>
    var randomness: Option<Key>
    var value: uint64
    var info: seq<byte>

    constructor ()
      ensures View() == Plain(None, None, None, None, None, 0, [])
    {
      publicKey, commitment, snDerivator, serialNumber, randomness := None, None, None, None, None;
      value, info := 0, [];
    }

    function View(): Plain
      reads this
    {
      Plain(publicKey, commitment, snDerivator, serialNumber, randomness, value, info)
    }

    method ToBytes() returns (coinBytes: seq<byte>)
      ensures coinBytes == All(Contents(View()))
    {
      var c := View();
      ghost var f := Contents(c);
      ValueBytes(c.value);
      coinBytes := [];
      coinBytes := Append(coinBytes, Content(publicKey), f, 0);
      coinBytes := Append(coinBytes, Content(commitment), f, 1);
      coinBytes := Append(coinBytes, Content(snDerivator), f, 2);
      coinBytes := Append(coinBytes, Content(serialNumber), f, 3);
      coinBytes := Append(coinBytes, Content(randomness), f, 4);
      coinBytes := Append(coinBytes, BigEndian(value as nat), f, 5);
      coinBytes := Append(coinBytes, Cut(info), f, 6);
      assert f[..7] == f;
    }

    /** The five keys, or as many as can be read. */
    method SetKeys(valid: seq<byte> -> bool, coinBytes: seq<byte>)
      returns (ok: bool, offset: nat, ghost fields: seq<seq<byte>>)
      modifies this`publicKey, this`commitment, this`snDerivator, this`serialNumber, this`randomness
      ensures ok <==> Reached(valid, coinBytes, 5)
      ensures ok ==> |fields| == 5 && ReadSoFar(valid, coinBytes, fields, offset)
      ensures publicKey == KeyAfter(valid, coinBytes, 0, old(publicKey))
      ensures commitment == KeyAfter(valid, coinBytes, 1, old(commitment))
      ensures snDerivator == KeyAfter(valid, coinBytes, 2, old(snDerivator))
      ensures serialNumber == KeyAfter(valid, coinBytes, 3, old(serialNumber))
      ensures randomness == KeyAfter(valid, coinBytes, 4, old(randomness))
    {
      ok, offset, fields := false, 0, [];
      ghost var c;
      var point, scalar;
      point, c := NextPoint(valid, coinBytes, offset, fields);
      if point.ParseError? {
        publicKey := None;
        NoneBeyond(valid, coinBytes, 1);
        return;
      }
      publicKey, offset := point.value, point.offset;
      fields := fields + [c];
      point, c := NextPoint(valid, coinBytes, offset, fields);
      if point.ParseError? {
        commitment := None;
        NoneBeyond(valid, coinBytes, 2);
        return;
      }
      commitment, offset := point.value, point.offset;
      fields := fields + [c];
      scalar, c := NextScalar(valid, coinBytes, offset, fields);
      if scalar.ParseError? {
        snDerivator := None;
        NoneBeyond(valid, coinBytes, 3);
        return;
      }
      snDerivator, offset := scalar.value, scalar.offset;
      fields := fields + [c];
      point, c := NextPoint(valid, coinBytes, offset, fields);
      if point.ParseError? {
        serialNumber := None;
        NoneBeyond(valid, coinBytes, 4);
        return;
      }
      serialNumber, offset := point.value, point.offset;
      fields := fields + [c];
      scalar, c := NextScalar(valid, coinBytes, offset, fields);
      if scalar.ParseError? {
        randomness := None;
        return;
      }
      randomness, offset := scalar.value, scalar.offset;
      fields := fields + [c];
      ok := true;
    }

    /** The value, which an empty field leaves alone, and the info. */
    method SetValueAndInfo(valid: seq<byte> -> bool, coinBytes: seq<byte>, start: nat,
        ghost fields: seq<seq<byte>>)
      returns (ok: bool)
      requires |fields| == 5 && ReadSoFar(valid, coinBytes, fields, start)
      modifies this`value, this`info
      ensures ok <==> Readable(valid, coinBytes)
      ensures value == ValueAfter(valid, coinBytes, old(value)) && info == InfoAfter(valid, coinBytes, old(info))
    {
      var offset := start;
      ReadMore(valid, coinBytes, fields, offset);
      if offset >= |coinBytes| || offset + 1 + coinBytes[offset] as nat > |coinBytes| {
        NotBeyond(valid, coinBytes, 6, 7);
        return false;
      }
      var content := FieldAt(coinBytes, offset).value;
      if content != [] {
        value := (N(256, content) % TWO64) as uint64;
      }
      offset := offset + 1 + |content|;
      ReadMore(valid, coinBytes, fields + [content], offset);
      var rest := FieldAt(coinBytes, offset);
      info := if rest.Parsed? then rest.value else [];
      ok := rest.Parsed?;
    }

    /** Succeeds exactly on bytes that hold the seven fields with valid points; a failed attempt leaves what it has
        read, and nothing in the key at which it failed. */
    method SetBytes(valid: seq<byte> -> bool, coinBytes: seq<byte>) returns (ok: bool)
      modifies this
      ensures ok <==> Readable(valid, coinBytes)
      ensures View() == After(valid, coinBytes, old(View()))
      ensures ok ==> View() == Meaning(Fields(coinBytes, 0, 7).value, old(value))
    {
      if |coinBytes| == 0 {
        ReadMore(valid, coinBytes, [], 0);
        NotBeyond(valid, coinBytes, 1, 7);
        return false;
      }
      var offset;
      ghost var fields;
      ok, offset, fields := SetKeys(valid, coinBytes);
      if ok {
        ok := SetValueAndInfo(valid, coinBytes, offset, fields);
        if ok {
          AfterIsMeaning(valid, coinBytes, old(View()));
        }
      } else {
        NotBeyond(valid, coinBytes, 5, 6);
        NotBeyond(valid, coinBytes, 5, 7);
      }
    }
  }
}
