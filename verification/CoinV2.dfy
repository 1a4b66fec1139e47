/** The bytes of a CoinV2 (coin/coin_v2.go): a version byte and ten length-prefixed fields, the last of which old
    coins lack. */
module CoinV2 {
  import opened Bytes
  import opened CoinFields
  import opened Options

  const TX_RANDOM_GROUP_SIZE: nat := 68

  datatype Fields2 = Fields2(info: seq<byte>, publicKey: Option<Key>, commitment: Option<Key>, keyImage: Option<Key>,
    sharedRandom: Option<Key>, sharedConcealRandom: Option<Key>, txRandom: Option<seq<byte>>, mask: Option<Key>,
    amount: Option<Key>, assetTag: Option<Key>)

  predicate Sized(c: Fields2) {
    c.txRandom.Some? ==> |c.txRandom.value| == TX_RANDOM_GROUP_SIZE
  }

  function Contents(c: Fields2): (fields: seq<seq<byte>>)
    requires Sized(c)
    ensures |fields| == 10 && Short(fields)
  {
    [Cut(c.info), Content(c.publicKey), Content(c.commitment), Content(c.keyImage), Content(c.sharedRandom),
      Content(c.sharedConcealRandom), if c.txRandom.Some? then c.txRandom.value else [], Content(c.mask),
      Content(c.amount), Content(c.assetTag)]
  }

  /** The two points of a transaction random value; its index stands between them. */
  predicate TxRandomOk(valid: seq<byte> -> bool, t: seq<byte>) {
    |t| == TX_RANDOM_GROUP_SIZE && valid(t[..32]) && valid(t[36..])
  }

  predicate IsPoint(k: nat) {
    k == 1 || k == 2 || k == 3
  }

  /** The points and the transaction random value among these first fields are good. */
  predicate KeysOk(valid: seq<byte> -> bool, fields: seq<seq<byte>>) {
    && (forall k :: 0 <= k < |fields| && IsPoint(k) ==> PointOk(valid, fields[k]))
    && (|fields| > 6 ==> TxRandomOk(valid, fields[6]))
  }

  /** The bytes start with the version and n good fields. */
  ghost predicate Reached(valid: seq<byte> -> bool, b: seq<byte>, n: nat) {
    && |b| > 0 && b[0] == 2
    && Fields(b, 1, n).Parsed? && |Fields(b, 1, n).value| == n && KeysOk(valid, Fields(b, 1, n).value)
  }

  /** The bytes start with the version and nine good fields, and what follows is nothing or a point. */
  ghost predicate Readable(valid: seq<byte> -> bool, b: seq<byte>) {
    Reached(valid, b, 9) &&
    (Fields(b, 1, 9).offset < |b| ==> ParsePoint(valid, b, Fields(b, 1, 9).offset).Parsed?)
  }

  ghost function Meaning(valid: seq<byte> -> bool, b: seq<byte>): Fields2
    requires Readable(valid, b)
  {
    var f := Fields(b, 1, 9).value;
    var end := Fields(b, 1, 9).offset;
    Fields2(f[0], PointOf(f[1]), PointOf(f[2]), PointOf(f[3]), ScalarOf(f[4]), ScalarOf(f[5]), Some(f[6]),
            ScalarOf(f[7]), ScalarOf(f[8]), if end < |b| then ParsePoint(valid, b, end).value else None)
  }

  // ---- What an attempt leaves ----

  /** The content of the field after the first k, when reading comes so far. */
  ghost function FieldRead(valid: seq<byte> -> bool, b: seq<byte>, k: nat): Option<Parsed<seq<byte>>> {
    if Reached(valid, b, k) then Some(FieldAt(b, Fields(b, 1, k).offset)) else None
  }

  ghost function InfoAfter(valid: seq<byte> -> bool, b: seq<byte>, before: seq<byte>): seq<byte> {
    match FieldRead(valid, b, 0)
    case None => before
    case Some(ParseError) => []
    case Some(Parsed(content, _)) => content
  }

  /** The key that the field after the first k stands for, nothing when it is bad, and the old key when reading does
      not come so far. */
  ghost function KeyAfter(valid: seq<byte> -> bool, b: seq<byte>, k: nat, before: Option<Key>): Option<Key> {
    match FieldRead(valid, b, k)
    case None => before
    case Some(ParseError) => None
    case Some(Parsed(content, _)) =>
      if !IsPoint(k) then ScalarOf(content) else if PointOk(valid, content) then PointOf(content) else None
  }

  /** A transaction random value of the right size replaces the old one, by a blank one when its points are bad. */
  ghost function TxRandomAfter(valid: seq<byte> -> bool, b: seq<byte>, before: Option<seq<byte>>): Option<seq<byte>> {
    match FieldRead(valid, b, 6)
    case None => before
    case Some(ParseError) => before
    case Some(Parsed(content, _)) =>
      if |content| != 68 then before else if TxRandomOk(valid, content) then Some(content) else Some(BlankTxRandom())
  }

  ghost function TagAfter(valid: seq<byte> -> bool, b: seq<byte>, before: Option<Key>): Option<Key> {
    if !Reached(valid, b, 9) then before
    else if Fields(b, 1, 9).offset >= |b| then None
    else
      var point := ParsePoint(valid, b, Fields(b, 1, 9).offset);
      if point.Parsed? then point.value else None
  }

  /** The coin after an attempt that may fail. */
  ghost function After(valid: seq<byte> -> bool, b: seq<byte>, c: Fields2): Fields2 {
    Fields2(InfoAfter(valid, b, c.info), KeyAfter(valid, b, 1, c.publicKey), KeyAfter(valid, b, 2, c.commitment),
            KeyAfter(valid, b, 3, c.keyImage), KeyAfter(valid, b, 4, c.sharedRandom),
            KeyAfter(valid, b, 5, c.sharedConcealRandom), TxRandomAfter(valid, b, c.txRandom),
            KeyAfter(valid, b, 7, c.mask), KeyAfter(valid, b, 8, c.amount), TagAfter(valid, b, c.assetTag))
  }

  /** No index, and the identity as one of the points. */
  function BlankTxRandom(): (t: seq<byte>)
    ensures |t| == 68 && t[36] == 1 && forall k :: 0 <= k < 68 && k != 36 ==> t[k] == 0
  {
    seq(TX_RANDOM_GROUP_SIZE, k => if k == 36 then 1 else 0)
  }

  // ---- Reading ----

  ghost predicate ReadSoFar(valid: seq<byte> -> bool, b: seq<byte>, fields: seq<seq<byte>>, offset: nat) {
    |b| > 0 && b[0] == 2 && Fields(b, 1, |fields|) == Parsed(fields, offset) && KeysOk(valid, fields)
  }

  /** Reading comes no further than to a bad field. */
  lemma {:induction false} NotBeyond(valid: seq<byte> -> bool, b: seq<byte>, k: nat, n: nat)
    requires k <= n && !Reached(valid, b, k)
    ensures !Reached(valid, b, n)
    decreases n
  {
    if k < n {
      NotBeyond(valid, b, k, n - 1);
    }
  }

  lemma NoneBeyond(valid: seq<byte> -> bool, b: seq<byte>, k: nat)
    requires !Reached(valid, b, k)
    ensures forall n :: k <= n ==> !Reached(valid, b, n)
  {
    forall n | k <= n {
      NotBeyond(valid, b, k, n);
    }
  }

  /** One more field read. */
  lemma ReadMore(valid: seq<byte> -> bool, b: seq<byte>, fields: seq<seq<byte>>, offset: nat)
    requires ReadSoFar(valid, b, fields, offset)
    ensures Reached(valid, b, |fields|)
    ensures var f := FieldAt(b, offset);
      && FieldRead(valid, b, |fields|) == Some(f)
      && (Reached(valid, b, |fields| + 1) <==>
            && f.Parsed? && (IsPoint(|fields|) ==> PointOk(valid, f.value))
            && (|fields| == 6 ==> TxRandomOk(valid, f.value)))
      && (Reached(valid, b, |fields| + 1) ==> ReadSoFar(valid, b, fields + [f.value], f.offset))
  {
  }

  method NextPoint(valid: seq<byte> -> bool, b: seq<byte>, offset: nat, ghost fields: seq<seq<byte>>)
    returns (r: Parsed<Option<Key>>, ghost content: seq<byte>)
    requires IsPoint(|fields|) && ReadSoFar(valid, b, fields, offset)
    ensures r.Parsed? <==> Reached(valid, b, |fields| + 1)
    ensures r.Parsed? ==> ReadSoFar(valid, b, fields + [content], r.offset) && r.value == PointOf(content)
    ensures forall before :: KeyAfter(valid, b, |fields|, before) == if r.Parsed? then r.value else None
  {
    ReadMore(valid, b, fields, offset);
    r := ParsePoint(valid, b, offset);
    content := if r.Parsed? then FieldAt(b, offset).value else [];
  }

  method NextScalar(ghost valid: seq<byte> -> bool, b: seq<byte>, offset: nat, ghost fields: seq<seq<byte>>)
    returns (r: Parsed<Option<Key>>, ghost content: seq<byte>)
    requires !IsPoint(|fields|) && |fields| != 6 && ReadSoFar(valid, b, fields, offset)
    ensures r.Parsed? <==> Reached(valid, b, |fields| + 1)
    ensures r.Parsed? ==> ReadSoFar(valid, b, fields + [content], r.offset) && r.value == ScalarOf(content)
    ensures forall before :: KeyAfter(valid, b, |fields|, before) == if r.Parsed? then r.value else None
  {
    ReadMore(valid, b, fields, offset);
    r := ParseScalar(b, offset);
    content := if r.Parsed? then FieldAt(b, offset).value else [];
  }

  /** The transaction random value read, or a blank one, or None when its length is wrong. */
  method NextTxRandom(valid: seq<byte> -> bool, b: seq<byte>, offset: nat, ghost fields: seq<seq<byte>>)
    returns (ok: bool, t: Option<seq<byte>>)
    requires |fields| == 6 && ReadSoFar(valid, b, fields, offset)
    ensures ok <==> Reached(valid, b, 7)
    ensures ok ==> t.Some? && ReadSoFar(valid, b, fields + [t.value], offset + 1 + TX_RANDOM_GROUP_SIZE)
    ensures forall before :: TxRandomAfter(valid, b, before) == if t.Some? then t else before
  {
    ReadMore(valid, b, fields, offset);
    if offset >= |b| || b[offset] as nat != TX_RANDOM_GROUP_SIZE || offset + 1 + TX_RANDOM_GROUP_SIZE > |b| {
      return false, None;
    }
    var content := b[offset + 1..offset + 1 + TX_RANDOM_GROUP_SIZE];
    ok := valid(content[..32]) && valid(content[36..]);
    t := Some(if ok then content else BlankTxRandom());
  }

  /** A coin that is read is the one its fields stand for. */
  lemma AfterIsMeaning(valid: seq<byte> -> bool, b: seq<byte>, c: Fields2)
    requires Readable(valid, b)
    ensures After(valid, b, c) == Meaning(valid, b)
  {
    ReadPart(valid, b, 0);
    ReadPart(valid, b, 1);
    ReadPart(valid, b, 2);
    ReadPart(valid, b, 3);
    ReadPart(valid, b, 4);
    ReadPart(valid, b, 5);
    ReadPart(valid, b, 6);
    ReadPart(valid, b, 7);
    ReadPart(valid, b, 8);
  }

  lemma ReadPart(valid: seq<byte> -> bool, b: seq<byte>, k: nat)
    requires Reached(valid, b, 9) && k < 9
    ensures FieldRead(valid, b, k).Some? && FieldRead(valid, b, k).value.Parsed?
    ensures FieldRead(valid, b, k).value.value == Fields(b, 1, 9).value[k]
  {
    FieldsPrefix(b, 1, k, 9);
    FieldsPrefix(b, 1, k + 1, 9);
    assert Fields(b, 1, k + 1).value[k] == Fields(b, 1, 9).value[k];
  }

  class CoinV2 {
    var info: seq<byte>
    var publicKey: Option<Key>
    var commitment: Option<Key>
    var keyImage: Option<Key>
    var sharedRandom: Option<Key>
    var sharedConcealRandom: Option<Key>
    var txRandom: Option<seq<byte>>
    var mask: Option<Key>
    var amount: Option<Key>
    var assetTag: Option<Key>

    constructor (c: Fields2)
      ensures View() == c
    {
      info, publicKey, commitment, keyImage := c.info, c.publicKey, c.commitment, c.keyImage;
      sharedRandom, sharedConcealRandom, txRandom := c.sharedRandom, c.sharedConcealRandom, c.txRandom;
      mask, amount, assetTag := c.mask, c.amount, c.assetTag;
    }

    function View(): Fields2
      reads this
    {
      Fields2(info, publicKey, commitment, keyImage, sharedRandom, sharedConcealRandom, txRandom, mask, amount,
              assetTag)
    }

    method ToBytes() returns (coinBytes: seq<byte>)
      requires Sized(View())
      ensures coinBytes == [2] + All(Contents(View()))
    {
      ghost var f := Contents(View());
      coinBytes := ToBytesHead(f);
      coinBytes := Append(coinBytes, Content(sharedConcealRandom), f, 5);
      coinBytes := Append(coinBytes, if txRandom.Some? then txRandom.value else [], f, 6);
      coinBytes := Append(coinBytes, Content(mask), f, 7);
      coinBytes := Append(coinBytes, Content(amount), f, 8);
      coinBytes := Append(coinBytes, Content(assetTag), f, 9);
      assert f[..10] == f;
      coinBytes := [2] + coinBytes;
    }

    method ToBytesHead(ghost f: seq<seq<byte>>) returns (coinBytes: seq<byte>)
      requires Sized(View()) && f == Contents(View())
      ensures coinBytes == All(f[..5])
    {
      coinBytes := [];
      coinBytes := Append(coinBytes, Cut(info), f, 0);
      coinBytes := Append(coinBytes, Content(publicKey), f, 1);
      coinBytes := Append(coinBytes, Content(commitment), f, 2);
      coinBytes := Append(coinBytes, Content(keyImage), f, 3);
      coinBytes := Append(coinBytes, Content(sharedRandom), f, 4);
    }

    /** The info and the three points. */
    method SetPoints(valid: seq<byte> -> bool, coinBytes: seq<byte>)
      returns (ok: bool, offset: nat, ghost fields: seq<seq<byte>>)
      requires |coinBytes| > 0 && coinBytes[0] == 2
      modifies this`info, this`publicKey, this`commitment, this`keyImage
      ensures ok <==> Reached(valid, coinBytes, 4)
      ensures ok ==> |fields| == 4 && ReadSoFar(valid, coinBytes, fields, offset)
      ensures info == InfoAfter(valid, coinBytes, old(info))
      ensures publicKey == KeyAfter(valid, coinBytes, 1, old(publicKey))
      ensures commitment == KeyAfter(valid, coinBytes, 2, old(commitment))
      ensures keyImage == KeyAfter(valid, coinBytes, 3, old(keyImage))
    {
      ok, offset, fields := false, 1, [];
      ReadMore(valid, coinBytes, fields, offset);
      var first := FieldAt(coinBytes, offset);
      info := if first.Parsed? then first.value else [];
      if first.ParseError? {
        NoneBeyond(valid, coinBytes, 1);
        return;
      }
      fields, offset := fields + [first.value], first.offset;
      var point;
      ghost var c;
      point, c := NextPoint(valid, coinBytes, offset, fields);
      if point.ParseError? {
        publicKey := None;
        NoneBeyond(valid, coinBytes, 2);
        return;
      }
      publicKey, offset := point.value, point.offset;
      fields := fields + [c];
      point, c := NextPoint(valid, coinBytes, offset, fields);
      if point.ParseError? {
        commitment := None;
        NoneBeyond(valid, coinBytes, 3);
        return;
      }
      commitment, offset := point.value, point.offset;
      fields := fields + [c];
      point, c := NextPoint(valid, coinBytes, offset, fields);
      if point.ParseError? {
        keyImage := None;
        NoneBeyond(valid, coinBytes, 4);
        return;
      }
      keyImage, offset := point.value, point.offset;
      fields := fields + [c];
      ok := true;
    }

    /** The shared random values and the transaction random value. */
    method SetRandoms(valid: seq<byte> -> bool, coinBytes: seq<byte>, start: nat, ghost before: seq<seq<byte>>)
      returns (ok: bool, offset: nat, ghost fields: seq<seq<byte>>)
      requires |before| == 4 && ReadSoFar(valid, coinBytes, before, start)
      modifies this`sharedRandom, this`sharedConcealRandom, this`txRandom
      ensures ok <==> Reached(valid, coinBytes, 7)
      ensures ok ==> |fields| == 7 && ReadSoFar(valid, coinBytes, fields, offset)
      ensures sharedRandom == KeyAfter(valid, coinBytes, 4, old(sharedRandom))
      ensures sharedConcealRandom == KeyAfter(valid, coinBytes, 5, old(sharedConcealRandom))
      ensures txRandom == TxRandomAfter(valid, coinBytes, old(txRandom))
    {
      ok, offset, fields := false, start, before;
      var scalar;
      ghost var c;
      scalar, c := NextScalar(valid, coinBytes, offset, fields);
      if scalar.ParseError? {
        sharedRandom := None;
        NoneBeyond(valid, coinBytes, 5);
        return;
      }
      sharedRandom, offset := scalar.value, scalar.offset;
      fields := fields + [c];
      scalar, c := NextScalar(valid, coinBytes, offset, fields);
      if scalar.ParseError? {
        sharedConcealRandom := None;
        NoneBeyond(valid, coinBytes, 6);
        return;
      }
      sharedConcealRandom, offset := scalar.value, scalar.offset;
      fields := fields + [c];
      var t;
      ok, t := NextTxRandom(valid, coinBytes, offset, fields);
      if t.Some? {
        txRandom := t;
      }
      if ok {
        offset := offset + 1 + TX_RANDOM_GROUP_SIZE;
        fields := fields + [t.value];
      }
    }

    /** The mask and the amount. */
    method SetAmounts(valid: seq<byte> -> bool, coinBytes: seq<byte>, start: nat, ghost before: seq<seq<byte>>)
      returns (ok: bool, offset: nat, ghost fields: seq<seq<byte>>)
      requires |before| == 7 && ReadSoFar(valid, coinBytes, before, start)
      modifies this`mask, this`amount
      ensures ok <==> Reached(valid, coinBytes, 9)
      ensures ok ==> |fields| == 9 && ReadSoFar(valid, coinBytes, fields, offset)
      ensures mask == KeyAfter(valid, coinBytes, 7, old(mask))
      ensures amount == KeyAfter(valid, coinBytes, 8, old(amount))
    {
      ok, offset, fields := false, start, before;
      var scalar;
      ghost var c;
      scalar, c := NextScalar(valid, coinBytes, offset, fields);
      if scalar.ParseError? {
        mask := None;
        NoneBeyond(valid, coinBytes, 8);
        return;
      }
      mask, offset := scalar.value, scalar.offset;
      fields := fields + [c];
      scalar, c := NextScalar(valid, coinBytes, offset, fields);
      if scalar.ParseError? {
        amount := None;
        return;
      }
      amount, offset := scalar.value, scalar.offset;
      fields := fields + [c];
      ok := true;
    }

    /** The asset tag, which old coins lack. */
    method SetTag(valid: seq<byte> -> bool, coinBytes: seq<byte>, offset: nat, ghost fields: seq<seq<byte>>)
      returns (ok: bool)
      requires |fields| == 9 && ReadSoFar(valid, coinBytes, fields, offset)
      modifies this`assetTag
      ensures ok <==> Readable(valid, coinBytes)
      ensures assetTag == TagAfter(valid, coinBytes, old(assetTag))
    {
      ReadMore(valid, coinBytes, fields, offset);
      if offset >= |coinBytes| {
        assetTag := None;
        return true;
      }
      var point := ParsePoint(valid, coinBytes, offset);
      assetTag := if point.Parsed? then point.value else None;
      ok := point.Parsed?;
    }

    /** Succeeds exactly on bytes that hold a coin, whatever the receiver held before; a failed attempt leaves what it
        has read. */
    method SetBytes(valid: seq<byte> -> bool, coinBytes: seq<byte>) returns (ok: bool)
      modifies this
      ensures ok <==> Readable(valid, coinBytes)
      ensures View() == After(valid, coinBytes, old(View()))
      ensures ok ==> View() == Meaning(valid, coinBytes)
    {
      if |coinBytes| == 0 || coinBytes[0] != 2 {
        return false;
      }
      var offset;
      ghost var f;
      ok, offset, f := SetPoints(valid, coinBytes);
      if !ok {
        NoneBeyond(valid, coinBytes, 4);
        return;
      }
      ok, offset, f := SetRandoms(valid, coinBytes, offset, f);
      if !ok {
        NoneBeyond(valid, coinBytes, 7);
        return;
      }
      ok, offset, f := SetAmounts(valid, coinBytes, offset, f);
      if !ok {
        NoneBeyond(valid, coinBytes, 9);
        return;
      }
      ok := SetTag(valid, coinBytes, offset, f);
      if ok {
        AfterIsMeaning(valid, coinBytes, old(View()));
      }
    }
  }

  /** When the points of a coin are valid and its transaction random value is there. */
  predicate Valid(valid: seq<byte> -> bool, c: Fields2) {
    && PointOk(valid, Content(c.publicKey)) && PointOk(valid, Content(c.commitment))
    && PointOk(valid, Content(c.keyImage)) && PointOk(valid, Content(c.assetTag))
    && c.txRandom.Some? && TxRandomOk(valid, c.txRandom.value)
  }

  lemma ContentsMean(valid: seq<byte> -> bool, c: Fields2)
    requires Sized(c)
    ensures var f := Contents(c);
      && (KeysOk(valid, f[..9]) && PointOk(valid, f[9]) <==> Valid(valid, c))
      && ScalarOf(f[4]) == c.sharedRandom && ScalarOf(f[5]) == c.sharedConcealRandom
      && ScalarOf(f[7]) == c.mask && ScalarOf(f[8]) == c.amount
      && PointOf(f[1]) == c.publicKey && PointOf(f[2]) == c.commitment && PointOf(f[3]) == c.keyImage
      && PointOf(f[9]) == c.assetTag
  {
    KeyBack(c.sharedRandom);
    KeyBack(c.sharedConcealRandom);
    KeyBack(c.mask);
    KeyBack(c.amount);
    var f := Contents(c)[..9];
    assert IsPoint(1) && IsPoint(2) && IsPoint(3);
    assert KeysOk(valid, f) ==> PointOk(valid, f[1]) && PointOk(valid, f[2]) && PointOk(valid, f[3]);
  }

  /** The first nine fields of written bytes. */
  lemma NineWritten(c: Fields2, post: seq<byte>)
    requires Sized(c)
    ensures var f := Contents(c)[..9];
      Short(f) && Fields([2] + All(f) + post, 1, 9) == Parsed(f, 1 + |All(f)|)
  {
    FieldsWritten([2], Contents(c)[..9], post);
  }

  /** A list of fields and one more. */
  lemma FieldsAndLast(pre: seq<byte>, fields: seq<seq<byte>>, last: seq<byte>)
    requires Short(fields) && |last| < 0x100
    ensures Short(fields + [last])
    ensures var b := pre + All(fields + [last]); var n := |pre| + |All(fields)|;
      Fields(b, |pre|, |fields|) == Parsed(fields, n) && n < |b| && FieldAt(b, n) == Parsed(last, |b|)
  {
    AllMore(fields, last);
    FieldsWritten(pre, fields, Field(last));
    FieldFollows(pre + All(fields), last, []);
    Joined(pre, All(fields), Field(last));
  }

  lemma Joined(a: seq<byte>, b: seq<byte>, c: seq<byte>)
    ensures a + (b + c) == a + b + c == a + b + c + []
  {
  }

  /** All ten fields of written bytes. */
  lemma TenFields(c: Fields2)
    requires Sized(c)
    ensures var f := Contents(c); var b := [2] + All(f); var n := 1 + |All(f[..9])|;
      && b[0] == 2 && Fields(b, 1, 9) == Parsed(f[..9], n) && n < |b| && FieldAt(b, n) == Parsed(f[9], |b|)
  {
    var f := Contents(c);
    assert f == f[..9] + [f[9]];
    FieldsAndLast([2], f[..9], f[9]);
  }

  lemma TenWritten(valid: seq<byte> -> bool, c: Fields2)
    requires Sized(c)
    ensures Readable(valid, [2] + All(Contents(c))) <==> Valid(valid, c)
    ensures Valid(valid, c) ==> Meaning(valid, [2] + All(Contents(c))) == c.(info := Cut(c.info))
  {
    TenFields(c);
    ContentsMean(valid, c);
  }

  /** Written bytes are read back exactly when the coin's points are valid and it has a transaction random value;
      the info is cut to 255 bytes. */
  lemma RoundTrip(valid: seq<byte> -> bool, c: Fields2)
    requires Sized(c)
    ensures Readable(valid, [2] + All(Contents(c))) <==> Valid(valid, c)
    ensures Valid(valid, c) ==> Meaning(valid, [2] + All(Contents(c))) == c.(info := Cut(c.info))
    ensures Valid(valid, c) && |c.info| <= 255 ==> Meaning(valid, [2] + All(Contents(c))) == c
  {
    TenWritten(valid, c);
    if |c.info| <= 255 {
      KeptWhole(c.info);
    }
  }

  /** Bytes without the last field are read back as a coin without an asset tag. */
  lemma OldFormat(valid: seq<byte> -> bool, c: Fields2)
    requires Sized(c) && c.assetTag == None
    ensures Readable(valid, [2] + All(Contents(c)[..9])) <==> Valid(valid, c)
    ensures Valid(valid, c) ==> Meaning(valid, [2] + All(Contents(c)[..9])) == c.(info := Cut(c.info))
    ensures Valid(valid, c) && |c.info| <= 255 ==> Meaning(valid, [2] + All(Contents(c)[..9])) == c
  {
    NineWritten(c, []);
    assert [2] + All(Contents(c)[..9]) + [] == [2] + All(Contents(c)[..9]);
    ContentsMean(valid, c);
    if |c.info| <= 255 {
      KeptWhole(c.info);
    }
  }
}
