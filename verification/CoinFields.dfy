/** Length-prefixed fields of serialized coins (coin/utils.go): a length byte and that many bytes, with length zero
    for a missing field. */
module CoinFields {
  import opened Bytes
  import opened Digits
  import opened MachineInts
  import opened Options

  /** Points and scalars as their 32 bytes. */
  type Key = k: seq<byte> | |k| == 32 witness seq(32, _ => 0)

  datatype Parsed<+T> = Parsed(value: T, offset: nat) | ParseError

  // ---- Writing ----

  function Field(content: seq<byte>): seq<byte>
    requires |content| < 0x100
  {
    [|content| as byte] + content
  }

  ghost predicate Short(fields: seq<seq<byte>>) {
    forall i :: 0 <= i < |fields| ==> |fields[i]| < 0x100
  }

  function Content(k: Option<Key>): seq<byte> {
    if k.Some? then k.value else []
  }

  ghost function All(fields: seq<seq<byte>>): seq<byte>
    requires Short(fields)
  {
    if fields == [] then [] else All(fields[..|fields| - 1]) + Field(fields[|fields| - 1])
  }

  lemma AllMore(fields: seq<seq<byte>>, f: seq<byte>)
    requires Short(fields) && |f| < 0x100
    ensures Short(fields + [f]) && All(fields + [f]) == All(fields) + Field(f)
  {
    assert (fields + [f])[..|fields|] == fields;
  }

  /** At most 255 bytes of the info are kept. */
  function Cut(info: seq<byte>): (r: seq<byte>)
    ensures r <= info && |r| == if |info| < 255 then |info| else 255
  {
    if |info| < 255 then info else info[..255]
  }

  lemma KeptWhole(info: seq<byte>)
    requires |info| <= 255
    ensures Cut(info) == info
  {
  }

  /** A number in as few bytes as possible, most significant first. */
  function BigEndian(v: nat): seq<byte> {
    if v == 0 then [] else BigEndian(v / 256) + [(v % 256) as byte]
  }

  lemma {:induction false} BigEndianValue(v: nat)
    ensures N(256, BigEndian(v)) == v
    decreases v
  {
    if v > 0 {
      BigEndianValue(v / 256);
      assert BigEndian(v)[..|BigEndian(v)| - 1] == BigEndian(v / 256);
    }
  }

  lemma {:induction false} BigEndianLength(v: nat, n: nat)
    requires v < Pow256(n)
    ensures |BigEndian(v)| <= n
    decreases n
  {
    if v > 0 {
      BigEndianLength(v / 256, n - 1);
    }
  }

  lemma ValueBytes(v: uint64)
    ensures N(256, BigEndian(v as nat)) == v as int && |BigEndian(v as nat)| <= 8
  {
    BigEndianValue(v as nat);
    BigEndianLength(v as nat, 8);
  }

  /** Appends field k of a list of fields. */
  method Append(bytes: seq<byte>, content: seq<byte>, ghost fields: seq<seq<byte>>, ghost k: nat)
    returns (longer: seq<byte>)
    requires k < |fields| && Short(fields) && content == fields[k] && bytes == All(fields[..k])
    ensures longer == All(fields[..k + 1])
  {
    AllMore(fields[..k], content);
    assert fields[..k] + [content] == fields[..k + 1];
    if content != [] {
      longer := bytes + [|content| as byte];
      longer := longer + content;
    } else {
      longer := bytes + [0];
    }
  }

  // ---- Reading ----

  /** The bytes of the field at the offset. */
  function FieldAt(b: seq<byte>, offset: nat): Parsed<seq<byte>> {
    if offset >= |b| then ParseError
    else
      var lenField := b[offset] as nat;
      if offset + 1 + lenField > |b| then ParseError
      else Parsed(b[offset + 1..offset + 1 + lenField], offset + 1 + lenField)
  }

  /** Other lengths than 32 are cut or padded with zeros. */
  function ScalarOf(content: seq<byte>): (k: Option<Key>)
    ensures k.None? <==> content == []
    ensures k.Some? ==> forall i :: 0 <= i < 32 ==> k.value[i] == if i < |content| then content[i] else 0
  {
    if content == [] then None
    else if |content| >= 32 then Some(content[..32])
    else Some(content + seq(32 - |content|, _ => 0))
  }

  /** A point is missing, or 32 bytes that decode. */
  predicate PointOk(valid: seq<byte> -> bool, content: seq<byte>): (ok: bool)
    ensures content == [] ==> ok
    ensures |content| == 32 ==> (ok <==> valid(content))
    ensures |content| != 0 && |content| != 32 ==> !ok
  {
    content == [] || (|content| == 32 && valid(content))
  }

  function PointOf(content: seq<byte>): Option<Key> {
    if |content| == 32 then Some(content) else None
  }

  lemma KeyBack(k: Option<Key>)
    ensures ScalarOf(Content(k)) == k && PointOf(Content(k)) == k
  {
    if k.Some? {
      assert k.value[..32] == k.value;
    }
  }

  function ParseScalar(b: seq<byte>, offset: nat): Parsed<Option<Key>> {
    match FieldAt(b, offset)
    case ParseError => ParseError
    case Parsed(content, next) => Parsed(ScalarOf(content), next)
  }

  function ParsePoint(valid: seq<byte> -> bool, b: seq<byte>, offset: nat): Parsed<Option<Key>> {
    match FieldAt(b, offset)
    case ParseError => ParseError
    case Parsed(content, next) => if PointOk(valid, content) then Parsed(PointOf(content), next) else ParseError
  }

  /** The first n fields from start on. */
  ghost function Fields(b: seq<byte>, start: nat, n: nat): Parsed<seq<seq<byte>>> {
    if n == 0 then Parsed([], start)
    else
      match Fields(b, start, n - 1)
      case ParseError => ParseError
      case Parsed(fields, offset) =>
        match FieldAt(b, offset)
        case ParseError => ParseError
        case Parsed(content, next) => Parsed(fields + [content], next)
  }

  lemma {:induction false} FieldsPrefix(b: seq<byte>, start: nat, k: nat, n: nat)
    requires k <= n && Fields(b, start, n).Parsed?
    ensures |Fields(b, start, n).value| == n && Fields(b, start, k).Parsed?
    ensures Fields(b, start, k).value == Fields(b, start, n).value[..k]
    decreases n
  {
    if n > 0 {
      FieldsPrefix(b, start, if k < n then k else n - 1, n - 1);
      if k == n {
        assert Fields(b, start, n).value[..n] == Fields(b, start, n).value;
      }
    }
  }

  lemma {:induction false} FieldsFail(b: seq<byte>, start: nat, k: nat, n: nat)
    requires k <= n && Fields(b, start, k).ParseError?
    ensures Fields(b, start, n).ParseError?
    decreases n
  {
    if k < n {
      FieldsFail(b, start, k, n - 1);
    }
  }

  /** What was written is read back, whatever stands before and after it. */
  lemma {:induction false} FieldsWritten(pre: seq<byte>, fields: seq<seq<byte>>, post: seq<byte>)
    requires Short(fields)
    ensures Fields(pre + All(fields) + post, |pre|, |fields|) == Parsed(fields, |pre| + |All(fields)|)
    decreases |fields|
  {
    if fields != [] {
      var n := |fields| - 1;
      var init, f := fields[..n], fields[n];
      assert fields == init + [f];
      assert Short(init) by {
        assert forall i :: 0 <= i < n ==> init[i] == fields[i];
      }
      FieldsWritten(pre, init, Field(f) + post);
      OneMoreWritten(pre, init, f, post);
    }
  }

  lemma OneMoreWritten(pre: seq<byte>, fields: seq<seq<byte>>, f: seq<byte>, post: seq<byte>)
    requires Short(fields) && |f| < 0x100
    requires Fields(pre + All(fields) + (Field(f) + post), |pre|, |fields|) ==
             Parsed(fields, |pre| + |All(fields)|)
    ensures Short(fields + [f])
    ensures Fields(pre + All(fields + [f]) + post, |pre|, |fields| + 1) ==
            Parsed(fields + [f], |pre| + |All(fields + [f])|)
  {
    AllMore(fields, f);
    Regroup(pre, All(fields), Field(f), post);
    FieldFollows(pre + All(fields), f, post);
    OneMoreField(pre + All(fields + [f]) + post, |pre|, fields, |pre| + |All(fields)|, f, |pre| + |All(fields + [f])|);
  }

  lemma OneMoreField(b: seq<byte>, start: nat, fields: seq<seq<byte>>, offset: nat, f: seq<byte>, next: nat)
    requires Fields(b, start, |fields|) == Parsed(fields, offset) && FieldAt(b, offset) == Parsed(f, next)
    ensures Fields(b, start, |fields| + 1) == Parsed(fields + [f], next)
  {
  }

  lemma Regroup(a: seq<byte>, b: seq<byte>, c: seq<byte>, d: seq<byte>)
    ensures a + b + (c + d) == a + (b + c) + d == a + b + c + d
  {
  }

  lemma FieldFollows(pre: seq<byte>, f: seq<byte>, post: seq<byte>)
    requires |f| < 0x100
    ensures FieldAt(pre + Field(f) + post, |pre|) == Parsed(f, |pre| + |Field(f)|)
  {
    var b := pre + Field(f) + post;
    assert b[|pre|] == Field(f)[0];
    assert b[|pre| + 1..|pre| + 1 + |f|] == f;
  }
}
