/** The checked layer (common/base58/base58check.go): a version byte, a payload and four bytes of checksum, and one
    process-wide cache, keyed by the payload alone, that both encoders share. Hashes are parameters. */
module Base58Check {
  import opened Base58
  import opened Bytes
  import opened Digits
  import opened MachineInts

  datatype Hashes = Hashes(sha3: seq<byte> -> seq<byte>, sha256: seq<byte> -> seq<byte>)

  /** The one fact about hashes used here. */
  ghost predicate Long(h: Hashes) {
    (forall d :: |h.sha3(d)| >= 4) && (forall d :: |h.sha256(d)| >= 4)
  }

  /** ChecksumFirst4Bytes: the new kind hashes twice with SHA-256, the old kind once with SHA-3. */
  function Checksum(h: Hashes, data: seq<byte>, isNew: bool): (c: seq<byte>)
    requires Long(h)
    ensures |c| == 4
  {
    if isNew then h.sha256(h.sha256(data))[..4] else h.sha3(data)[..4]
  }

  function Checked(h: Hashes, input: seq<byte>, version: byte, isNew: bool): seq<byte>
    requires Long(h)
  {
    [version] + input + Checksum(h, [version] + input, isNew)
  }

  /** s is the base58 text of these bytes. */
  ghost predicate Text(enc: seq<byte>, s: string, b: seq<byte>)
    requires |enc| == 58
  {
    exists d :: Spells(enc, s, d) && Matches(b, d)
  }

  /** s is the base58 text of the payload under this version, with one of the two checksums. */
  ghost predicate Encodes(h: Hashes, enc: seq<byte>, s: string, input: seq<byte>, version: byte)
    requires Long(h) && |enc| == 58
  {
    exists d, isNew :: Spells(enc, s, d) && Matches(Checked(h, input, version, isNew), d)
  }

  /** One of the two kinds of checksum fits. */
  ghost predicate IsChecked(h: Hashes, decoded: seq<byte>, input: seq<byte>, version: byte)
    requires Long(h)
  {
    exists isNew :: decoded == Checked(h, input, version, isNew)
  }

  ghost predicate HasChecksum(h: Hashes, data: seq<byte>, c: seq<byte>)
    requires Long(h)
  {
    c == Checksum(h, data, true) || c == Checksum(h, data, false)
  }

  /** Decode accepts exactly the strings that encode a payload, and returns that payload and its version. */
  method Decode(h: Hashes, a: Alphabet, input: string) returns (r: Result<(seq<byte>, byte)>)
    requires Long(h) && a.Valid()
    ensures forall payload, version :: Encodes(h, a.encode[..], input, payload, version) ==> r == Ok((payload, version))
    ensures r.Ok? ==> Encodes(h, a.encode[..], input, r.value.0, r.value.1)
  {
    var plain := Base58.Decode(input, a);
    ghost var enc, dec := a.encode[..], a.decode[..];
    forall payload, version | Encodes(h, enc, input, payload, version)
      ensures plain.Ok? && IsChecked(h, plain.value, payload, version)
    {
      DecodesBack(h, enc, dec, input, payload, version, plain);
    }
    if plain.Err? || |plain.value| < 5 {
      return Err("invalid format: version and/or checksum bytes missing");
    }
    var decoded := plain.value;
    var n := |decoded| - 4;
    var version, ckSum, body := decoded[0], decoded[n..], decoded[..n];
    if Checksum(h, body, true) != ckSum {
      if Checksum(h, body, false) != ckSum {
        NotChecked(h, decoded);
        return Err("checksum error");
      }
    }
    r := Ok((decoded[1..n], version));
    Accepted(h, enc, dec, input, decoded, Checksum(h, body, true) == ckSum);
    forall p, v | IsChecked(h, decoded, p, v)
      ensures p == decoded[1..n] && v == version
    {
      PartsOf(h, decoded, p, v);
    }
  }

  lemma Accepted(h: Hashes, enc: seq<byte>, dec: seq<int8>, s: string, decoded: seq<byte>, isNew: bool)
    requires Long(h) && Inverse(enc, dec) && AllDigits(dec, s) && Matches(decoded, Values(dec, s))
    requires |decoded| >= 5 && decoded[|decoded| - 4..] == Checksum(h, decoded[..|decoded| - 4], isNew)
    ensures Encodes(h, enc, s, decoded[1..|decoded| - 4], decoded[0])
  {
    var n := |decoded| - 4;
    ValuesSpell(enc, dec, s);
    assert decoded[..n] == [decoded[0]] + decoded[1..n];
    assert decoded == decoded[..n] + decoded[n..];
    assert Checked(h, decoded[1..n], decoded[0], isNew) == decoded;
  }

  lemma PartsOf(h: Hashes, decoded: seq<byte>, p: seq<byte>, v: byte)
    requires Long(h) && IsChecked(h, decoded, p, v)
    ensures |decoded| >= 5 && decoded[..|decoded| - 4] == [v] + p
    ensures decoded[0] == v && decoded[1..|decoded| - 4] == p
    ensures HasChecksum(h, decoded[..|decoded| - 4], decoded[|decoded| - 4..])
  {
    var isNew :| decoded == Checked(h, p, v, isNew);
    assert decoded == ([v] + p) + Checksum(h, [v] + p, isNew);
    assert decoded[..|decoded| - 4] == [v] + p;
    assert decoded[|decoded| - 4..] == Checksum(h, [v] + p, isNew);
    assert ([v] + p)[1..] == p;
  }

  lemma NotChecked(h: Hashes, decoded: seq<byte>)
    requires Long(h) && |decoded| >= 5
    requires !HasChecksum(h, decoded[..|decoded| - 4], decoded[|decoded| - 4..])
    ensures forall p, v :: !IsChecked(h, decoded, p, v)
  {
    forall p, v
      ensures !IsChecked(h, decoded, p, v)
    {
      if IsChecked(h, decoded, p, v) {
        PartsOf(h, decoded, p, v);
      }
    }
  }

  /** Base58 decoding gives back the checked bytes of any encoded payload. */
  lemma DecodesBack(h: Hashes, enc: seq<byte>, dec: seq<int8>, s: string, payload: seq<byte>, version: byte,
      plain: Result<seq<byte>>)
    requires Long(h) && Inverse(enc, dec) && Encodes(h, enc, s, payload, version)
    requires plain.Ok? <==> s != "" && AllDigits(dec, s)
    requires plain.Ok? ==> Matches(plain.value, Values(dec, s))
    ensures plain.Ok? && IsChecked(h, plain.value, payload, version)
  {
    var d, isNew :| Spells(enc, s, d) && Matches(Checked(h, payload, version, isNew), d);
    var b := Checked(h, payload, version, isNew);
    SpellingDecides(enc, dec, s, d);
    NotEmpty(b, d);
    AllBytesProper(b);
    AllBytesProper(plain.value);
    DigitsUnique(256, plain.value, b);
  }

  // ---- The cache and the two encoders ----

  class Encoder {
    const h: Hashes
    const alphabet: Alphabet
    var base58Cache: map<seq<byte>, string>
    /** The version bytes of all calls so far. */
    ghost var versions: set<byte>

    constructor (h: Hashes, alphabet: Alphabet)
      requires Long(h) && alphabet.Valid()
      ensures Valid() && versions == {} && this.alphabet == alphabet && this.h == h
    {
      this.h, this.alphabet, base58Cache, versions := h, alphabet, map[], {};
    }

    /** Every cached string decodes to its key, under the version of some call. */
    ghost predicate Valid()
      reads this, alphabet, alphabet.encode, alphabet.decode
    {
      && Long(h) && alphabet.Valid()
      && forall input :: input in base58Cache ==>
           exists v :: v in versions && Encodes(h, alphabet.encode[..], base58Cache[input], input, v)
    }

    /** The cache may drop any entry at any time. */
    method Evict(input: seq<byte>)
      requires Valid()
      modifies this`base58Cache
      ensures Valid() && base58Cache == old(base58Cache) - {input}
    {
      base58Cache := base58Cache - {input};
    }

    /** The text of a payload that is not cached. */
    method Fresh(input: seq<byte>, version: byte, isNew: bool) returns (s: string)
      requires Long(h) && alphabet.Valid()
      ensures Text(alphabet.encode[..], s, [version] + input + Checksum(h, [version] + input, isNew))
      ensures Encodes(h, alphabet.encode[..], s, input, version)
    {
      s := Base58.Encode(Checked(h, input, version, isNew), alphabet);
      ValuesSpell(alphabet.encode[..], alphabet.decode[..], s);
    }

    /** The body shared by the two encoders, which differ in the kind of checksum. */
    method EncodeWith(input: seq<byte>, version: byte, isNew: bool) returns (s: string)
      requires Valid()
      modifies this
      ensures Valid() && versions == old(versions) + {version}
      ensures exists v :: v in versions && Encodes(h, alphabet.encode[..], s, input, v)
      ensures input in old(base58Cache) ==> s == old(base58Cache)[input]
      ensures input !in old(base58Cache) ==>
        Text(alphabet.encode[..], s, [version] + input + Checksum(h, [version] + input, isNew))
      ensures base58Cache == old(base58Cache)[input := s]
    {
      versions := versions + {version};
      if input in base58Cache {
        return base58Cache[input];
      }
      s := Fresh(input, version, isNew);
      base58Cache := base58Cache[input := s];
    }

    /** A payload that is not cached gets the checksum of its version byte: the first four bytes of a double SHA-256
        for version 1 and of SHA-3 for all others. */
    method Encode(input: seq<byte>, version: byte) returns (s: string)
      requires Valid()
      modifies this
      ensures Valid() && versions == old(versions) + {version}
      ensures exists v :: v in versions && Encodes(h, alphabet.encode[..], s, input, v)
      ensures input in old(base58Cache) ==> s == old(base58Cache)[input]
      ensures input !in old(base58Cache) && version == 1 ==>
        Text(alphabet.encode[..], s, [version] + input + h.sha256(h.sha256([version] + input))[..4])
      ensures input !in old(base58Cache) && version != 1 ==>
        Text(alphabet.encode[..], s, [version] + input + h.sha3([version] + input)[..4])
      ensures base58Cache == old(base58Cache)[input := s]
    {
      s := EncodeWith(input, version, version == 1);
    }

    /** The checksum of a payload that is not cached is of the new kind for every version. */
    method NewEncode(input: seq<byte>, version: byte) returns (s: string)
      requires Valid()
      modifies this
      ensures Valid() && versions == old(versions) + {version}
      ensures exists v :: v in versions && Encodes(h, alphabet.encode[..], s, input, v)
      ensures input in old(base58Cache) ==> s == old(base58Cache)[input]
      ensures input !in old(base58Cache) ==>
        Text(alphabet.encode[..], s, [version] + input + h.sha256(h.sha256([version] + input))[..4])
      ensures base58Cache == old(base58Cache)[input := s]
    {
      s := EncodeWith(input, version, true);
    }
  }

  // ---- Histories ----

  datatype Event = OldCall(input: seq<byte>, version: byte) | NewCall(input: seq<byte>, version: byte)
                 | Eviction(input: seq<byte>)

  ghost predicate OneVersion(events: seq<Event>, v: byte) {
    forall i :: 0 <= i < |events| && !events[i].Eviction? ==> events[i].version == v
  }

  /** Runs a history of calls and evictions, decoding what each call returns: every payload comes back, and when all
      calls so far use one version byte, so does the version. */
  method Run(e: Encoder, events: seq<Event>, v: byte) returns (decoded: seq<Result<(seq<byte>, byte)>>)
    requires e.Valid()
    modifies e
    ensures |decoded| == |events|
    ensures forall i :: 0 <= i < |events| && !events[i].Eviction? ==>
      decoded[i].Ok? && decoded[i].value.0 == events[i].input
    ensures old(e.versions) <= {v} && OneVersion(events, v) ==>
      (forall i :: 0 <= i < |events| && !events[i].Eviction? ==> decoded[i] == Ok((events[i].input, v)))
  {
    decoded := [];
    for k := 0 to |events|
      invariant e.Valid() && |decoded| == k
      invariant forall i :: 0 <= i < k && !events[i].Eviction? ==>
        decoded[i].Ok? && decoded[i].value.0 == events[i].input && decoded[i].value.1 in e.versions
      invariant old(e.versions) <= {v} && OneVersion(events[..k], v) ==> e.versions <= {v}
    {
      var r: Result<(seq<byte>, byte)> := Err("no call");
      match events[k] {
        case Eviction(input) =>
          e.Evict(input);
        case _ =>
          r := CallAndDecode(e, events[k]);
      }
      decoded := decoded + [r];
      assert OneVersion(events[..k + 1], v) ==> OneVersion(events[..k], v) by {
        assert events[..k + 1] == events[..k] + [events[k]];
      }
    }
    assert events[..|events|] == events;
  }

  /** One call of either encoder. */
  method Call(e: Encoder, c: Event) returns (s: string)
    requires e.Valid() && !c.Eviction?
    modifies e
    ensures e.Valid() && e.versions == old(e.versions) + {c.version}
    ensures exists v :: v in e.versions && Encodes(e.h, e.alphabet.encode[..], s, c.input, v)
    ensures c.input !in old(e.base58Cache) ==>
      var data := [c.version] + c.input;
      Text(e.alphabet.encode[..], s,
           data + if c.NewCall? || c.version == 1 then e.h.sha256(e.h.sha256(data))[..4] else e.h.sha3(data)[..4])
  {
    if c.OldCall? {
      s := e.Encode(c.input, c.version);
    } else {
      s := e.NewEncode(c.input, c.version);
    }
  }

  method CallAndDecode(e: Encoder, c: Event) returns (r: Result<(seq<byte>, byte)>)
    requires e.Valid() && !c.Eviction?
    modifies e
    ensures e.Valid() && e.versions == old(e.versions) + {c.version}
    ensures r.Ok? && r.value.0 == c.input && r.value.1 in e.versions
  {
    var s := Call(e, c);
    r := Decode(e.h, e.alphabet, s);
  }
}
