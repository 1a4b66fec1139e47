/** The life of a coin from its making through ownership test, concealing and decryption (coin/coin_v2_ca.go,
    coin/coin_v2.go, coin/utils.go). Points are the elements of an abelian group in which the base point has the
    order of the curve; hashes and encodings are parameters, and random scalars are arguments. */
module CoinLife {
  import opened Arith
  import opened Bytes
  import opened Digits
  import opened Groups
  import opened MachineInts
  import opened Options
  import opened ScalarLimbs

  const MAX_TRIES_OTA: nat := 50000
  const ASSET_TAG: seq<byte> := Ascii("assettag")
  const ONE_TIME_ADDRESS: seq<byte> := Ascii("onetimeaddress")

  function Ascii(s: string): (b: seq<byte>)
    ensures |b| == |s| && forall i :: 0 <= i < |s| && s[i] < 128 as char ==> b[i] as int == s[i] as int
  {
    seq(|s|, i requires 0 <= i < |s| => (s[i] as int % 256) as byte)
  }

  /** A scalar modulo the group order. */
  type Exponent = s: int | 0 <= s < ELL

  datatype Curve<!P(!new)> = Curve(group: Group<P>, base: P, valueBase: P, randomnessBase: P,
    encode: P -> seq<byte>, scalarBytes: Exponent -> seq<byte>,
    hashToScalar: seq<byte> -> Exponent, hashToPoint: seq<byte> -> P)

  ghost predicate Lawful<P(!new)>(c: Curve<P>) {
    Abelian(c.group) && Mul(c.group, ELL, c.base) == c.group.zero && forall p: P :: |c.encode(p)| == 32
  }

  function ScalarMult<P(!new)>(c: Curve<P>, p: P, s: int): P {
    Mul(c.group, s, p)
  }

  function Sub<P(!new)>(c: Curve<P>, p: P, q: P): P {
    c.group.add(p, c.group.neg(q))
  }

  // ---- Keys ----

  /** What a holder has: the private key and the view key may be missing. */
  datatype Keys<!P(!new)> = Keys(privateKey: Option<seq<byte>>, readonlyKey: Option<Exponent>, otaSecret: Exponent,
    publicSpend: P)

  datatype Address<!P(!new)> = Address(publicSpend: P, publicView: P, publicOTA: Option<P>)

  function OTASecret<P(!new)>(c: Curve<P>, privateKey: seq<byte>): Exponent {
    c.hashToScalar(privateKey + ONE_TIME_ADDRESS)
  }

  /** The public key of a private key; the base point multiplication reduces its scalar first. */
  function PublicSpend<P(!new)>(c: Curve<P>, privateKey: seq<byte>): P {
    ScalarMult(c, c.base, LE(privateKey) % ELL)
  }

  function AddressOf<P(!new)>(c: Curve<P>, privateKey: seq<byte>): Address<P> {
    Address(PublicSpend(c, privateKey), ScalarMult(c, c.base, c.hashToScalar(privateKey)),
            Some(ScalarMult(c, c.base, OTASecret(c, privateKey))))
  }

  /** The holder's keys come from this private key, whichever of them are present. */
  ghost predicate KeysFrom<P(!new)>(c: Curve<P>, keys: Keys<P>, privateKey: seq<byte>) {
    && (keys.privateKey.Some? ==> keys.privateKey.value == privateKey)
    && (keys.readonlyKey.Some? ==> keys.readonlyKey.value == c.hashToScalar(privateKey))
    && keys.otaSecret == OTASecret(c, privateKey) && keys.publicSpend == PublicSpend(c, privateKey)
  }

  /** A private key of the wrong length. */
  predicate BadKey<P(!new)>(keys: Keys<P>) {
    keys.privateKey.Some? && |keys.privateKey.value| != 32
  }

  // ---- Group facts ----

  /** The secret shared by two parties that each know one exponent. */
  lemma SharedSecret<P(!new)>(c: Curve<P>, r: int, k: int)
    requires Lawful(c)
    ensures ScalarMult(c, ScalarMult(c, c.base, r), k) == ScalarMult(c, ScalarMult(c, c.base, k), r)
  {
    MulProduct(c.group, k, r, c.base);
    MulProduct(c.group, r, k, c.base);
    assert k * r == r * k;
  }

  /** Multiples of the base point are taken modulo its order. */
  lemma ModuloOrder<P(!new)>(c: Curve<P>, n: int)
    requires Lawful(c)
    ensures ScalarMult(c, c.base, n % ELL) == ScalarMult(c, c.base, n)
  {
    var q := n / ELL;
    MulSum(c.group, q * ELL, n % ELL, c.base);
    MulProduct(c.group, q, ELL, c.base);
    MulOfZero(c.group, q);
    assert Neutral(c.group, Mul(c.group, n % ELL, c.base));
  }

  lemma AddThenSub<P(!new)>(c: Curve<P>, p: P, q: P)
    requires Lawful(c)
    ensures Sub(c, c.group.add(p, q), q) == p && Sub(c, c.group.add(q, p), q) == p
    ensures c.group.add(q, Sub(c, p, q)) == p
  {
    assert Associative(c.group, p, q, c.group.neg(q));
    assert Inverse(c.group, q) && Neutral(c.group, p) && Commutative(c.group, p, q);
    assert Associative(c.group, p, c.group.neg(q), q) && Commutative(c.group, q, Sub(c, p, q));
  }

  function AddMod(x: Exponent, h: Exponent): Exponent {
    (x + h) % ELL
  }

  function SubMod(x: Exponent, h: Exponent): Exponent {
    (x - h) % ELL
  }

  /** Adding a hash and subtracting it again, both modulo the order. */
  lemma MaskedBack(x: Exponent, h: Exponent)
    ensures SubMod(AddMod(x, h), h) == x
  {
    if x + h >= ELL {
      assert (x + h) % ELL == x + h - ELL;
    }
  }

  // ---- Hashes of the shared secrets ----

  /** Four bytes, the highest first. */
  function Uint32ToBytes(v: uint32): (b: seq<byte>)
    ensures |b| == 4 && N(256, b) == v as int
  {
    var n := v as int;
    FourBytes(n);
    [(n / 0x100_0000) as byte, (n / 0x1_0000 % 0x100) as byte, (n / 0x100 % 0x100) as byte, (n % 0x100) as byte]
  }

  lemma FourBytes(n: nat)
    requires n < 0x1_0000_0000
    ensures N(256, [(n / 0x100_0000) as byte, (n / 0x1_0000 % 0x100) as byte, (n / 0x100 % 0x100) as byte,
                    (n % 0x100) as byte]) == n
  {
    var q, r := n / 0x100, n / 0x1_0000;
    assert r == q / 0x100 && n / 0x100_0000 == r / 0x100;
    Four(n / 0x100_0000, r % 0x100, q % 0x100, n % 0x100);
  }

  lemma Four(a: int, b: int, c: int, d: int)
    requires 0 <= a < 0x100 && 0 <= b < 0x100 && 0 <= c < 0x100 && 0 <= d < 0x100
    ensures N(256, [a as byte, b as byte, c as byte, d as byte]) == 0x100_0000 * a + 0x1_0000 * b + 0x100 * c + d
  {
    var s := [a as byte, b as byte, c as byte, d as byte];
    assert N(256, s) == 256 * N(256, s[..3]) + d;
    assert s[..3][..2] == s[..2] && s[..2][..1] == s[..1] && s[..1][..0] == [];
    assert N(256, s[..1]) == 256 * N(256, s[..1][..0]) + a;
    assert N(256, s[..2]) == 256 * N(256, s[..2][..1]) + b;
    assert N(256, s[..3]) == 256 * N(256, s[..3][..2]) + c;
  }

  function AddressHash<P(!new)>(c: Curve<P>, rK: P, index: uint32): Exponent {
    c.hashToScalar(c.encode(rK) + Uint32ToBytes(index))
  }

  function Blinder<P(!new)>(c: Curve<P>, rK: P): Exponent {
    c.hashToScalar(c.encode(rK) + ASSET_TAG)
  }

  function MaskHash<P(!new)>(c: Curve<P>, rK: P): Exponent {
    c.hashToScalar(c.scalarBytes(c.hashToScalar(c.encode(rK))))
  }

  function AmountHash<P(!new)>(c: Curve<P>, rK: P): Exponent {
    c.hashToScalar(c.scalarBytes(MaskHash(c, rK)))
  }

  function OneTimeKey<P(!new)>(c: Curve<P>, rK: P, index: uint32, publicSpend: P): P {
    c.group.add(ScalarMult(c, c.base, AddressHash(c, rK, index)), publicSpend)
  }

  function BlindedTag<P(!new)>(c: Curve<P>, rK: P, tokenID: seq<byte>): P {
    c.group.add(c.hashToPoint(tokenID), ScalarMult(c, c.randomnessBase, Blinder(c, rK)))
  }

  /** A Pedersen commitment, to the asset tag when there is one. */
  function Commit<P(!new)>(c: Curve<P>, assetTag: Option<P>, amount: Exponent, mask: Exponent): P {
    c.group.add(ScalarMult(c, if assetTag.Some? then assetTag.value else c.valueBase, amount),
                ScalarMult(c, c.randomnessBase, mask))
  }

  /** A number of three digits to the base of the shards, and when its first digit is above one. */
  lemma ShardDigits(n: int, q: int, k: int, a: int, b: int, shards: int)
    requires n == a + shards * q && q == b + shards * k && 0 <= a < shards && 0 <= b < shards
    ensures n == a + shards * (b + shards * k)
    ensures k > 1 <==> n >= shards * (2 * shards)
  {
    if k > 1 {
      Monotone(shards, 2, k);
      Monotone(shards, 2 * shards, q);
    } else {
      Monotone(shards, k, 1);
      Monotone(shards, q + 1, 2 * shards);
    }
  }

  lemma Divided(x: nat, m: nat)
    requires m >= 1
    ensures x == x % m + m * (x / m) && 0 <= x % m < m && x / m >= 0
  {
  }

  lemma LastByte(n: nat, shards: nat)
    requires shards >= 1
    ensures n % shards < shards && n / shards >= 0 && n / shards % shards < shards
    ensures n == n % shards + shards * (n / shards % shards + shards * (n / shards / shards))
    ensures n / shards / shards > 1 <==> n >= shards * (2 * shards)
  {
    Divided(n, shards);
    var q := n / shards;
    Divided(q, shards);
    ShardDigits(n, q, q / shards, n % shards, q % shards, shards);
  }

  /** The sender's shard, the receiver's shard and the type in the last byte of a public key; None when there are more
      than eight shards or the type is not supported. */
  function DeriveShardInfo(coinPubKey: seq<byte>, shards: nat): (info: Option<(nat, nat, nat)>)
    requires coinPubKey != [] && shards >= 1
    ensures info.Some? ==>
      var (sender, receiver, kind) := info.value;
      && sender < shards && receiver < shards && kind < 2 && shards <= 8
      && coinPubKey[|coinPubKey| - 1] as nat % 128 == receiver + shards * (sender + shards * kind)
    ensures info.None? <==> shards > 8 || coinPubKey[|coinPubKey| - 1] as nat % 128 >= shards * (2 * shards)
  {
    if shards > 8 then None
    else
      var n := coinPubKey[|coinPubKey| - 1] as nat % 128;
      LastByte(n, shards);
      if n / shards / shards > 1 then None else Some((n / shards % shards, n % shards, n / shards / shards))
  }

  // ---- The coin ----

  datatype TxRandom<!P(!new)> = TxRandom(conceal: P, ota: P, index: uint32)

  class OutputCoin<P(!new, ==)> {
    var publicKey: P
    var commitment: P
    var keyImage: Option<P>
    var sharedConcealRandom: Option<Exponent>
    var sharedRandom: Option<Exponent>
    var txRandom: TxRandom<P>
    var mask: Option<Exponent>
    var amount: Option<Exponent>
    var assetTag: Option<P>
    var rawAssetTag: Option<P>

    constructor (identity: P, amount: uint64, mask: Exponent, sharedRandom: Exponent, sharedConcealRandom: Exponent)
      ensures this.amount == Some(amount as int) && this.mask == Some(mask)
      ensures this.sharedRandom == Some(sharedRandom) && this.sharedConcealRandom == Some(sharedConcealRandom)
      ensures assetTag == None && rawAssetTag == None && publicKey == identity && commitment == identity
      ensures keyImage == Some(identity) && txRandom == TxRandom(identity, identity, 0)
    {
      publicKey, commitment, keyImage := identity, identity, Some(identity);
      this.amount, this.mask := Some(amount as int), Some(mask);
      this.sharedRandom, this.sharedConcealRandom := Some(sharedRandom), Some(sharedConcealRandom);
      txRandom := TxRandom(identity, identity, 0);
      assetTag, rawAssetTag := None, None;
    }

    predicate IsEncrypted(c: Curve<P>)
      reads this
    {
      mask.None? || amount.None? || Commit(c, assetTag, amount.value, mask.value) != commitment
    }

    function GetValue(c: Curve<P>): (v: uint64)
      reads this
      ensures IsEncrypted(c) ==> v == 0
    {
      if IsEncrypted(c) then 0 else (amount.value % TWO64) as uint64
    }

    /** The coin is a one-time output for the holder of this private key. */
    ghost predicate OwnedBy(c: Curve<P>, privateKey: seq<byte>)
      reads this
    {
      publicKey == OneTimeKey(c, ScalarMult(c, txRandom.ota, OTASecret(c, privateKey)), txRandom.index,
                              PublicSpend(c, privateKey))
    }

    /** Its asset tag hides this token from all but that holder. */
    ghost predicate Tagged(c: Curve<P>, privateKey: seq<byte>, tokenID: seq<byte>)
      reads this
    {
      assetTag == Some(BlindedTag(c, ScalarMult(c, txRandom.ota, OTASecret(c, privateKey)), tokenID))
    }

    /** It opens to this mask and amount. */
    ghost predicate Opens(c: Curve<P>, mask: Exponent, amount: Exponent)
      reads this
    {
      commitment == Commit(c, assetTag, amount, mask)
    }

    /** The mask and the amount are hidden under the secret shared with the holder. */
    ghost predicate Hides(c: Curve<P>, privateKey: seq<byte>, mask: Exponent, amount: Exponent)
      reads this
    {
      var rK := ScalarMult(c, txRandom.conceal, c.hashToScalar(privateKey));
      var twice := c.hashToScalar(c.scalarBytes(c.hashToScalar(c.encode(rK))));
      var thrice := c.hashToScalar(c.scalarBytes(twice));
      this.mask == Some(AddMod(mask, twice)) && this.amount == Some(AddMod(amount, thrice))
    }

    /** The key image is made with the private key of the coin. */
    ghost predicate HasImage(c: Curve<P>)
      reads this
    {
      exists k: Exponent :: ScalarMult(c, c.base, k) == publicKey &&
                            keyImage == Some(ScalarMult(c, c.hashToPoint(c.encode(publicKey)), k))
    }

    /** ComputeCommitmentCA, for a coin with an asset tag. */
    function ComputeCommitmentCA(c: Curve<P>): Option<P>
      requires assetTag.Some?
      reads this
    {
      if mask.None? || amount.None? then None
      else Some(c.group.add(ScalarMult(c, assetTag.value, amount.value), ScalarMult(c, c.randomnessBase, mask.value)))
    }

    /** Succeeds exactly for the holder, and then finds the token's hash behind the asset tag. */
    method DoesCoinBelongToKeySet(c: Curve<P>, keys: Keys<P>, ghost privateKey: seq<byte>, ghost tokenID: seq<byte>)
      returns (belongs: bool, rK: P)
      requires Lawful(c) && KeysFrom(c, keys, privateKey)
      modifies this`rawAssetTag
      ensures rK == ScalarMult(c, txRandom.ota, keys.otaSecret)
      ensures belongs <==> OwnedBy(c, privateKey)
      ensures belongs && Tagged(c, privateKey, tokenID) && old(rawAssetTag) == None ==>
                rawAssetTag == Some(c.hashToPoint(tokenID))
      ensures !belongs || assetTag == None || old(rawAssetTag) != None ==> rawAssetTag == old(rawAssetTag)
    {
      rK := ScalarMult(c, txRandom.ota, keys.otaSecret);
      var HnG := ScalarMult(c, c.base, AddressHash(c, rK, txRandom.index));
      var KCheck := Sub(c, publicKey, HnG);
      AddThenSub(c, keys.publicSpend, HnG);
      AddThenSub(c, publicKey, HnG);
      belongs := KCheck == keys.publicSpend;
      if belongs && assetTag.Some? && rawAssetTag.None? {
        var hiding := ScalarMult(c, c.randomnessBase, Blinder(c, rK));
        AddThenSub(c, c.hashToPoint(tokenID), hiding);
        rawAssetTag := Some(Sub(c, assetTag.value, hiding));
      }
    }

    /** Accepts exactly the plain and the blinded tag of the token. */
    method ValidateAssetTag(c: Curve<P>, sharedSecret: P, tokenID: Option<seq<byte>>, prv: seq<byte>)
      returns (valid: bool)
      ensures var none := tokenID.None? || tokenID.value == prv;
        if assetTag.None? then valid == none
        else valid == (!none && (assetTag.value == c.hashToPoint(tokenID.value) ||
                                 assetTag.value == BlindedTag(c, sharedSecret, tokenID.value)))
    {
      if assetTag.None? {
        return tokenID.None? || tokenID.value == prv;
      }
      if tokenID.None? || tokenID.value == prv {
        return false;
      }
      var recomputedAssetTag := c.hashToPoint(tokenID.value);
      if recomputedAssetTag == assetTag.value {
        return true;
      }
      var blinder := Blinder(c, sharedSecret);
      recomputedAssetTag := c.group.add(recomputedAssetTag, ScalarMult(c, c.randomnessBase, blinder));
      return recomputedAssetTag == assetTag.value;
    }

    /** The private key of a one-time output opens its public key. */
    method ParsePrivateKeyOfCoin(c: Curve<P>, privateKey: seq<byte>) returns (k: Option<Exponent>)
      requires Lawful(c)
      ensures k.Some? <==> |privateKey| == 32
      ensures k.Some? && OwnedBy(c, privateKey) ==> ScalarMult(c, c.base, k.value) == publicKey
      ensures k.Some? ==>
        var rK := ScalarMult(c, txRandom.ota, OTASecret(c, privateKey));
        k.value == (AddressHash(c, rK, txRandom.index) + LE(privateKey)) % ELL
    {
      if |privateKey| != 32 {
        return None;
      }
      var rK := ScalarMult(c, txRandom.ota, OTASecret(c, privateKey));
      var H := AddressHash(c, rK, txRandom.index);
      SpendKeyOpens(c, H, LE(privateKey));
      return Some((H + LE(privateKey)) % ELL);
    }

    /** Hides the mask and the amount of a coin whose conceal secret is still known, for the holder of the view key. */
    method ConcealOutputCoin(c: Curve<P>, publicView: P, ghost privateKey: seq<byte>)
      requires Lawful(c) && publicView == AddressOf(c, privateKey).publicView
      modifies this`mask, this`amount, this`sharedRandom, this`sharedConcealRandom
      ensures old(IsEncrypted(c)) || old(sharedConcealRandom) == None ==>
                && mask == old(mask) && amount == old(amount) && sharedRandom == old(sharedRandom)
                && sharedConcealRandom == old(sharedConcealRandom)
      ensures !old(IsEncrypted(c)) && old(sharedConcealRandom).Some? ==>
                sharedRandom == None && sharedConcealRandom == None
      ensures !old(IsEncrypted(c)) && old(sharedConcealRandom).Some? &&
              txRandom.conceal == ScalarMult(c, c.base, old(sharedConcealRandom).value) ==>
                Hides(c, privateKey, old(mask).value, old(amount).value)
    {
      if IsEncrypted(c) || sharedConcealRandom.None? {
        return;
      }
      var r := sharedConcealRandom.value;
      var rK := ScalarMult(c, publicView, r);
      SharedSecret(c, r, c.hashToScalar(privateKey));
      mask := Some(AddMod(mask.value, MaskHash(c, rK)));
      amount := Some(AddMod(amount.value, AmountHash(c, rK)));
      sharedConcealRandom := None;
      sharedRandom := None;
    }

    /** Sets the key image when there is a private key, and restores the mask and the amount of a hidden coin. A coin
        that does not read as encrypted is left as it is; a failed attempt leaves the mask and the amount changed. */
    method Decrypt(c: Curve<P>, keys: Keys<P>, ghost privateKey: seq<byte>, ghost mask0: Exponent,
        ghost amount0: Exponent)
      returns (ok: bool)
      requires Lawful(c) && KeysFrom(c, keys, privateKey) && mask.Some? && amount.Some?
      modifies this`mask, this`amount, this`keyImage
      ensures !old(IsEncrypted(c)) ==> mask == old(mask) && amount == old(amount)
      ensures keys.privateKey.None? || |keys.privateKey.value| != 32 ==> keyImage == old(keyImage)
      ensures keys.privateKey.Some? && |keys.privateKey.value| == 32 && OwnedBy(c, privateKey) ==> HasImage(c)
      ensures !old(IsEncrypted(c)) ==> (ok <==> keys.privateKey.None? || |keys.privateKey.value| == 32)
      ensures ok && old(IsEncrypted(c)) ==> !IsEncrypted(c)
      ensures BadKey(keys) || (old(IsEncrypted(c)) && keys.readonlyKey.None? && keys.privateKey.None?) ==>
                !ok && mask == old(mask) && amount == old(amount)
      ensures old(IsEncrypted(c)) && keys.readonlyKey.None? && keys.privateKey.Some? && !BadKey(keys) ==>
                var rK := ScalarMult(c, txRandom.conceal, 0);
                && mask == Some(SubMod(old(mask).value, MaskHash(c, rK)))
                && amount == Some(SubMod(old(amount).value, AmountHash(c, rK)))
                && (ok <==> !IsEncrypted(c))
      ensures old(IsEncrypted(c)) && Opens(c, mask0, amount0) && old(Hides(c, privateKey, mask0, amount0)) &&
              keys.readonlyKey.Some? && (keys.privateKey.None? || |keys.privateKey.value| == 32) ==>
                ok && mask == Some(mask0) && amount == Some(amount0)
    {
      if keys.privateKey.Some? {
        var k := ParsePrivateKeyOfCoin(c, keys.privateKey.value);
        if k.None? {
          return false;
        }
        keyImage := Some(ScalarMult(c, c.hashToPoint(c.encode(publicKey)), k.value));
      }
      if !IsEncrypted(c) {
        return true;
      }
      if keys.readonlyKey.None? && keys.privateKey.None? {
        return false;
      }
      var privateView := if keys.readonlyKey.Some? then keys.readonlyKey.value else 0;
      var rK := ScalarMult(c, txRandom.conceal, privateView);
      MaskedBack(mask0, MaskHash(c, rK));
      MaskedBack(amount0, AmountHash(c, rK));
      mask := Some(SubMod(mask.value, MaskHash(c, rK)));
      amount := Some(SubMod(amount.value, AmountHash(c, rK)));
      ok := Commit(c, assetTag, amount.value, mask.value) == commitment;
    }
  }

  lemma SpendKeyOpens<P(!new)>(c: Curve<P>, h: int, k: int)
    requires Lawful(c)
    ensures ScalarMult(c, c.base, (h + k) % ELL) ==
            c.group.add(ScalarMult(c, c.base, h), ScalarMult(c, c.base, k % ELL))
  {
    ModuloOrder(c, h + k);
    ModuloOrder(c, k);
    MulSum(c.group, h, k, c.base);
  }

  // ---- Making a coin ----

  /** What a coin is made for. */
  datatype Order<!P(!new)> = Order(address: Address<P>, burning: bool, amount: uint64, senderShard: nat,
    privacyType: nat, tokenID: Option<seq<byte>>)

  datatype Randoms = Randoms(mask: Exponent, shared: Exponent, sharedConceal: Exponent)

  /** This index gives a one-time key with the wanted shards and type in its last byte. */
  predicate Fits<P(!new, ==)>(c: Curve<P>, shards: nat, o: Order<P>, rK: P, index: nat)
    requires shards >= 1 && index < 0x1_0000_0000
    requires forall p: P :: |c.encode(p)| == 32
  {
    var target := c.encode(o.address.publicSpend)[31] as nat % shards;
    DeriveShardInfo(c.encode(OneTimeKey(c, rK, index as uint32, o.address.publicSpend)), shards) ==
      Some((o.senderShard, target, o.privacyType))
  }

  /** What a coin made for the holder of the private key shows to that holder. */
  ghost predicate MadeFor<P(!new)>(c: Curve<P>, out: OutputCoin<P>, o: Order<P>, r: Randoms, privateKey: seq<byte>)
    requires o.address.publicOTA.Some? && o.tokenID.Some?
    reads out
  {
    && out.OwnedBy(c, privateKey) && out.Tagged(c, privateKey, o.tokenID.value)
    && ScalarMult(c, o.address.publicOTA.value, r.shared) == ScalarMult(c, out.txRandom.ota, OTASecret(c, privateKey))
  }

  /** The one-time address and the tag of a new coin whose index has been found. */
  method Finish<P(!new, ==)>(c: Curve<P>, coin: OutputCoin<P>, o: Order<P>, r: Randoms, index: uint32,
      ghost privateKey: seq<byte>)
    requires Lawful(c) && o.address.publicOTA.Some? && o.tokenID.Some?
    requires coin.amount == Some(o.amount as int) && coin.mask == Some(r.mask)
    requires coin.publicKey ==
             OneTimeKey(c, ScalarMult(c, o.address.publicOTA.value, r.shared), index, o.address.publicSpend)
    modifies coin`txRandom, coin`assetTag, coin`commitment
    ensures coin.Opens(c, r.mask, o.amount as int) && coin.GetValue(c) == o.amount
    ensures coin.txRandom == TxRandom(ScalarMult(c, c.base, r.sharedConceal), ScalarMult(c, c.base, r.shared), index)
    ensures o.address == AddressOf(c, privateKey) ==> MadeFor(c, coin, o, r, privateKey)
  {
    var otaSharedRandomPoint := ScalarMult(c, c.base, r.shared);
    var concealSharedRandomPoint := ScalarMult(c, c.base, r.sharedConceal);
    coin.txRandom := TxRandom(concealSharedRandomPoint, otaSharedRandomPoint, index);
    SharedSecret(c, r.shared, OTASecret(c, privateKey));
    var rAsset := ScalarMult(c, o.address.publicOTA.value, r.shared);
    var tag := c.hashToPoint(o.tokenID.value);
    coin.assetTag := Some(c.group.add(tag, ScalarMult(c, c.randomnessBase, Blinder(c, rAsset))));
    coin.commitment := coin.ComputeCommitmentCA(c).value;
  }

  /** The secrets that the maker keeps in a new coin, which has no key image yet. */
  ghost predicate Remembers<P(!new)>(coin: OutputCoin<P>, identity: P, r: Randoms)
    reads coin
  {
    && coin.sharedRandom == Some(r.shared) && coin.sharedConcealRandom == Some(r.sharedConceal)
    && coin.keyImage == Some(identity) && coin.rawAssetTag == None
  }

  /** The least index that fits. */
  ghost predicate FirstFits<P(!new)>(c: Curve<P>, shards: nat, o: Order<P>, rK: P, index: nat)
    requires shards >= 1 && forall p: P :: |c.encode(p)| == 32
  {
    0 < index <= 50_000 && Fits(c, shards, o, rK, index) && forall i :: 0 < i < index ==> !Fits(c, shards, o, rK, i)
  }

  ghost predicate NoneFits<P(!new)>(c: Curve<P>, shards: nat, o: Order<P>, rK: P)
    requires shards >= 1 && forall p: P :: |c.encode(p)| == 32
  {
    forall i :: 0 < i <= 50_000 ==> !Fits(c, shards, o, rK, i)
  }

  /** The first index that fits, or 0. */
  method FindIndex<P(!new, ==)>(c: Curve<P>, shards: nat, o: Order<P>, rK: P) returns (index: nat)
    requires shards >= 1 && forall p: P :: |c.encode(p)| == 32
    ensures index <= 50_000 && (index > 0 ==> Fits(c, shards, o, rK, index))
    ensures index == 0 ==> NoneFits(c, shards, o, rK)
    ensures index > 0 ==> forall i :: 0 < i < index ==> !Fits(c, shards, o, rK, i)
  {
    index := 0;
    while index < MAX_TRIES_OTA
      invariant index <= MAX_TRIES_OTA
      invariant forall i :: 0 < i <= index ==> !Fits(c, shards, o, rK, i)
    {
      index := index + 1;
      if Fits(c, shards, o, rK, index) {
        return;
      }
    }
    index := 0;
  }

  /** A coin sent to the burning address shows its token. */
  method NewBurningCoin<P(!new, ==)>(c: Curve<P>, identity: P, o: Order<P>, r: Randoms) returns (out: OutputCoin<P>)
    requires o.tokenID.Some?
    ensures fresh(out) && out.Opens(c, r.mask, o.amount as int) && out.GetValue(c) == o.amount
    ensures out.publicKey == o.address.publicSpend && out.assetTag == Some(c.hashToPoint(o.tokenID.value))
    ensures Holds(out, r.mask, o.amount as int) && Remembers(out, identity, r)
    ensures out.txRandom == TxRandom(identity, identity, 0)
  {
    out := new OutputCoin<P>(identity, o.amount, r.mask, r.shared, r.sharedConceal);
    out.publicKey := o.address.publicSpend;
    out.assetTag := Some(c.hashToPoint(o.tokenID.value));
    out.commitment := out.ComputeCommitmentCA(c).value;
  }

  method NewOneTimeCoin<P(!new, ==)>(c: Curve<P>, identity: P, o: Order<P>, r: Randoms, index: uint32,
      ghost privateKey: seq<byte>)
    returns (out: OutputCoin<P>)
    requires Lawful(c) && o.address.publicOTA.Some? && o.tokenID.Some?
    ensures fresh(out) && out.Opens(c, r.mask, o.amount as int) && out.GetValue(c) == o.amount
    ensures out.mask == Some(r.mask) && out.amount == Some(o.amount as int)
    ensures out.publicKey ==
            OneTimeKey(c, ScalarMult(c, o.address.publicOTA.value, r.shared), index, o.address.publicSpend)
    ensures Remembers(out, identity, r)
    ensures out.txRandom == TxRandom(ScalarMult(c, c.base, r.sharedConceal), ScalarMult(c, c.base, r.shared), index)
    ensures o.address == AddressOf(c, privateKey) ==> MadeFor(c, out, o, r, privateKey)
  {
    out := new OutputCoin<P>(identity, o.amount, r.mask, r.shared, r.sharedConceal);
    var rK := ScalarMult(c, o.address.publicOTA.value, r.shared);
    out.publicKey := OneTimeKey(c, rK, index, o.address.publicSpend);
    Finish(c, out, o, r, index, privateKey);
  }

  /** A coin for the holder of the address: the holder owns it, only the holder sees its token, and it opens to the
      amount. It is not made only when the address or the token is missing or no index fits. */
  method NewCoinCA<P(!new, ==)>(c: Curve<P>, identity: P, shards: nat, o: Order<P>, r: Randoms,
      ghost privateKey: seq<byte>)
    returns (coin: Option<OutputCoin<P>>, rAsset: Option<P>)
    requires Lawful(c) && shards >= 1 && (o.burning ==> o.tokenID.Some?)
    ensures coin.Some? ==> fresh(coin.value) && o.tokenID.Some? && coin.value.Opens(c, r.mask, o.amount as int)
    ensures coin.Some? ==> coin.value.GetValue(c) == o.amount
    ensures coin.Some? && o.burning ==>
              coin.value.publicKey == o.address.publicSpend && coin.value.assetTag
                == Some(c.hashToPoint(o.tokenID.value))
    ensures coin.Some? && !o.burning ==>
              var target := c.encode(o.address.publicSpend)[31] as nat % shards;
              DeriveShardInfo(c.encode(coin.value.publicKey), shards) == Some((o.senderShard, target, o.privacyType))
    ensures coin.Some? && !o.burning ==>
              && coin.value.mask == Some(r.mask) && coin.value.amount == Some(o.amount as int)
              && Remembers(coin.value, identity, r)
              && coin.value.txRandom.conceal == ScalarMult(c, c.base, r.sharedConceal)
              && coin.value.txRandom.ota == ScalarMult(c, c.base, r.shared)
    ensures coin.Some? && !o.burning ==>
              && o.address.publicOTA.Some?
              && FirstFits(c, shards, o, ScalarMult(c, o.address.publicOTA.value, r.shared),
                           coin.value.txRandom.index as nat)
    ensures coin.Some? && o.burning ==> Remembers(coin.value, identity, r) && rAsset == None
    ensures coin.Some? && !o.burning && o.address == AddressOf(c, privateKey) ==>
              && coin.value.OwnedBy(c, privateKey) && coin.value.Tagged(c, privateKey, o.tokenID.value)
              && rAsset == Some(ScalarMult(c, coin.value.txRandom.ota, OTASecret(c, privateKey)))
    ensures coin.None? ==>
              || o.address.publicOTA.None? || o.tokenID.None?
              || NoneFits(c, shards, o, ScalarMult(c, o.address.publicOTA.value, r.shared))
  {
    if o.burning {
      var burnt := NewBurningCoin(c, identity, o, r);
      return Some(burnt), None;
    }
    if o.address.publicOTA.None? {
      return None, None;
    }
    var rK := ScalarMult(c, o.address.publicOTA.value, r.shared);
    var index := FindIndex(c, shards, o, rK);
    if index == 0 || o.tokenID.None? {
      return None, None;
    }
    var out := NewOneTimeCoin(c, identity, o, r, index as uint32, privateKey);
    return Some(out), Some(rK);
  }

  lemma AddModIsIdentity(x: Exponent, h: Exponent)
    ensures AddMod(x, h) == x <==> h == 0
  {
    if x + h >= ELL {
      assert (x + h) % ELL == x + h - ELL;
    }
  }

  /** The holder finds the coin, its token and its private key. */
  method Recognise<P(!new, ==)>(c: Curve<P>, coin: OutputCoin<P>, keys: Keys<P>, privateKey: seq<byte>,
      tokenID: seq<byte>, prv: seq<byte>)
    returns (belongs: bool, valid: bool, k: Option<Exponent>)
    requires Lawful(c) && KeysFrom(c, keys, privateKey) && |privateKey| == 32 && tokenID != prv
    requires coin.OwnedBy(c, privateKey) && coin.Tagged(c, privateKey, tokenID) && coin.rawAssetTag == None
    modifies coin`rawAssetTag
    ensures belongs && valid && coin.rawAssetTag == Some(c.hashToPoint(tokenID))
    ensures k.Some? && ScalarMult(c, c.base, k.value) == coin.publicKey
  {
    var rK;
    belongs, rK := coin.DoesCoinBelongToKeySet(c, keys, privateKey, tokenID);
    valid := coin.ValidateAssetTag(c, rK, Some(tokenID), prv);
    k := coin.ParsePrivateKeyOfCoin(c, privateKey);
  }

  predicate Holds<P(!new, ==)>(coin: OutputCoin<P>, mask: Exponent, amount: Exponent)
    reads coin
  {
    coin.mask == Some(mask) && coin.amount == Some(amount)
  }

  /** What the concealed mask and amount commit to. */
  function HiddenCommit<P(!new)>(c: Curve<P>, assetTag: Option<P>, mask: Exponent, amount: Exponent, rK: P): P {
    Commit(c, assetTag, AddMod(amount, AmountHash(c, rK)), AddMod(mask, MaskHash(c, rK)))
  }

  /** The sender conceals the coin and the holder decrypts it. */
  method ConcealAndDecrypt<P(!new, ==)>(c: Curve<P>, coin: OutputCoin<P>, publicView: P, keys: Keys<P>,
      ghost privateKey: seq<byte>, ghost mask: Exponent, ghost amount: Exponent)
    returns (encrypted: bool, ok: bool)
    requires Lawful(c) && KeysFrom(c, keys, privateKey) && keys.readonlyKey.Some?
    requires publicView == AddressOf(c, privateKey).publicView
    requires keys.privateKey.None? || |keys.privateKey.value| == 32
    requires Holds(coin, mask, amount) && coin.Opens(c, mask, amount) && coin.sharedConcealRandom.Some?
    requires coin.txRandom.conceal == ScalarMult(c, c.base, coin.sharedConcealRandom.value)
    modifies coin`mask, coin`amount, coin`sharedRandom, coin`sharedConcealRandom, coin`keyImage
    ensures ok && (encrypted ==> Holds(coin, mask, amount) && !coin.IsEncrypted(c))
    ensures var rK := ScalarMult(c, coin.txRandom.conceal, c.hashToScalar(privateKey));
      encrypted <==> HiddenCommit(c, coin.assetTag, mask, amount, rK) != Commit(c, coin.assetTag, amount, mask)
    ensures !encrypted ==> coin.Hides(c, privateKey, mask, amount)
    ensures keys.privateKey.Some? && coin.OwnedBy(c, privateKey) ==> coin.HasImage(c)
    ensures keys.privateKey.None? ==> coin.keyImage == old(coin.keyImage)
  {
    coin.ConcealOutputCoin(c, publicView, privateKey);
    encrypted := coin.IsEncrypted(c);
    ok := coin.Decrypt(c, keys, privateKey, mask, amount);
  }

  /** The whole life of a confidential-asset coin: made for an address, recognised by its holder, concealed with the
      holder's view key and decrypted by the holder. The concealed coin reads as encrypted exactly when it commits to
      something else; the mask and the amount come back exactly when it does or its hashes hide nothing. */
  method LifeCycle<P(!new, ==)>(c: Curve<P>, identity: P, shards: nat, o: Order<P>, r: Randoms, privateKey: seq<byte>,
      prv: seq<byte>)
    returns (coin: Option<OutputCoin<P>>, belongs: bool, valid: bool, k: Option<Exponent>, encrypted: bool, ok: bool)
    requires Lawful(c) && shards >= 1 && |privateKey| == 32
    requires o.address == AddressOf(c, privateKey) && !o.burning && o.tokenID.Some? && o.tokenID.value != prv
    ensures coin.None? ==> NoneFits(c, shards, o, ScalarMult(c, o.address.publicOTA.value, r.shared))
    ensures coin.None? ==> !belongs && !valid && k.None? && !encrypted && !ok
    ensures coin.Some? ==> belongs && valid && ok && coin.value.Tagged(c, privateKey, o.tokenID.value)
    ensures coin.Some? ==>
              var rK := ScalarMult(c, coin.value.txRandom.conceal, c.hashToScalar(privateKey));
              encrypted <==> HiddenCommit(c, coin.value.assetTag, r.mask, o.amount as int, rK) !=
                             Commit(c, coin.value.assetTag, o.amount as int, r.mask)
    ensures coin.Some? ==> coin.value.rawAssetTag == Some(c.hashToPoint(o.tokenID.value))
    ensures coin.Some? ==> k.Some? && ScalarMult(c, c.base, k.value) == coin.value.publicKey
    ensures coin.Some? && encrypted ==> coin.value.GetValue(c) == o.amount
    ensures coin.Some? ==> coin.value.HasImage(c)
    ensures coin.Some? ==>
              var rK := ScalarMult(c, coin.value.txRandom.conceal, c.hashToScalar(privateKey));
              (Holds(coin.value, r.mask, o.amount as int) <==>
               encrypted || (MaskHash(c, rK) == 0 && AmountHash(c, rK) == 0))
  {
    belongs, valid, k, encrypted, ok := false, false, None, false, false;
    var rAsset;
    coin, rAsset := NewCoinCA(c, identity, shards, o, r, privateKey);
    if coin.None? {
      return;
    }
    var keys := Keys(Some(privateKey), Some(c.hashToScalar(privateKey)), OTASecret(c, privateKey),
                     PublicSpend(c, privateKey));
    belongs, valid, k := Recognise(c, coin.value, keys, privateKey, o.tokenID.value, prv);
    encrypted, ok :=
      ConcealAndDecrypt(c, coin.value, o.address.publicView, keys, privateKey, r.mask, o.amount as int);
    ghost var secret := ScalarMult(c, coin.value.txRandom.conceal, c.hashToScalar(privateKey));
    AddModIsIdentity(r.mask, MaskHash(c, secret));
    AddModIsIdentity(o.amount as int, AmountHash(c, secret));
  }
}
