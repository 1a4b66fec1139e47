/** A curve on which a concealed coin never reads as encrypted, so that decrypting it leaves it hidden: the integers
    modulo the group order, with bases 1 and -1 and hashes that do not vary. */
module SilentCoin {
  import opened Bytes
  import opened CoinLife
  import opened Groups
  import opened MachineInts
  import opened Options
  import opened ScalarLimbs

  function Negative(a: Exponent): Exponent {
    SubMod(0, a)
  }

  function Line(): Curve<Exponent> {
    var group: Group<Exponent> := Group(0, (a: Exponent, b: Exponent) => AddMod(a, b), (a: Exponent) => Negative(a));
    Curve(group, 1, 1, ELL - 1, _ => seq(32, _ => 0), _ => [], _ => 1, _ => 2)
  }

  lemma AddsUp(a: Exponent, b: Exponent)
    ensures AddMod(a, b) == if a + b < ELL then a + b else a + b - ELL
    ensures Negative(a) == if a == 0 then 0 else ELL - a
  {
  }

  lemma LineIsAbelian()
    ensures Abelian(Line().group)
  {
    var g := Line().group;
    forall a, b, c
      ensures Associative(g, a, b, c)
    {
      AddsUp(a, b);
      AddsUp(b, c);
      AddsUp(AddMod(a, b), c);
      AddsUp(a, AddMod(b, c));
    }
    forall a
      ensures Neutral(g, a) && Inverse(g, a)
    {
      AddsUp(a, Negative(a));
    }
  }

  /** Multiples of 1. */
  lemma {:induction false} Ones(n: nat)
    requires n <= ELL
    ensures Mul(Line().group, n, 1) == if n == ELL then 0 else n
  {
    if n > 0 {
      Ones(n - 1);
      AddsUp(n - 1, 1);
    }
  }

  /** Multiples of -1. */
  lemma {:induction false} MinusOnes(n: nat)
    requires n < ELL
    ensures Mul(Line().group, n, ELL - 1) == Negative(n)
  {
    if n > 0 {
      MinusOnes(n - 1);
      AddsUp(n - 1, 0);
      AddsUp(Negative(n - 1), ELL - 1);
      AddsUp(n, 0);
    }
  }

  lemma LineIsLawful()
    ensures Lawful(Line())
  {
    LineIsAbelian();
    var n := ELL;
    Ones(n);
  }

  /** Raising the mask and the amount alike changes nothing. */
  lemma SameCommitment(mask: Exponent, amount: Exponent)
    ensures Commit(Line(), Some(1), AddMod(amount, 1), AddMod(mask, 1)) == Commit(Line(), Some(1), amount, mask)
  {
    CommitsToDifference(mask, amount);
    CommitsToDifference(AddMod(mask, 1), AddMod(amount, 1));
    AddsUp(mask, 1);
    AddsUp(amount, 1);
    AddsUp(mask, 0);
    AddsUp(AddMod(mask, 1), 0);
    AddsUp(amount, Negative(mask));
    AddsUp(AddMod(amount, 1), Negative(AddMod(mask, 1)));
  }

  lemma CommitsToDifference(mask: Exponent, amount: Exponent)
    ensures Commit(Line(), Some(1), amount, mask) == AddMod(amount, Negative(mask))
  {
    Ones(amount);
    MinusOnes(mask);
  }

  lemma TagIsOne(rK: Exponent, tokenID: seq<byte>)
    ensures BlindedTag(Line(), rK, tokenID) == 1
  {
    MinusOnes(1);
    AddsUp(1, 0);
    AddsUp(2, ELL - 1);
  }

  lemma FirstIndexFits(o: Order<Exponent>, rK: Exponent)
    requires o.senderShard == 0 && o.privacyType == 0
    ensures Fits(Line(), 8, o, rK, 1)
  {
  }

  /** Every coin made on this curve stays hidden. */
  method NeverEncrypted(privateKey: seq<byte>, tokenID: seq<byte>, prv: seq<byte>, amount: uint64, r: Randoms)
    returns (coin: Option<OutputCoin<Exponent>>, encrypted: bool)
    requires |privateKey| == 32 && tokenID != prv
    ensures coin.Some? && !encrypted && !Holds(coin.value, r.mask, amount as int)
  {
    var c := Line();
    LineIsLawful();
    var o := Order(AddressOf(c, privateKey), false, amount, 0, 0, Some(tokenID));
    var belongs, valid, k, ok;
    coin, belongs, valid, k, encrypted, ok := LifeCycle(c, 0, 8, o, r, privateKey, prv);
    FirstIndexFits(o, ScalarMult(c, o.address.publicOTA.value, r.shared));
    TagIsOne(ScalarMult(c, coin.value.txRandom.ota, OTASecret(c, privateKey)), tokenID);
    SameCommitment(r.mask, amount as int);
  }
}
