/** The account cache and its synchronisation (incclient/coin_cache.go, incclient/coin_cache_utils.go). */
module CoinCache {
  import opened CoinSync
  import opened Options

  const PRV: string := "0000000000000000000000000000000000000000000000000000000000000004"
  const CONFIDENTIAL_ASSET: string := "0000000000000000000000000000000000000000000000000000000000000005"

  lemma Identifiers()
    ensures |PRV| == |CONFIDENTIAL_ASSET| == 64 && PRV[63] == '4' && CONFIDENTIAL_ASSET[63] == '5'
    ensures PRV[..63] == CONFIDENTIAL_ASSET[..63]
  {
  }

  datatype TokenCache = TokenCache(latestIndex: nat, outCoins: map<nat, Coin>)

  /** The coins of b whose index a does not have. */
  function Missing(a: map<nat, Coin>, b: map<nat, Coin>): map<nat, Coin> {
    map i | i in b && i !in a :: b[i]
  }

  function CoinsOf(cache: map<string, TokenCache>, t: string): map<nat, Coin> {
    if t in cache then cache[t].outCoins else map[]
  }

  /** How a call tells the token of a coin: the table of asset tags at that moment. */
  type Tags = Coin -> Option<string>

  /** The records that a confidential-asset update files under token t. */
  function Filed(tags: Tags, records: map<nat, Coin>, t: string): map<nat, Coin> {
    map i | i in records && tags(records[i]) == Some(t) :: records[i]
  }

  function Lookup(cache: map<string, TokenCache>, t: string): Option<TokenCache> {
    if t in cache then Some(cache[t]) else None
  }

  ghost predicate AllCoinV2(records: map<nat, Coin>) {
    forall i :: i in records ==> records[i].isV2
  }

  /** The entry of token t after the records that belong to it have been filed. */
  function Refreshed(tags: Tags, entry: Option<TokenCache>, records: map<nat, Coin>, latestIndex: nat, t: string)
    : Option<TokenCache>
  {
    var filed := Filed(tags, records, t);
    if entry.None? then
      if filed == map[] then None else Some(TokenCache(latestIndex, filed))
    else
      var added := Missing(entry.value.outCoins, filed);
      if added == map[] then entry else Some(TokenCache(latestIndex, entry.value.outCoins + added))
  }

  /** One turn of the loop over the records. */
  function WithRecord(tags: Tags, cache: map<string, TokenCache>, idx: nat, c: Coin, latestIndex: nat)
    : map<string, TokenCache>
  {
    var tokenId := tags(c);
    if tokenId.None? then cache
    else
      var t := tokenId.value;
      var tokenCached := if t in cache then cache[t] else TokenCache(latestIndex, map[]);
      cache[t := if idx in tokenCached.outCoins then tokenCached
                 else TokenCache(latestIndex, tokenCached.outCoins[idx := c])]
  }

  lemma NewCoin(a: map<nat, Coin>, filed: map<nat, Coin>, idx: nat, c: Coin)
    requires idx !in filed
    ensures filed[idx := c] != map[]
    ensures idx in a ==> Missing(a, filed[idx := c]) == Missing(a, filed)
    ensures idx !in a ==> (a + Missing(a, filed))[idx := c] == a + Missing(a, filed[idx := c])
    ensures idx !in a ==> Missing(a, filed[idx := c]) != map[]
    ensures idx in a + Missing(a, filed) <==> idx in a
    ensures Missing(a, filed) == map[] ==> a + Missing(a, filed) == a
  {
    assert idx in filed[idx := c];
    if idx !in a {
      assert idx in Missing(a, filed[idx := c]);
    }
  }

  lemma OneRecordMore(tags: Tags, before: map<string, TokenCache>, cache: map<string, TokenCache>,
      records: map<nat, Coin>, idx: nat, c: Coin, latestIndex: nat, t: string)
    requires idx !in records
    requires Lookup(cache, t) == Refreshed(tags, Lookup(before, t), records, latestIndex, t)
    ensures Lookup(WithRecord(tags, cache, idx, c, latestIndex), t) ==
            Refreshed(tags, Lookup(before, t), records[idx := c], latestIndex, t)
  {
    var filed := Filed(tags, records, t);
    if tags(c) == Some(t) {
      assert Filed(tags, records[idx := c], t) == filed[idx := c];
      NewCoin(CoinsOf(before, t), filed, idx, c);
    } else {
      assert Filed(tags, records[idx := c], t) == filed;
    }
  }

  /** Filing leaves the entry of token t alone exactly when every record of that token is at an index it has. */
  lemma Untouched(tags: Tags, entry: Option<TokenCache>, records: map<nat, Coin>, latestIndex: nat, t: string)
    ensures Refreshed(tags, entry, records, latestIndex, t) == entry <==>
            forall i :: i in records && tags(records[i]) == Some(t) ==>
              entry.Some? && i in entry.value.outCoins
  {
    var filed := Filed(tags, records, t);
    var had := if entry.Some? then entry.value.outCoins else map[];
    var added := Missing(had, filed);
    if added != map[] {
      var i :| i in added;
      assert i in had + added && i in filed;
    } else {
      forall i | i in records && tags(records[i]) == Some(t)
        ensures i in had
      {
        assert i in filed && i !in added;
      }
      assert entry.None? && filed != map[] ==> filed == Missing(map[], filed);
    }
  }

  // ---- Agreement with the chain ----

  /** The entry holds exactly the owned coins up to its latest index. */
  ghost predicate InStep(w: Wallet, entry: Option<TokenCache>, chain: seq<Coin>) {
    entry.None? || (entry.value.latestIndex < |chain| &&
                    entry.value.outCoins == Owned(w, chain, 0, entry.value.latestIndex + 1))
  }

  /** The length of the part of the confidential-asset list that has been synchronised. */
  function Seen(cache: map<string, TokenCache>): nat {
    if CONFIDENTIAL_ASSET in cache then cache[CONFIDENTIAL_ASSET].latestIndex + 1 else 0
  }

  /** The token that each coin of the synchronised part was identified as by the call that brought it in. */
  type Names = map<nat, Option<string>>

  /** The coins of the list that are named t. */
  function Named(ca: seq<Coin>, names: Names, t: string): map<nat, Coin> {
    map i | i in names && i < |ca| && names[i] == Some(t) :: ca[i]
  }

  /** The names after a call that brought in these coins. */
  function NewNames(names: Names, tags: Tags, updated: map<nat, Coin>): Names {
    names + map i | i in updated :: tags(updated[i])
  }

  /** The owned coins seen are the ones that have a name. */
  ghost predicate NamesSeen(w: Wallet, cache: map<string, TokenCache>, names: Names, ca: seq<Coin>) {
    Seen(cache) <= |ca| && names.Keys == Owned(w, ca, 0, Seen(cache)).Keys
  }

  /** The cache of token t holds exactly the owned confidential-asset coins seen so far that are named t. */
  ghost predicate TokenInStep(cache: map<string, TokenCache>, names: Names, ca: seq<Coin>, t: string) {
    CoinsOf(cache, t) == Named(ca, names, t)
  }

  /** No owned coin of the confidential-asset list is identified as PRV. */
  ghost predicate Separate(w: Wallet, tags: Tags, ca: seq<Coin>) {
    forall i :: 0 <= i < |ca| && Keeps(w, ca[i]) ==> tags(ca[i]) != Some(PRV)
  }

  /** The PRV cache holds a confidential-asset coin that was named PRV. */
  ghost predicate Spoiled(cache: map<string, TokenCache>, names: Names, ca: seq<Coin>) {
    exists i :: i in names && i < |ca| && names[i] == Some(PRV) &&
                i in CoinsOf(cache, PRV) && CoinsOf(cache, PRV)[i] == ca[i]
  }

  /** No coin stands at one index of both lists. */
  ghost predicate Different(prv: seq<Coin>, ca: seq<Coin>) {
    forall i :: 0 <= i < |prv| && i < |ca| ==> prv[i] != ca[i]
  }

  ghost predicate AllV2(w: Wallet, ca: seq<Coin>) {
    forall i :: 0 <= i < |ca| && Keeps(w, ca[i]) ==> ca[i].isV2
  }

  ghost predicate Good(w: Wallet, cache: map<string, TokenCache>, names: Names, prv: seq<Coin>, ca: seq<Coin>) {
    && (InStep(w, Lookup(cache, PRV), prv) || Spoiled(cache, names, ca))
    && InStep(w, Lookup(cache, CONFIDENTIAL_ASSET), ca)
    && NamesSeen(w, cache, names, ca)
    && (AllV2(w, ca) ==> forall t :: t != PRV && t != CONFIDENTIAL_ASSET ==> TokenInStep(cache, names, ca, t))
  }

  /** Every record that is identified as PRV is at an index that the PRV cache has. */
  ghost predicate Harmless(tags: Tags, entry: Option<TokenCache>, records: map<nat, Coin>) {
    forall i :: i in records && tags(records[i]) == Some(PRV) ==> entry.Some? && i in entry.value.outCoins
  }

  /** The source files a confidential-asset record that is identified as PRV into the PRV cache, under an index of
      the other list. The PRV cache survives that exactly when it has the indices of all such records. */
  lemma MisfiledBreaks(w: Wallet, tags: Tags, entry: Option<TokenCache>, prv: seq<Coin>, records: map<nat, Coin>,
      latestIndex: nat)
    requires InStep(w, entry, prv) && forall i :: i in records && i < |prv| ==> prv[i] != records[i]
    ensures InStep(w, Refreshed(tags, entry, records, latestIndex, PRV), prv) <==> Harmless(tags, entry, records)
  {
    var after := Refreshed(tags, entry, records, latestIndex, PRV);
    Untouched(tags, entry, records, latestIndex, PRV);
    if after != entry {
      var i :| i in records && tags(records[i]) == Some(PRV) && (entry.Some? ==> i !in entry.value.outCoins);
      assert i in Filed(tags, records, PRV);
      assert after.Some? && i in after.value.outCoins && after.value.outCoins[i] == records[i];
    }
  }

  /** At every moment of every history: a PRV cache that is not spoiled is in step, and a spoiled one never is. */
  lemma SpoiledBreaks(w: Wallet, cache: map<string, TokenCache>, names: Names, prv: seq<Coin>, ca: seq<Coin>)
    requires Good(w, cache, names, prv, ca) && Different(prv, ca)
    ensures InStep(w, Lookup(cache, PRV), prv) <==> !Spoiled(cache, names, ca)
    ensures Spoiled(cache, names, ca) && prv != [] ==> !FullScan(w, cache, prv, PRV)
  {
  }

  /** A PRV cache that breaks: no PRV coin has been scanned, and a confidential-asset coin without a tag comes in. */
  lemma MisfiledExample(w: Wallet, tags: Tags, c: Coin)
    requires w == Wallet(_ => true, []) && tags == (_ => Some(PRV)) && c == Coin([2], true)
    ensures InStep(w, None, []) && !InStep(w, Refreshed(tags, None, Owned(w, [c], 0, 1), 0, PRV), [])
  {
    var records := Owned(w, [c], 0, 1);
    assert 0 in records && tags(records[0]) == Some(PRV);
    MisfiledBreaks(w, tags, None, [], records, 0);
  }

  lemma OwnedPrefix(w: Wallet, chain: seq<Coin>, chain': seq<Coin>, n: nat)
    requires chain <= chain' && n <= |chain|
    ensures Owned(w, chain, 0, n) == Owned(w, chain', 0, n)
  {
    assert forall i :: 0 <= i < n ==> chain[i] == chain'[i];
  }

  /** Coins never leave a cache, and names never change. */
  lemma SpoiledStays(cache: map<string, TokenCache>, names: Names, ca: seq<Coin>, cache': map<string, TokenCache>,
      names': Names, ca': seq<Coin>)
    requires Spoiled(cache, names, ca) && ca <= ca'
    requires names.Keys <= names'.Keys && forall i :: i in names ==> names'[i] == names[i]
    requires forall i :: i in CoinsOf(cache, PRV) ==>
      i in CoinsOf(cache', PRV) && CoinsOf(cache', PRV)[i] == CoinsOf(cache, PRV)[i]
    ensures Spoiled(cache', names', ca')
  {
    var i :| i in names && i < |ca| && names[i] == Some(PRV) &&
      i in CoinsOf(cache, PRV) && CoinsOf(cache, PRV)[i] == ca[i];
    assert i in CoinsOf(cache', PRV) && ca'[i] == ca[i];
  }

  /** Agreement survives when the lists grow at their ends. */
  lemma GoodExtends(w: Wallet, cache: map<string, TokenCache>, names: Names, prv: seq<Coin>, ca: seq<Coin>,
      prv': seq<Coin>, ca': seq<Coin>)
    requires Good(w, cache, names, prv, ca) && prv <= prv' && ca <= ca'
    ensures Good(w, cache, names, prv', ca')
  {
    if PRV in cache && InStep(w, Lookup(cache, PRV), prv) {
      OwnedPrefix(w, prv, prv', cache[PRV].latestIndex + 1);
    } else if Spoiled(cache, names, ca) {
      SpoiledStays(cache, names, ca, cache, names, ca');
    }
    OwnedPrefix(w, ca, ca', Seen(cache));
    if AllV2(w, ca') {
      assert AllV2(w, ca) by {
        assert forall i :: 0 <= i < |ca| ==> ca'[i] == ca[i];
      }
      forall t | t != PRV && t != CONFIDENTIAL_ASSET
        ensures TokenInStep(cache, names, ca', t)
      {
        assert TokenInStep(cache, names, ca, t);
        assert forall i :: i in names ==> i < |ca|;
        assert Named(ca', names, t) == Named(ca, names, t);
      }
    }
  }

  /** Where the next synchronisation starts. */
  function StartIndex(entry: Option<TokenCache>): nat {
    var currentIndex := (if entry.Some? then entry.value.latestIndex else 0) + 1;
    if currentIndex == 1 then 0 else currentIndex
  }

  /** A scan goes on after the latest index, and begins anew when that is 0. */
  lemma ScanStart(entry: Option<TokenCache>)
    ensures entry.Some? && entry.value.latestIndex > 0 ==> StartIndex(entry) == entry.value.latestIndex + 1
    ensures entry.None? || entry.value.latestIndex == 0 ==> StartIndex(entry) == 0
  {
  }

  /** Adding the new coins of a scan from the start index brings the entry up to the whole list, although an entry
      whose latest index is 0 is scanned again from the beginning. */
  lemma CaughtUp(w: Wallet, entry: Option<TokenCache>, chain: seq<Coin>)
    requires InStep(w, entry, chain) && StartIndex(entry) < |chain|
    ensures var had := if entry.Some? then entry.value.outCoins else map[];
      had + Missing(had, Owned(w, chain, StartIndex(entry), |chain|)) == Owned(w, chain, 0, |chain|)
  {
  }

  lemma RefreshedCoins(tags: Tags, mid: map<string, TokenCache>, cache: map<string, TokenCache>,
      filed: map<nat, Coin>, latestIndex: nat, t: string)
    requires Lookup(cache, t) == Refreshed(tags, Lookup(mid, t), filed, latestIndex, t)
    ensures CoinsOf(cache, t) == CoinsOf(mid, t) + Missing(CoinsOf(mid, t), Filed(tags, filed, t))
  {
    var had := CoinsOf(mid, t);
    if Missing(had, Filed(tags, filed, t)) == map[] {
      assert had + map[] == had;
    }
    assert t !in mid ==> Missing(had, Filed(tags, filed, t)) == Filed(tags, filed, t);
    assert t !in mid ==> had + Filed(tags, filed, t) == Filed(tags, filed, t);
  }

  /** Filing the new coins of a token completes its cache. */
  lemma TokenCaughtUp(tags: Tags, names: Names, ca: seq<Coin>, updated: map<nat, Coin>, t: string)
    requires forall i :: i in updated ==> i !in names && i < |ca| && updated[i] == ca[i]
    ensures var had := Named(ca, names, t);
      had + Missing(had, Filed(tags, updated, t)) == Named(ca, NewNames(names, tags, updated), t)
  {
  }

  /** The state between the two parts of a confidential-asset update. */
  ghost predicate ListUpdated(w: Wallet, cache: map<string, TokenCache>, mid: map<string, TokenCache>, ca: seq<Coin>,
      start: nat, updated: map<nat, Coin>)
  {
    && |ca| > 0 && start <= Seen(cache) && start <= |ca|
    && mid == cache[CONFIDENTIAL_ASSET := TokenCache(|ca| - 1, Owned(w, ca, 0, |ca|))]
    && updated == Missing(CoinsOf(cache, CONFIDENTIAL_ASSET), Owned(w, ca, start, |ca|))
  }

  /** The new coins have no name yet; with them all coins of the list are seen. */
  lemma NewOnes(w: Wallet, tags: Tags, cache: map<string, TokenCache>, mid: map<string, TokenCache>, names: Names,
      ca: seq<Coin>, start: nat, updated: map<nat, Coin>)
    requires InStep(w, Lookup(cache, CONFIDENTIAL_ASSET), ca) && NamesSeen(w, cache, names, ca)
    requires ListUpdated(w, cache, mid, ca, start, updated)
    ensures forall i :: i in updated ==> i !in names && i < |ca| && updated[i] == ca[i] && Keeps(w, ca[i])
    ensures NamesSeen(w, mid, NewNames(names, tags, updated), ca)
  {
    var seen := Seen(cache);
    assert CoinsOf(cache, CONFIDENTIAL_ASSET) == Owned(w, ca, 0, seen) by {
      assert seen == 0 ==> Owned(w, ca, 0, seen) == map[];
    }
    assert updated == Missing(Owned(w, ca, 0, seen), Owned(w, ca, start, |ca|));
    assert NewNames(names, tags, updated).Keys == Owned(w, ca, 0, |ca|).Keys;
  }

  lemma TokensFiled(tags: Tags, cache: map<string, TokenCache>, mid: map<string, TokenCache>,
      cache': map<string, TokenCache>, names: Names, ca: seq<Coin>, updated: map<nat, Coin>, t: string)
    requires forall i :: i in updated ==> i !in names && i < |ca| && updated[i] == ca[i]
    requires TokenInStep(cache, names, ca, t) && CoinsOf(mid, t) == CoinsOf(cache, t) && |ca| > 0
    requires Lookup(cache', t) == Refreshed(tags, Lookup(mid, t), updated, |ca| - 1, t)
    ensures TokenInStep(cache', NewNames(names, tags, updated), ca, t)
  {
    RefreshedCoins(tags, mid, cache', updated, |ca| - 1, t);
    TokenCaughtUp(tags, names, ca, updated, t);
  }

  /** No record changes the entry of the list itself, which has them all. */
  lemma ListEntryKept(w: Wallet, tags: Tags, mid: map<string, TokenCache>, cache': map<string, TokenCache>,
      ca: seq<Coin>, filed: map<nat, Coin>)
    requires |ca| > 0 && Lookup(mid, CONFIDENTIAL_ASSET) == Some(TokenCache(|ca| - 1, Owned(w, ca, 0, |ca|)))
    requires forall i :: i in filed ==> i < |ca| && filed[i] == ca[i] && Keeps(w, ca[i])
    requires forall t :: Lookup(cache', t) == Refreshed(tags, Lookup(mid, t), filed, |ca| - 1, t)
    ensures Lookup(cache', CONFIDENTIAL_ASSET) == Lookup(mid, CONFIDENTIAL_ASSET)
  {
    Untouched(tags, Lookup(mid, CONFIDENTIAL_ASSET), filed, |ca| - 1, CONFIDENTIAL_ASSET);
  }

  /** A PRV entry stays as it is, stays spoiled or becomes spoiled. */
  lemma PRVEntryKept(w: Wallet, tags: Tags, mid: map<string, TokenCache>, cache': map<string, TokenCache>,
      names: Names, names': Names, prv: seq<Coin>, ca: seq<Coin>, filed: map<nat, Coin>)
    requires InStep(w, Lookup(mid, PRV), prv) || Spoiled(mid, names, ca)
    requires names.Keys <= names'.Keys && forall i :: i in names ==> names'[i] == names[i]
    requires forall i :: i in filed ==> i in names' && i < |ca| && filed[i] == ca[i] && names'[i] == tags(ca[i])
    requires |ca| > 0 && Lookup(cache', PRV) == Refreshed(tags, Lookup(mid, PRV), filed, |ca| - 1, PRV)
    ensures InStep(w, Lookup(cache', PRV), prv) || Spoiled(cache', names', ca)
  {
    RefreshedCoins(tags, mid, cache', filed, |ca| - 1, PRV);
    if Spoiled(mid, names, ca) {
      SpoiledStays(mid, names, ca, cache', names', ca);
    } else if Lookup(cache', PRV) != Lookup(mid, PRV) {
      Untouched(tags, Lookup(mid, PRV), filed, |ca| - 1, PRV);
      var i :| i in filed && tags(filed[i]) == Some(PRV) && i !in CoinsOf(mid, PRV);
      assert i in Filed(tags, filed, PRV);
      assert i in CoinsOf(cache', PRV) && CoinsOf(cache', PRV)[i] == ca[i];
    }
  }

  lemma AllTokensFiled(tags: Tags, cache: map<string, TokenCache>, mid: map<string, TokenCache>,
      cache': map<string, TokenCache>, names: Names, ca: seq<Coin>, updated: map<nat, Coin>)
    requires |ca| > 0 && forall i :: i in updated ==> i !in names && i < |ca| && updated[i] == ca[i]
    requires forall t :: t != PRV && t != CONFIDENTIAL_ASSET ==> TokenInStep(cache, names, ca, t)
    requires forall t :: t != CONFIDENTIAL_ASSET ==> CoinsOf(mid, t) == CoinsOf(cache, t)
    requires forall t :: Lookup(cache', t) == Refreshed(tags, Lookup(mid, t), updated, |ca| - 1, t)
    ensures forall t :: t != PRV && t != CONFIDENTIAL_ASSET ==>
                          TokenInStep(cache', NewNames(names, tags, updated), ca, t)
  {
    forall t | t != PRV && t != CONFIDENTIAL_ASSET
      ensures TokenInStep(cache', NewNames(names, tags, updated), ca, t)
    {
      assert TokenInStep(cache, names, ca, t);
      TokensFiled(tags, cache, mid, cache', names, ca, updated, t);
    }
  }

  /** The new names of the records that were filed. */
  lemma NamedAsFiled(names: Names, tags: Tags, updated: map<nat, Coin>, filed: map<nat, Coin>, ca: seq<Coin>)
    requires forall i :: i in updated ==> i !in names && i < |ca| && updated[i] == ca[i]
    requires filed.Keys <= updated.Keys && filed == map i | i in filed :: updated[i]
    ensures var names' := NewNames(names, tags, updated);
      && names.Keys <= names'.Keys && (forall i :: i in names ==> names'[i] == names[i])
      && (forall i :: i in filed ==> i in names' && i < |ca| && filed[i] == ca[i] && names'[i] == tags(ca[i]))
  {
    forall i | i in filed
      ensures filed[i] == updated[i]
    {
    }
  }

  /** The PRV entry and the entry of the list after a confidential-asset update. */
  lemma MainEntriesKept(w: Wallet, tags: Tags, cache: map<string, TokenCache>, mid: map<string, TokenCache>,
      cache': map<string, TokenCache>, names: Names, prv: seq<Coin>, ca: seq<Coin>, start: nat,
      updated: map<nat, Coin>, filed: map<nat, Coin>)
    requires ListUpdated(w, cache, mid, ca, start, updated)
    requires InStep(w, Lookup(cache, PRV), prv) || Spoiled(cache, names, ca)
    requires forall i :: i in updated ==> i !in names && i < |ca| && updated[i] == ca[i] && Keeps(w, ca[i])
    requires filed.Keys <= updated.Keys && filed == map i | i in filed :: updated[i]
    requires forall t :: Lookup(cache', t) == Refreshed(tags, Lookup(mid, t), filed, |ca| - 1, t)
    ensures Lookup(cache', CONFIDENTIAL_ASSET) == Lookup(mid, CONFIDENTIAL_ASSET)
    ensures InStep(w, Lookup(cache', PRV), prv) || Spoiled(cache', NewNames(names, tags, updated), ca)
  {
    NamedAsFiled(names, tags, updated, filed, ca);
    ListEntryKept(w, tags, mid, cache', ca, filed);
    assert Lookup(mid, PRV) == Lookup(cache, PRV);
    if Spoiled(cache, names, ca) {
      SpoiledStays(cache, names, ca, mid, names, ca);
    }
    PRVEntryKept(w, tags, mid, cache', names, NewNames(names, tags, updated), prv, ca, filed);
  }

  /** A confidential-asset update, completed or broken off, keeps the agreement. */
  lemma AssetUpdateKeeps(w: Wallet, tags: Tags, cache: map<string, TokenCache>, mid: map<string, TokenCache>,
      cache': map<string, TokenCache>, names: Names, prv: seq<Coin>, ca: seq<Coin>, start: nat,
      updated: map<nat, Coin>, filed: map<nat, Coin>)
    requires Good(w, cache, names, prv, ca) && ListUpdated(w, cache, mid, ca, start, updated)
    requires filed.Keys <= updated.Keys && filed == map i | i in filed :: updated[i]
    requires filed == updated || exists i :: i in updated && !updated[i].isV2
    requires forall t :: Lookup(cache', t) == Refreshed(tags, Lookup(mid, t), filed, |ca| - 1, t)
    ensures Good(w, cache', NewNames(names, tags, updated), prv, ca)
    ensures Lookup(cache', CONFIDENTIAL_ASSET) == Lookup(mid, CONFIDENTIAL_ASSET)
  {
    NewOnes(w, tags, cache, mid, names, ca, start, updated);
    MainEntriesKept(w, tags, cache, mid, cache', names, prv, ca, start, updated, filed);
    if AllV2(w, ca) {
      assert filed == updated;
      AllTokensFiled(tags, cache, mid, cache', names, ca, updated);
    }
  }

  /** The entry of list t is a full scan of it; an empty list needs no entry. */
  ghost predicate FullScan(w: Wallet, cache: map<string, TokenCache>, chain: seq<Coin>, t: string) {
    chain != [] ==> Lookup(cache, t) == Some(TokenCache(|chain| - 1, Owned(w, chain, 0, |chain|)))
  }

  /** Only a spoiled PRV entry can fail to be a full scan after a call that ends without an error. */
  ghost predicate Scanned(w: Wallet, cache: map<string, TokenCache>, names: Names, a: Attempt) {
    FullScan(w, cache, ChainOf(a), ListOf(a)) || (ListOf(a) == PRV && Spoiled(cache, names, a.ca))
  }

  lemma FullWhenCaughtUp(w: Wallet, cache: map<string, TokenCache>, chain: seq<Coin>, t: string)
    requires InStep(w, Lookup(cache, t), chain) && StartIndex(Lookup(cache, t)) >= |chain|
    ensures FullScan(w, cache, chain, t)
  {
  }

  lemma NothingNew(w: Wallet, cache: map<string, TokenCache>, names: Names, a: Attempt)
    requires Good(w, cache, names, a.prv, a.ca) && StartIndex(Lookup(cache, ListOf(a))) >= |ChainOf(a)|
    ensures Scanned(w, cache, names, a)
  {
    if InStep(w, Lookup(cache, ListOf(a)), ChainOf(a)) {
      FullWhenCaughtUp(w, cache, ChainOf(a), ListOf(a));
    }
  }

  /** The entry after new PRV coins have been added to it. */
  function Added(cache: map<string, TokenCache>, t: string, latestIndex: nat, data: map<nat, Coin>)
    : map<string, TokenCache>
  {
    cache[t := TokenCache(latestIndex, CoinsOf(cache, t) + Missing(CoinsOf(cache, t), data))]
  }

  lemma PRVUpdateKeeps(w: Wallet, cache: map<string, TokenCache>, names: Names, prv: seq<Coin>, ca: seq<Coin>)
    requires Good(w, cache, names, prv, ca) && StartIndex(Lookup(cache, PRV)) < |prv|
    ensures var cache' := Added(cache, PRV, |prv| - 1, Owned(w, prv, StartIndex(Lookup(cache, PRV)), |prv|));
      Good(w, cache', names, prv, ca) && (FullScan(w, cache', prv, PRV) || Spoiled(cache', names, ca))
  {
    var cache' := Added(cache, PRV, |prv| - 1, Owned(w, prv, StartIndex(Lookup(cache, PRV)), |prv|));
    if InStep(w, Lookup(cache, PRV), prv) {
      CaughtUp(w, Lookup(cache, PRV), prv);
    } else {
      SpoiledStays(cache, names, ca, cache', names, ca);
    }
    if AllV2(w, ca) {
      forall t | t != PRV && t != CONFIDENTIAL_ASSET
        ensures TokenInStep(cache', names, ca, t)
      {
        assert TokenInStep(cache, names, ca, t);
      }
    }
  }

  datatype SyncResult = UpToDate | Synced | Failed | Pending

  /** One call of the synchroniser: the two lists on the chain at that moment, whether loading another account has
      dropped this one from memory, what the node does, its table of asset tags, and whether the file is written. */
  datatype Attempt = Attempt(prv: seq<Coin>, ca: seq<Coin>, dropped: bool, tokenID: string, maxThreads: nat,
    events: seq<Event>, lengthKnown: bool, tags: Option<Tags>, stored: bool)

  /** The list that is scanned for a token. */
  function ListOf(a: Attempt): string {
    if a.tokenID != PRV then CONFIDENTIAL_ASSET else PRV
  }

  function ChainOf(a: Attempt): seq<Coin> {
    if a.tokenID != PRV then a.ca else a.prv
  }

  /** The table of a call that has no coin to look up. */
  function NoTags(): Tags {
    _ => None
  }

  function TagsOf(a: Attempt): Tags {
    if a.tags.Some? then a.tags.value else NoTags()
  }

  /** Some worker may run, and the lists only grow. */
  ghost predicate Growing(history: seq<Attempt>) {
    && (forall k :: 0 <= k < |history| ==> history[k].maxThreads >= 1)
    && (forall k :: 0 < k < |history| ==>
          history[k - 1].prv <= history[k].prv && history[k - 1].ca <= history[k].ca)
  }

  /** The coins that a completed scan of the confidential-asset list adds. */
  function NewCoins(w: Wallet, cache: map<string, TokenCache>, ca: seq<Coin>): map<nat, Coin> {
    var start := StartIndex(Lookup(cache, CONFIDENTIAL_ASSET));
    if start >= |ca| then map[] else Missing(CoinsOf(cache, CONFIDENTIAL_ASSET), Owned(w, ca, start, |ca|))
  }

  /** The records of a completed scan can all be filed: the table is there when it is needed, and new coins are
      CoinV2. */
  ghost predicate Fileable(w: Wallet, cache: map<string, TokenCache>, a: Attempt) {
    var start := StartIndex(Lookup(cache, CONFIDENTIAL_ASSET));
    a.tokenID == PRV || start >= |a.ca| ||
    ((a.tags.Some? || Owned(w, a.ca, start, |a.ca|) == map[]) && AllCoinV2(NewCoins(w, cache, a.ca)))
  }

  /** Something is new, and every batch of it is fetched in the end. */
  ghost predicate InTime(cache: map<string, TokenCache>, a: Attempt) {
    var start := StartIndex(Lookup(cache, ListOf(a)));
    start < |ChainOf(a)| && Favourable(a.events, NumThreads(start, |ChainOf(a)|), a.maxThreads)
  }

  /** The whole account after a completed scan, of which the records `filed` were filed under their tokens. */
  ghost predicate Merged(w: Wallet, a: Attempt, before: map<string, TokenCache>, after: map<string, TokenCache>,
    filed: map<nat, Coin>)
  {
    var chain, start := ChainOf(a), StartIndex(Lookup(before, ListOf(a)));
    start < |chain| &&
    var mid := Added(before, ListOf(a), |chain| - 1, Owned(w, chain, start, |chain|));
    if a.tokenID == PRV then after == mid
    else forall t :: Lookup(after, t) == Refreshed(TagsOf(a), Lookup(mid, t), filed, |chain| - 1, t)
  }

  /** The call gave coin i of its list this name. */
  ghost predicate NamedBy(a: Attempt, i: nat, name: Option<string>) {
    i < |a.ca| && a.tags.Some? && name == a.tags.value(a.ca[i])
  }

  /** The name of a coin was in memory or in the file. */
  ghost predicate Known(inMemory: bool, names: Names, onFile: bool, saved: Names, i: nat, name: Option<string>) {
    (inMemory && i in names && name == names[i]) || (onFile && i in saved && name == saved[i])
  }

  /** Every name was known before or was given by this call. */
  ghost predicate Explained(a: Attempt, inMemory: bool, names: Names, onFile: bool, saved: Names, names': Names) {
    forall i :: i in names' ==> Known(inMemory, names, onFile, saved, i, names'[i]) || NamedBy(a, i, names'[i])
  }

  lemma NewNamesExplained(a: Attempt, names: Names, updated: map<nat, Coin>)
    requires forall i :: i in updated ==> a.tags.Some? && i < |a.ca| && updated[i] == a.ca[i]
    ensures Explained(a, true, names, false, map[], NewNames(names, TagsOf(a), updated))
  {
  }

  /** What a scan of the confidential-asset list does to a PRV entry that was in step. */
  ghost predicate PRVAfter(w: Wallet, a: Attempt, before: map<string, TokenCache>, after: map<string, TokenCache>,
    filed: map<nat, Coin>)
  {
    a.tokenID != PRV && Different(a.prv, a.ca) && InStep(w, Lookup(before, PRV), a.prv) ==>
      (InStep(w, Lookup(after, PRV), a.prv) <==> Harmless(TagsOf(a), Lookup(before, PRV), filed))
  }

  lemma Misfiling(w: Wallet, a: Attempt, before: map<string, TokenCache>, after: map<string, TokenCache>,
      filed: map<nat, Coin>)
    requires forall i :: i in filed ==> i < |a.ca| && filed[i] == a.ca[i]
    requires a.ca != []
    requires Lookup(after, PRV) == Refreshed(TagsOf(a), Lookup(before, PRV), filed, |a.ca| - 1, PRV)
    ensures PRVAfter(w, a, before, after, filed)
  {
    if Different(a.prv, a.ca) && InStep(w, Lookup(before, PRV), a.prv) {
      MisfiledBreaks(w, TagsOf(a), Lookup(before, PRV), a.prv, filed, |a.ca| - 1);
    }
  }

  /** The entry of the list after a completed scan, and the coins that are new. */
  lemma ListCaughtUp(w: Wallet, cache: map<string, TokenCache>, mid: map<string, TokenCache>, ca: seq<Coin>,
      data: map<nat, Coin>, updated: map<nat, Coin>)
    requires InStep(w, Lookup(cache, CONFIDENTIAL_ASSET), ca)
    requires StartIndex(Lookup(cache, CONFIDENTIAL_ASSET)) < |ca|
    requires data == Owned(w, ca, StartIndex(Lookup(cache, CONFIDENTIAL_ASSET)), |ca|)
    requires updated == Missing(CoinsOf(cache, CONFIDENTIAL_ASSET), data)
    requires mid == cache[CONFIDENTIAL_ASSET := TokenCache(|ca| - 1, CoinsOf(cache, CONFIDENTIAL_ASSET) + updated)]
    ensures ListUpdated(w, cache, mid, ca, StartIndex(Lookup(cache, CONFIDENTIAL_ASSET)), updated)
    ensures updated == NewCoins(w, cache, ca)
    ensures forall i :: i in updated ==> i in data && i < |ca| && updated[i] == ca[i]
  {
    CaughtUp(w, Lookup(cache, CONFIDENTIAL_ASSET), ca);
  }

  /** All that the second half of a scan of the confidential-asset list does. */
  lemma AssetsMerged(w: Wallet, a: Attempt, cache: map<string, TokenCache>, mid: map<string, TokenCache>,
      cache': map<string, TokenCache>, names: Names, data: map<nat, Coin>, updated: map<nat, Coin>,
      filed: map<nat, Coin>)
    requires Good(w, cache, names, a.prv, a.ca) && StartIndex(Lookup(cache, CONFIDENTIAL_ASSET)) < |a.ca|
    requires data == Owned(w, a.ca, StartIndex(Lookup(cache, CONFIDENTIAL_ASSET)), |a.ca|)
    requires data == map[] || a.tags.Some?
    requires updated == Missing(CoinsOf(cache, CONFIDENTIAL_ASSET), data)
    requires mid == cache[CONFIDENTIAL_ASSET :=
               TokenCache(|a.ca| - 1, CoinsOf(cache, CONFIDENTIAL_ASSET) + updated)]
    requires filed.Keys <= updated.Keys && filed == map i | i in filed :: updated[i]
    requires filed == updated || exists i :: i in updated && !updated[i].isV2
    requires forall t :: Lookup(cache', t) == Refreshed(TagsOf(a), Lookup(mid, t), filed, |a.ca| - 1, t)
    ensures Good(w, cache', NewNames(names, TagsOf(a), updated), a.prv, a.ca)
    ensures FullScan(w, cache', a.ca, CONFIDENTIAL_ASSET) && updated == NewCoins(w, cache, a.ca)
    ensures Explained(a, true, names, false, map[], NewNames(names, TagsOf(a), updated))
    ensures PRVAfter(w, a, cache, cache', filed)
  {
    ListCaughtUp(w, cache, mid, a.ca, data, updated);
    AssetUpdateKeeps(w, TagsOf(a), cache, mid, cache', names, a.prv, a.ca,
      StartIndex(Lookup(cache, CONFIDENTIAL_ASSET)),
                     updated, filed);
    NewNamesExplained(a, names, updated);
    assert forall i :: i in filed ==> i in updated && filed[i] == updated[i];
    assert Lookup(mid, PRV) == Lookup(cache, PRV);
    Misfiling(w, a, cache, cache', filed);
  }

  class AccountCache {
    var cachedTokens: map<string, TokenCache>
    var inMemory: bool
    /** What the account's file holds, if there is one. */
    var onFile: bool
    var savedTokens: map<string, TokenCache>
    ghost var names: Names
    ghost var savedNames: Names

    constructor ()
      ensures !inMemory && !onFile
    {
      cachedTokens, names, inMemory := map[], map[], false;
      savedTokens, savedNames, onFile := map[], map[], false;
    }

    /** Adds coins at new indices only, and returns those. */
    method Update(tokenID: string, latestIndex: nat, outCoins: map<nat, Coin>) returns (updated: map<nat, Coin>)
      modifies this`cachedTokens
      ensures updated == Missing(CoinsOf(old(cachedTokens), tokenID), outCoins)
      ensures cachedTokens ==
              old(cachedTokens)[tokenID := TokenCache(latestIndex, CoinsOf(old(cachedTokens), tokenID) + updated)]
    {
      updated := map[];
      var tokenCached;
      if tokenID !in cachedTokens {
        tokenCached := TokenCache(latestIndex, outCoins);
        updated := outCoins;
        assert updated == Missing(map[], outCoins) && map[] + updated == outCoins;
      } else {
        tokenCached := cachedTokens[tokenID];
        ghost var before := tokenCached.outCoins;
        var rest := outCoins.Keys;
        while rest != {}
          invariant rest <= outCoins.Keys
          invariant updated == Missing(before, outCoins - rest)
          invariant tokenCached.outCoins == before + updated
        {
          var idx :| idx in rest;
          if idx !in tokenCached.outCoins {
            tokenCached := tokenCached.(outCoins := tokenCached.outCoins[idx := outCoins[idx]]);
            updated := updated[idx := outCoins[idx]];
          }
          rest := rest - {idx};
        }
        assert outCoins - {} == outCoins;
      }
      tokenCached := tokenCached.(latestIndex := latestIndex);
      cachedTokens := cachedTokens[tokenID := tokenCached];
    }

    /** The loop that files records under their tokens, in whatever order the map is walked; it stops at a coin that
        is not a CoinV2. */
    method FileRecords(tags: Tags, latestIndex: nat, records: map<nat, Coin>)
      returns (ok: bool, ghost filed: map<nat, Coin>)
      modifies this`cachedTokens
      ensures filed.Keys <= records.Keys && filed == map i | i in filed :: records[i]
      ensures ok ==> filed == records
      ensures ok <==> AllCoinV2(records)
      ensures forall t :: Lookup(cachedTokens, t) ==
                          Refreshed(tags, Lookup(old(cachedTokens), t), filed, latestIndex, t)
    {
      var rest := records.Keys;
      filed := map[];
      ghost var before := cachedTokens;
      forall t
        ensures Lookup(before, t) == Refreshed(tags, Lookup(before, t), filed, latestIndex, t)
      {
        Untouched(tags, Lookup(before, t), filed, latestIndex, t);
      }
      while rest != {}
        invariant rest <= records.Keys && filed == records - rest && AllCoinV2(filed)
        invariant forall t :: Lookup(cachedTokens, t) ==
                              Refreshed(tags, Lookup(before, t), filed, latestIndex, t)
      {
        var idx :| idx in rest;
        var c := records[idx];
        if !c.isV2 {
          return false, filed;
        }
        forall t {
          OneRecordMore(tags, before, cachedTokens, filed, idx, c, latestIndex, t);
        }
        cachedTokens := WithRecord(tags, cachedTokens, idx, c, latestIndex);
        rest := rest - {idx};
        filed := filed[idx := c];
      }
      ok := true;
    }

    method UpdateAllTokens(tags: Tags, latestIndex: nat, data: map<nat, Coin>)
      returns (ok: bool, ghost mid: map<string, TokenCache>, ghost updated: map<nat, Coin>,
        ghost filed: map<nat, Coin>)
      modifies this`cachedTokens
      ensures updated == Missing(CoinsOf(old(cachedTokens), CONFIDENTIAL_ASSET), data)
      ensures mid == old(cachedTokens)[CONFIDENTIAL_ASSET :=
                TokenCache(latestIndex, CoinsOf(old(cachedTokens), CONFIDENTIAL_ASSET) + updated)]
      ensures filed.Keys <= updated.Keys && filed == map i | i in filed :: updated[i]
      ensures ok ==> filed == updated
      ensures ok <==> AllCoinV2(updated)
      ensures forall t :: Lookup(cachedTokens, t) == Refreshed(tags, Lookup(mid, t), filed, latestIndex, t)
    {
      var updateRecords := Update(CONFIDENTIAL_ASSET, latestIndex, data);
      updated, mid := updateRecords, cachedTokens;
      ok, filed := FileRecords(tags, latestIndex, updateRecords);
    }

    /** The second half of a successful scan: the account's entries are updated. */
    method MergePRV(w: Wallet, prv: seq<Coin>, ghost ca: seq<Coin>, data: map<nat, Coin>)
      requires Good(w, cachedTokens, names, prv, ca)
      requires StartIndex(Lookup(cachedTokens, PRV)) < |prv|
      requires data == Owned(w, prv, StartIndex(Lookup(cachedTokens, PRV)), |prv|)
      modifies this`cachedTokens
      ensures Good(w, cachedTokens, names, prv, ca)
      ensures FullScan(w, cachedTokens, prv, PRV) || Spoiled(cachedTokens, names, ca)
      ensures cachedTokens == Added(old(cachedTokens), PRV, |prv| - 1, data)
    {
      PRVUpdateKeeps(w, cachedTokens, names, prv, ca);
      var _ := Update(PRV, |prv| - 1, data);
    }

    /** The half for the confidential-asset list; `filed` are the records that it files under their tokens. */
    method MergeAssets(w: Wallet, a: Attempt, data: map<nat, Coin>) returns (ok: bool, ghost filed: map<nat, Coin>)
      requires a.tokenID != PRV && Good(w, cachedTokens, names, a.prv, a.ca)
      requires StartIndex(Lookup(cachedTokens, CONFIDENTIAL_ASSET)) < |a.ca|
      requires data == Owned(w, a.ca, StartIndex(Lookup(cachedTokens, CONFIDENTIAL_ASSET)), |a.ca|)
      modifies this`cachedTokens, this`names
      ensures Good(w, cachedTokens, names, a.prv, a.ca)
      ensures ok ==> FullScan(w, cachedTokens, a.ca, CONFIDENTIAL_ASSET)
      ensures Explained(a, true, old(names), false, map[], names)
      ensures PRVAfter(w, a, old(cachedTokens), cachedTokens, filed)
      ensures ok ==> filed == NewCoins(w, old(cachedTokens), a.ca)
      ensures ok <==> Fileable(w, old(cachedTokens), a)
      ensures ok ==> Merged(w, a, old(cachedTokens), cachedTokens, filed)
    {
      if data != map[] && a.tags.None? {
        return false, map[];
      }
      ghost var before, mid, updated := cachedTokens, map[], map[];
      ok, mid, updated, filed := UpdateAllTokens(TagsOf(a), |a.ca| - 1, data);
      AssetsMerged(w, a, before, mid, cachedTokens, names, data, updated, filed);
      names := NewNames(names, TagsOf(a), updated);
    }

    /** Either half, for the list that was scanned. */
    method Merge(w: Wallet, a: Attempt, data: map<nat, Coin>) returns (ok: bool, ghost filed: map<nat, Coin>)
      requires Good(w, cachedTokens, names, a.prv, a.ca)
      requires StartIndex(Lookup(cachedTokens, ListOf(a))) < |ChainOf(a)|
      requires data == Owned(w, ChainOf(a), StartIndex(Lookup(cachedTokens, ListOf(a))), |ChainOf(a)|)
      modifies this`cachedTokens, this`names
      ensures Good(w, cachedTokens, names, a.prv, a.ca)
      ensures ok ==> Scanned(w, cachedTokens, names, a)
      ensures Explained(a, true, old(names), false, map[], names)
      ensures PRVAfter(w, a, old(cachedTokens), cachedTokens, filed)
      ensures ok && a.tokenID != PRV ==> filed == NewCoins(w, old(cachedTokens), a.ca)
      ensures ok <==> Fileable(w, old(cachedTokens), a)
      ensures ok ==> Merged(w, a, old(cachedTokens), cachedTokens, filed)
    {
      if a.tokenID == PRV {
        MergePRV(w, a.prv, a.ca, data);
        return true, map[];
      }
      ok, filed := MergeAssets(w, a, data);
    }

    /** Memory and file agree with the lists. */
    ghost predicate Agrees(w: Wallet, prv: seq<Coin>, ca: seq<Coin>)
      reads this
    {
      && (inMemory ==> Good(w, cachedTokens, names, prv, ca))
      && (onFile ==> Good(w, savedTokens, savedNames, prv, ca))
    }

    /** The account as a call finds it: in memory, else from its file, else new and empty. */
    method Load(ghost w: Wallet, ghost prv: seq<Coin>, ghost ca: seq<Coin>, dropped: bool)
      requires Agrees(w, prv, ca)
      modifies this`cachedTokens, this`names, this`inMemory
      ensures Agrees(w, prv, ca) && Good(w, cachedTokens, names, prv, ca)
      ensures cachedTokens == if old(inMemory) && !dropped then old(cachedTokens) else if onFile then savedTokens
                              else map[]
      ensures inMemory <==> (old(inMemory) && !dropped) || onFile
      ensures forall i :: i in names ==> Known(old(inMemory), old(names), onFile, savedNames, i, names[i])
    {
      inMemory := inMemory && !dropped;
      if !inMemory {
        if onFile {
          cachedTokens, names, inMemory := savedTokens, savedNames, true;
        } else {
          EmptyIsGood(w, prv, ca);
          cachedTokens, names := map[], map[];
        }
      }
    }

    /** The updated account goes to memory and to its file; when that fails it is dropped from memory. */
    method AddAccount(stored: bool)
      modifies this`inMemory, this`onFile, this`savedTokens, this`savedNames
      ensures inMemory == stored
      ensures if stored then onFile && savedTokens == cachedTokens && savedNames == names
              else onFile == old(onFile) && savedTokens == old(savedTokens) && savedNames == old(savedNames)
    {
      inMemory := true;
      if stored {
        onFile, savedTokens, savedNames := true, cachedTokens, names;
      } else {
        inMemory := false;
      }
    }

    /** The scan of the list and the update of the account's entries. */
    method Scan(w: Wallet, a: Attempt) returns (r: SyncResult, ghost filed: map<nat, Coin>)
      requires a.maxThreads >= 1 && Good(w, cachedTokens, names, a.prv, a.ca)
      modifies this`cachedTokens, this`names
      ensures Good(w, cachedTokens, names, a.prv, a.ca)
      ensures r.Synced? || r.UpToDate? ==> Scanned(w, cachedTokens, names, a)
      ensures Explained(a, true, old(names), false, map[], names)
      ensures PRVAfter(w, a, old(cachedTokens), cachedTokens, filed)
      ensures r.Synced? && a.tokenID != PRV ==> filed == NewCoins(w, old(cachedTokens), a.ca)
      ensures r.UpToDate? <==> StartIndex(Lookup(old(cachedTokens), ListOf(a))) >= |ChainOf(a)|
      ensures r.Synced? ==> Merged(w, a, old(cachedTokens), cachedTokens, filed)
      ensures r.UpToDate? || r.Pending? ==> cachedTokens == old(cachedTokens)
      ensures r.Failed? ==> !Fileable(w, old(cachedTokens), a) || !NoFailure(a.events)
      ensures r.Synced? ==> Fileable(w, old(cachedTokens), a)
      ensures InTime(old(cachedTokens), a) && Fileable(w, old(cachedTokens), a) ==> r.Synced?
    {
      filed := map[];
      var chain := ChainOf(a);
      var currentIndex := StartIndex(Lookup(cachedTokens, ListOf(a)));
      if currentIndex >= |chain| {
        NothingNew(w, cachedTokens, names, a);
        return UpToDate, filed;
      }
      var end, s := Collect(w, chain, currentIndex, a.maxThreads, a.events);
      match end {
        case FetchFailed => r := Failed;
        case StillRunning => r := Pending;
        case Complete =>
          var ok;
          ok, filed := Merge(w, a, s.data);
          r := if ok then Synced else Failed;
      }
    }

    /** Whether calls fail or end, and in whatever order the answers come, memory and file keep agreeing with the
        chain; after a call that ends without an error the entry of the scanned list is a full scan of it. A PRV
        entry in step stays so exactly when it has the indices of all coins that the call files under PRV; a call
        that ends normally files all new ones. */
    method SyncOutCoinV2(w: Wallet, a: Attempt)
      returns (r: SyncResult, ghost loaded: map<string, TokenCache>, ghost filed: map<nat, Coin>)
      requires a.maxThreads >= 1 && Agrees(w, a.prv, a.ca)
      modifies this
      ensures Agrees(w, a.prv, a.ca) && Good(w, cachedTokens, names, a.prv, a.ca)
      ensures r.Synced? || r.UpToDate? ==> Scanned(w, cachedTokens, names, a)
      ensures r.Synced? ==> inMemory == a.stored && (a.stored ==> onFile && savedTokens == cachedTokens)
      ensures Explained(a, old(inMemory), old(names), old(onFile), old(savedNames), names)
      ensures onFile ==> (savedNames == old(savedNames) && old(onFile)) || savedNames == names
      ensures loaded == if old(inMemory) && !a.dropped then old(cachedTokens)
                        else if old(onFile) then old(savedTokens) else map[]
      ensures PRVAfter(w, a, loaded, cachedTokens, filed)
      ensures r.Synced? && a.tokenID != PRV ==> filed == NewCoins(w, loaded, a.ca)
      ensures !a.lengthKnown ==> r == Failed && cachedTokens == loaded
      ensures a.lengthKnown ==> (r.UpToDate? <==> StartIndex(Lookup(loaded, ListOf(a))) >= |ChainOf(a)|)
      ensures r.Synced? ==> Merged(w, a, loaded, cachedTokens, filed) && Fileable(w, loaded, a)
      ensures r.UpToDate? || r.Pending? ==> cachedTokens == loaded
      ensures r.Failed? ==> !a.lengthKnown || !Fileable(w, loaded, a) || !NoFailure(a.events)
      ensures a.lengthKnown && InTime(loaded, a) && Fileable(w, loaded, a) ==> r.Synced?
      ensures !r.Synced? ==> (inMemory <==> (old(inMemory) && !a.dropped) || old(onFile))
      ensures !r.Synced? || !a.stored ==> onFile == old(onFile) && savedTokens == old(savedTokens)
    {
      Load(w, a.prv, a.ca, a.dropped);
      loaded, filed := cachedTokens, map[];
      if !a.lengthKnown {
        return Failed, loaded, filed;
      }
      r, filed := Scan(w, a);
      if r.Synced? {
        AddAccount(a.stored);
      }
    }
  }

  /** Every name in the history was given by one of its calls. */
  ghost predicate FromHistory(history: seq<Attempt>, n: nat, names: Names)
    requires n <= |history|
  {
    forall i :: i in names ==> exists k :: 0 <= k < n && NamedBy(history[k], i, names[i])
  }

  lemma HistoryGrows(history: seq<Attempt>, n: nat, inMemory: bool, names: Names, onFile: bool, saved: Names,
      names': Names)
    requires n < |history| && (inMemory ==> FromHistory(history, n, names))
      && (onFile ==> FromHistory(history, n, saved))
    requires Explained(history[n], inMemory, names, onFile, saved, names')
    ensures FromHistory(history, n + 1, names')
  {
  }

  lemma {:induction false} PrefixOfLast(history: seq<Attempt>, k: nat, n: nat)
    requires Growing(history) && k <= n < |history|
    ensures history[k].ca <= history[n].ca
    decreases n - k
  {
    if k < n {
      PrefixOfLast(history, k, n - 1);
    }
  }

  /** When no call takes an owned coin for PRV, the PRV cache is never spoiled. */
  lemma NeverSpoiled(w: Wallet, history: seq<Attempt>, cache: map<string, TokenCache>, names: Names, n: nat)
    requires Growing(history) && n < |history| && FromHistory(history, n + 1, names)
    requires NamesSeen(w, cache, names, history[n].ca)
    requires forall k :: 0 <= k < |history| ==> Separate(w, TagsOf(history[k]), history[k].ca)
    ensures !Spoiled(cache, names, history[n].ca)
  {
    forall i | i in names && i < |history[n].ca|
      ensures names[i] != Some(PRV)
    {
      var k :| 0 <= k < n + 1 && NamedBy(history[k], i, names[i]);
      PrefixOfLast(history, k, n);
      assert Keeps(w, history[k].ca[i]);
      assert Separate(w, TagsOf(history[k]), history[k].ca);
    }
  }

  /** After any history of calls, failed and unfinished ones included, and whenever other accounts were loaded or the
      file could not be written, the caches agree with the chain; each coin is filed under the token that the call
      which brought it in took it for. The PRV cache is in step exactly when no confidential-asset coin was filed in
      it, and so always when no table takes one for PRV. */
  method Run(w: Wallet, history: seq<Attempt>) returns (cache: AccountCache, last: SyncResult)
    requires history != [] && Growing(history)
    ensures var a := history[|history| - 1];
      && cache.Agrees(w, a.prv, a.ca) && Good(w, cache.cachedTokens, cache.names, a.prv, a.ca)
      && (last.Synced? || last.UpToDate? ==> Scanned(w, cache.cachedTokens, cache.names, a))
      && (Different(a.prv, a.ca) ==>
            (InStep(w, Lookup(cache.cachedTokens, PRV), a.prv) <==> !Spoiled(cache.cachedTokens, cache.names, a.ca)))
    ensures FromHistory(history, |history|, cache.names)
    ensures (forall k :: 0 <= k < |history| ==> Separate(w, TagsOf(history[k]), history[k].ca)) ==>
              !Spoiled(cache.cachedTokens, cache.names, history[|history| - 1].ca)
  {
    cache := new AccountCache();
    last := Pending;
    for k := 0 to |history|
      invariant k == 0 ==> !cache.inMemory && !cache.onFile
      invariant k > 0 ==> cache.Agrees(w, history[k - 1].prv, history[k - 1].ca) && FromHistory(history, k, cache.names)
      invariant k > 0 ==> Good(w, cache.cachedTokens, cache.names, history[k - 1].prv, history[k - 1].ca)
      invariant cache.onFile ==> FromHistory(history, k, cache.savedNames)
      invariant k > 0 && (last.Synced? || last.UpToDate?) ==>
          Scanned(w, cache.cachedTokens, cache.names, history[k - 1])
      invariant fresh(cache)
    {
      ghost var inMemory, names, onFile, saved := cache.inMemory, cache.names, cache.onFile, cache.savedNames;
      if k > 0 {
        AgreesExtends(w, cache, history[k - 1], history[k]);
      }
      ghost var loaded, filed;
      last, loaded, filed := cache.SyncOutCoinV2(w, history[k]);
      HistoryGrows(history, k, inMemory, names, onFile, saved, cache.names);
      LongerHistory(history, k, saved);
    }
    ghost var a := history[|history| - 1];
    if Different(a.prv, a.ca) {
      SpoiledBreaks(w, cache.cachedTokens, cache.names, a.prv, a.ca);
    }
    if forall k :: 0 <= k < |history| ==> Separate(w, TagsOf(history[k]), history[k].ca) {
      NeverSpoiled(w, history, cache.cachedTokens, cache.names, |history| - 1);
    }
  }

  lemma LongerHistory(history: seq<Attempt>, n: nat, names: Names)
    requires n < |history|
    ensures FromHistory(history, n, names) ==> FromHistory(history, n + 1, names)
  {
  }

  lemma AgreesExtends(w: Wallet, cache: AccountCache, a: Attempt, a': Attempt)
    requires cache.Agrees(w, a.prv, a.ca) && a.prv <= a'.prv && a.ca <= a'.ca
    ensures cache.Agrees(w, a'.prv, a'.ca)
  {
    if cache.inMemory {
      GoodExtends(w, cache.cachedTokens, cache.names, a.prv, a.ca, a'.prv, a'.ca);
    }
    if cache.onFile {
      GoodExtends(w, cache.savedTokens, cache.savedNames, a.prv, a.ca, a'.prv, a'.ca);
    }
  }

  /** When all calls use one table, the cache of a token is a full scan for it. */
  lemma OneTable(w: Wallet, cache: map<string, TokenCache>, names: Names, prv: seq<Coin>, ca: seq<Coin>, tags: Tags,
      t: string)
    requires Good(w, cache, names, prv, ca) && AllV2(w, ca) && t != PRV && t != CONFIDENTIAL_ASSET
    requires forall i :: i in names && i < |ca| ==> names[i] == tags(ca[i])
    ensures CoinsOf(cache, t) == Filed(tags, Owned(w, ca, 0, Seen(cache)), t)
  {
    assert TokenInStep(cache, names, ca, t);
    assert forall i :: i in names <==> i in Owned(w, ca, 0, Seen(cache));
  }

  /** When later tables only add tokens, a cache holds none but coins of its token; coins whose token was unknown when
      they came in stay out of it. */
  lemma GrowingTable(w: Wallet, cache: map<string, TokenCache>, names: Names, prv: seq<Coin>, ca: seq<Coin>,
      tags: Tags, t: string, i: nat)
    requires Good(w, cache, names, prv, ca) && AllV2(w, ca) && t != PRV && t != CONFIDENTIAL_ASSET
    requires forall j :: j in names && j < |ca| && names[j].Some? ==> names[j] == tags(ca[j])
    ensures i in CoinsOf(cache, t) <==>
            i in Filed(tags, Owned(w, ca, 0, Seen(cache)), t) && i in names && names[i].Some?
  {
    assert TokenInStep(cache, names, ca, t);
    assert forall j :: j in names <==> j in Owned(w, ca, 0, Seen(cache));
  }

  /** A coin that was unknown when it came in and is known now, yet is in no cache but that of its list. */
  lemma MissedExample(w: Wallet, cache: map<string, TokenCache>, names: Names, tags: Tags, c: Coin, t: string)
    requires w == Wallet(_ => true, []) && c == Coin([2], true) && t != PRV && t != CONFIDENTIAL_ASSET
    requires cache == map[CONFIDENTIAL_ASSET := TokenCache(0, map[0 := c])] && names == map[0 := None]
    requires tags == (_ => Some(t))
    ensures Good(w, cache, names, [], [c]) && AllV2(w, [c])
    ensures 0 in Filed(tags, Owned(w, [c], 0, Seen(cache)), t) && 0 !in CoinsOf(cache, t)
  {
    assert Owned(w, [c], 0, 1) == map[0 := c];
    forall t' | t' != PRV && t' != CONFIDENTIAL_ASSET
      ensures TokenInStep(cache, names, [c], t')
    {
      assert Named([c], names, t') == map[];
    }
  }

  lemma EmptyIsGood(w: Wallet, prv: seq<Coin>, ca: seq<Coin>)
    ensures Good(w, map[], map[], prv, ca)
  {
    assert Owned(w, ca, 0, 0) == map[];
    forall t
      ensures TokenInStep(map[], map[], ca, t)
    {
      assert Named(ca, map[], t) == map[];
    }
  }
}
