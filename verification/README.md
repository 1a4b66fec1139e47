# Verified models for the Incognito Go SDK

This project models the algorithms of the SDK that carry real arithmetic, protocols or state, and proves what they
promise. To verify it, run `dafny verify dfyconfig.toml`.

* **Scalars modulo the group order** (`ScalarLimbs`, `ScalarProduct`, `ScalarBytes`, `Scalars`, `ScalarKeys`): the
  21-bit limb arithmetic of `crypto/curve25519/edwards_25519_scalar.go` and the `Scalar` object over it. Machine
  integers are bounded types, so each operation carries a proof that it does not leave `int64`.
* **The field modulo 2^255 - 19** (`Residues`, `Field10`, `Field10Bytes`, `Field5`, `FieldPow`): both limb
  representations, their canonical encodings and the two exponentiation chains.
* **Points** (`PrimeField`, `CurveRoot`, `PointCodec`): decoding and encoding as in sections 5.1.2 and 5.1.3 of
  RFC 8032. Euclid's lemma and Fermat's little theorem are proved; that P is prime is the only assumption (`PIsPrime`).
* **Scalar multiplication** (`Groups`, `Recoding`, `Radix16`, `ScalarMult`, `Precompute`): the recodings, tables and
  loops over any abelian group.
* **Merkle store** (`Merkle`), **Base58** (`Digits`, `Base58`, `Base58Check`).
* **Coin selection and consolidation** (`CoinSelection`, `Consolidation`).
* **The UTXO cache** (`CoinSync`, `CoinCache`): the concurrent scan of the chain and the cache it feeds.
* **Coins** (`CoinFields`, `PlainCoin`, `CoinV1`, `CoinV2`, `CoinLife`, `SilentCoin`): their bytes, and a coin's life
  from its making to its decryption.

Conventions. Bit masks, shifts and disjoint unions of bits are written as remainder, flooring division and sum.
Hashes, encodings of group elements, randomness, the network and the order in which concurrent workers finish are
parameters, and the results hold for all of them. Objects that the source updates in place are classes or arrays;
their methods are proved against functions of the old state.

Findings about the source.

* `ScValid` is documented to accept values up to the order; its constants are the words of the order less one, and it
  accepts exactly the values below the order (`ScValidIsCanonical`).
* Point decoding calls `FeIsNonZero` on limbs beyond the bound documented for `FeToBytes`. The encoder is proved
  correct up to the larger bound, so this does no harm.
* The five-limb functions are right far beyond their 51-bit limbs: `FeSub` never underflows, and `FeToBytes` is
  canonical, whenever limbs 1 to 4 of the argument they carry are at least 2^13 below 2^64.
* The synchroniser files a confidential-asset coin that it identifies as PRV (one without an asset tag) into the PRV
  cache, under an index of the other list. `SyncOutCoinV2` states for every call, and `Run` for every history, exactly
  when the PRV cache survives; `MisfiledExample` is one that does not.
* A confidential-asset coin whose token is not yet in the table of asset tags when it comes in is never filed under that
  token later, because only new coins are looked up (`GrowingTable`, with an instance in `MissedExample`).
* After `ConcealOutputCoin`, `Decrypt` gives the mask and amount back exactly when the concealed coin reads as
  encrypted, that is, commits to something else than its commitment, or both hashes are zero (`LifeCycle`).
  `NeverEncrypted` is an instance where it does not.
* `slide` loses a carry for some scalars above 2^255, which a `Scalar` made from raw bytes may hold, and the double
  scalar multiplication is then off by 2^256 times the point. `CarryLost` is the exact condition, a scan of the key
  that a caller can make beforehand (`Slide`); `NoCarryLost` excludes it up to 2^255, and 2^255 + 2^251 is a key that
  meets it (`CarryLostAbove`).
* `ScalarmultBase` reduces the caller's scalar, because what it calls a copy is the same pointer. So its base point
  multiplication is right for every 32-byte scalar, and changes its argument.
* A `PlainCoinV1` of value zero read into an object that already holds a value keeps the old value (`RoundTrip`).

## Model

| member | source | states |
|---|---|---|
| Scalars.ScMulAdd | crypto/curve25519/edwards_25519_scalar.go:17-440 | for all 32-byte a, b, c the key s becomes the canonical (a*b + c) mod L, whichever arguments it shares memory with; no 64-bit overflow |
| Scalars.ScMul | crypto/curve25519/edwards_25519_scalar.go:1865-2278 | the same for a*b mod L |
| Scalars.ScMulSub | crypto/curve25519/edwards_25519_scalar.go:1431-1854 | the same for (c - a*b) mod L |
| Scalars.ScAdd | crypto/curve25519/edwards_25519_scalar.go:1027-1223 | the same for (a + b) mod L |
| Scalars.ScSub | crypto/curve25519/edwards_25519_scalar.go:1225-1421 | the same for (a - b) mod L |
| Scalars.ScReduce | crypto/curve25519/edwards_25519_scalar.go:448-764 | for every 64-byte number the canonical residue mod L |
| Scalars.ScReduce32 | crypto/curve25519/edwards_25519_scalar.go:766-936 | for every 32-byte number the canonical residue mod L, in place |
| ScalarKeys.ScValidIsCanonical | crypto/curve25519/edwards_25519_scalar.go:938-957 | the bit trick over eight word comparisons accepts a key if and only if its value is below L |
| ScalarKeys.Scalar.SetKey | crypto/scalar.go:59-65 | stores the key, and succeeds exactly on canonical ones |
| ScalarKeys.Scalar.HashToScalar | crypto/scalar.go:82-89 | never takes the nil branch; the scalar is the digest mod L |
| ScalarKeys.Scalar.FromUint64 | crypto/scalar.go:92-98 | always succeeds with the value given |
| ScalarKeys.Scalar.ToUint64Little | crypto/scalar.go:101-105 | the low 64 bits of the scalar |
| ScalarKeys.Scalar.Add | crypto/scalar.go:108-113 | for any two keys, aliased or not, the receiver gets a fresh key with the sum mod L; the arguments keep theirs |
| ScalarKeys.Scalar.Sub | crypto/scalar.go:116-121 | the same for the difference |
| ScalarKeys.Scalar.Mul | crypto/scalar.go:124-129 | the same for the product |
| ScalarKeys.Scalar.MulAdd | crypto/scalar.go:132-137 | the same for a*b + c |
| ScalarKeys.D2h | crypto/scalar.go:240-247 | the loop never runs past the key and writes the value as 32 little-endian bytes |
| ScalarKeys.Compare | crypto/scalar.go:174-188 | the order of the two numbers, from the top byte down |
| ScalarKeys.Uint64RoundTrip | crypto/scalar.go:92-105 | ToUint64Little after FromUint64 gives the value back |
| Field10.FeMul | crypto/curve25519/edwards_general.go:272-439 | for factors within the documented limb bounds, the product mod P, again within the documented result bounds; no 32- or 64-bit overflow |
| Field10.FeSquare | crypto/curve25519/edwards_general.go:441-490 | the square mod P, same bounds |
| Field10.FeSquare2 | crypto/curve25519/edwards_general.go:502-517 | twice the square mod P, for the wider argument bound too |
| Field10Bytes.FeToBytes | crypto/curve25519/edwards_general.go:144-231 | the bytes are the one encoding in [0, P) of the input's residue, and the argument is rewritten to the same residue |
| Field10Bytes.FeFromBytes | crypto/curve25519/edwards_general.go:106-119 | limbs within bounds for the low 255 bits of the key |
| Field10Bytes.DecodeEncode | crypto/curve25519/edwards_general.go:106-231 | decoding then encoding reduces the low 255 bits mod P |
| Field10Bytes.FeIsNegative | crypto/curve25519/edwards25519_field.go:42-46 | the parity of the canonical residue |
| Field10Bytes.FeIsNonZero | crypto/curve25519/edwards25519_field.go:48-59 | one exactly when the residue is not zero, folding 32 bytes |
| Field5.FeReduce | crypto/curve25519/edwards25519_fe_amd64.go:237-275 | five limbs below 2^51 holding the canonical residue, for limbs up to almost 2^64 |
| Field5.FeSub | crypto/curve25519/edwards25519_fe_amd64.go:31-55 | a - b mod P without underflow, limb bounds that FeToBytes accepts |
| Field5.FeAdd | crypto/curve25519/edwards25519_fe_amd64.go:22-28 | a + b exactly when no limb can wrap |
| Field5.FeToBytes | crypto/curve25519/common_fe.go:250-336 | the canonical encoding, for limbs far beyond 2^63 |
| Field5.FeFromBytes | crypto/curve25519/edwards25519_fe_amd64.go:148-189 | five 51-bit limbs for the low 255 bits |
| Field5.DecodeEncode | crypto/curve25519/edwards25519_fe_amd64.go:148-235 | decoding then encoding reduces the low 255 bits mod P |
| FieldPow.FeInvert | crypto/curve25519/edwards25519_field.go:61-114 | the chain computes z^(P - 2) mod P |
| FieldPow.FePow22523 | crypto/curve25519/edwards25519_field.go:116-175 | the chain computes z^((P - 5) / 8) mod P |
| PrimeField.Euclid | crypto/curve25519/edwards_25519_group.go:117-184 | if P is prime the field has no zero divisors, on which the root choice of decoding rests |
| PrimeField.Fermat | crypto/curve25519/edwards25519_field.go:61-114 | if P is prime z^(P - 1) = 1 mod P, so the chain inverts |
| CurveRoot.RootFound | crypto/curve25519/edwards_25519_group.go:143-172 | if P is prime, whenever y belongs to a curve point the candidate or its product with sqrt(-1) is a root |
| PointCodec.ExtendedGroupElement.FromBytes | crypto/curve25519/edwards_25519_group.go:117-184 | success gives y below P, Z = 1, T = X Y, a point of the curve with the sign asked for; failure means that no point decodes from the key |
| PointCodec.ExtendedGroupElement.ToBytes | crypto/curve25519/edwards_25519_group.go:107-115 | the canonical affine y with the parity of the affine x in the top bit |
| PointCodec.AffineIsQuotient | crypto/curve25519/edwards_25519_group.go:107-115 | if P is prime the affine coordinate times Z is the projective coordinate |
| PointCodec.DecodeEncodePoint | crypto/curve25519/edwards_25519_group.go:107-184 | encoding after a successful decoding gives the same 32 bytes |
| PointCodec.EncodeDecodePoint | crypto/curve25519/edwards_25519_group.go:107-184 | if P is prime, decoding after encoding a curve point succeeds with the same affine point |
| Recoding.Slide | crypto/curve25519/edwards_25519_group.go:408-436 | for every scalar the digits are zero or odd in [-15, 15] and spell the scalar, less 2^256 exactly when a scan of its bits says that a carry runs off; so they spell it if and only if that scan says no |
| Recoding.NoCarryLost | crypto/curve25519/edwards_25519_group.go:408-436 | no carry is lost for scalars up to 2^255 |
| Recoding.CarryLostAbove | crypto/curve25519/edwards_25519_group.go:408-436 | the carry of 2^255 + 2^251 is lost |
| Radix16.SignedRadix16 | crypto/curve25519/key.go:204-225 | for a top byte of at most 127, 64 digits in [-8, 8] that spell the scalar |
| ScalarMult.GeScalarMult | crypto/curve25519/edwards_25519_scalar.go:965-1025 | a*A for a top byte of at most 127 |
| ScalarMult.GeScalarMultBase | crypto/curve25519/edwards_25519_group.go:522-587 | a*B from the table of j*256^i*B, odd digits first |
| ScalarMult.ScalarmultBase | crypto/curve25519/key.go:183-191 | for every 32-byte scalar the key of (a mod L)*B; the caller's scalar is reduced in place |
| ScalarMult.MultiScalarMultKey | crypto/curve25519/key.go:541-611 | for any number of keys that decode, the key of the sum of s_j * P_j |
| ScalarMult.MultiScalarMultKeyCached | crypto/curve25519/key.go:467-539 | the same from cached tables |
| ScalarMult.GePrecompute | crypto/curve25519/edwards_25519_group.go:600-611 | entry i is (2i + 1)*A |
| ScalarMult.GeDoubleScalarMultPrecompVartime2 | crypto/curve25519/edwards_25519_group.go:616-650 | for all scalars the sum of the multiples that `slide` spells, which is a*A + b*B unless a scalar loses its carry and counts 2^256 less; leading zero digits are skipped |
| ScalarMult.GeDoubleScalarMultPrecompVartime | crypto/curve25519/edwards_25519_group.go:655-659 | the same with the table of A built first |
| Precompute.GenPrecompute | crypto/curve25519/precompute.go:41-76 | entry i is 2^i*A |
| Precompute.ScalarMultPrecompute | crypto/curve25519/precompute.go:82-102 | s*A for every 256-bit s |
| Precompute.GenSuperPrecompute | crypto/curve25519/precompute.go:105-121 | entry (i, j) is j*256^i*A |
| Precompute.ScalarMultSuperPrecompute | crypto/curve25519/precompute.go:123-133 | s*A for every 256-bit s |
| Precompute.MulPrecompute | crypto/curve25519/precompute.go:137-152 | entry i is i*A |
| Precompute.GenDoublePrecompute | crypto/curve25519/precompute.go:156-209 | entry i is (i mod 16)*A + (i div 16)*B |
| Precompute.DoubleScalarDoubleBaseMulPrecomputed | crypto/curve25519/precompute.go:308-365 | s1*A + s2*B for all 256-bit scalars |
| Precompute.DoubleScalarDoubleBaseMulPrecomputed64 | crypto/curve25519/precompute.go:372-436 | the sum of 64 such pairs |
| Merkle.BuildMerkleTreeStore | crypto/curve25519/merkle.go:96-140 | every cell of the array is its leaf or the parent of its two children |
| Merkle.CellIsRoot | crypto/curve25519/merkle.go:57-140 | every such cell is the recursive root of exactly the leaves it spans |
| Merkle.MerkleRoot | crypto/curve25519/merkle.go:142-146 | the last cell is not nil and is the recursive root, missing right children replaced by their siblings |
| Merkle.LeavesInOrder | crypto/curve25519/merkle.go:57-140 | over free terms, a root whose leaves are all there hashes them from left to right |
| Merkle.SmallRoots | crypto/curve25519/merkle.go:57-140 | the root of two leaves, and of three with the last one hashed with itself |
| Base58.BtcAlphabet | common/base58/alphabet.go:12-28 | the 58 letters in order, each with its place in the decoding table, all other characters foreign |
| Base58.Encode | common/base58/base58util.go:19-61 | as many leading zeros and the same number, in base 58; the buffer is never overrun |
| Base58.BufferSuffices | common/base58/base58util.go:28-30 | 138/100 of the length plus one digits hold every number of that many bytes |
| Base58.Decode | common/base58/base58util.go:75-152 | fails only on an empty string or a foreign character, so both overflow exits are dead; otherwise the same number and leading zeros |
| Base58.DecodeEncode | common/base58/base58util.go:19-152 | Decode(Encode(b)) = b for every byte string that is not empty |
| Base58.EncodeDecode | common/base58/base58util.go:19-152 | Encode(Decode(s)) = s for every digit string that is not empty |
| Base58Check.Decode | common/base58/base58check.go:87-108 | accepts a string if and only if it encodes some version and payload with one of the two checksums, and returns those |
| Base58Check.Encoder.Encode | common/base58/base58check.go:43-60 | a cached string is returned as it is; otherwise the string spells version, payload and four bytes of double SHA-256 for version 1, of SHA-3 for all others; in any case it encodes this payload under the version of some call |
| Base58Check.Encoder.NewEncode | common/base58/base58check.go:65-82 | the same over the same cache, with double SHA-256 for every version |
| Base58Check.Run | common/base58/base58check.go:36-108 | for every history of calls and evictions each returned string decodes to its payload, and to its version when one version is used throughout |
| CoinSelection.ChooseBestCoinsByAmount | incclient/tx_utils.go:144-195 | on a descending list, success exactly when the total covers the amount; the indices increase and match the coins, the sum covers the amount and no coin of positive value can be dropped; the greedy rule with its look-ahead decides every coin |
| CoinSelection.GreedyLast | incclient/tx_utils.go:166-192 | when more than the amount is chosen, the last coin is the least one of the list that covers what was left |
| CoinSelection.GreedyPassed | incclient/tx_utils.go:166-192 | a coin is passed over only when it is worth more than what was left |
| CoinSelection.AddLast | incclient/tx_utils.go:185-192 | the last coin always covers the rest, so the final error is dead |
| Consolidation.Dispatch | incclient/tx_consolidate.go:52-75 | workers get disjoint slices of 2 to 30 coins; their number is the least of numThreads and the number of such slices, and at least one |
| Consolidation.SliceCanLand | incclient/tx_consolidate.go:345-384 | the transaction of a slice of unspent coins can take effect exactly when they are worth more than the fee |
| Consolidation.Collect | incclient/tx_consolidate.go:79-111 | the loop over counters refines a round over the sets of workers that reported, for every order of messages and landings, also of transactions of earlier rounds; every landing is paid for |
| Consolidation.PlayEnds | incclient/tx_consolidate.go:79-111 | such a round finishes only after each of its workers reported and not all failed, and it does not go on waiting once nothing is to be read after all reported |
| Consolidation.LandIsPaid | incclient/tx_consolidate.go:345-384 | a transaction that takes effect, whenever it does, costs one fee and removes a coin at least |
| Consolidation.OutputAmount | incclient/tx_consolidate.go:345-384 | a worker spends its slice less the fee, and refuses exactly when nothing would be left |
| Consolidation.ConsolidatePRVs | incclient/tx_consolidate.go:30-122 | over whole runs value falls by one fee for each transaction that landed, known to the client or not; the run goes from round to round while rounds finish and more than ten coins are listed, and ends exactly as that says; without an error at most ten unspent coins are left and each round made a transaction the client knows of |
| CoinSync.GetCoinsByIndices | incclient/coin_cache.go:332-372 | the owned coins of the fetched batch, without the burning key's |
| CoinSync.Collect | incclient/coin_cache.go:247-304 | in every order of events: consecutive batches, never more workers than allowed, data of the heard batches exactly; on exit exactly the owned coins from the start index on; the batches at work and the end are those of the loop over batches alone; it exits when every batch finds room and is heard without a failure |
| CoinSync.OneByOneIsFavourable | incclient/coin_cache.go:247-304 | hearing the batches one after the other is such an order, for every number of workers |
| CoinSync.InOneBatch | incclient/coin_cache.go:284-291 | every index handed out lies in exactly one batch; batch k begins 5000 k indices after the start |
| CoinCache.AccountCache.Update | incclient/coin_cache_utils.go:149-175 | adds the coins at new indices and nothing else, and returns them |
| CoinCache.AccountCache.UpdateAllTokens | incclient/coin_cache_utils.go:249-283 | files each new record under its token, whatever the order of the map |
| CoinCache.MisfiledBreaks | incclient/coin_cache_utils.go:258-280 | the exact condition under which the PRV cache survives records identified as PRV |
| CoinCache.MisfiledExample | incclient/coin_cache_utils.go:258-280 | one coin identified as PRV breaks a PRV cache that has scanned nothing |
| CoinCache.AccountCache.SyncOutCoinV2 | incclient/coin_cache.go:204-330 | keeps memory and file in agreement with the chain for every order of answers and failures, whatever the table of asset tags says and whether or not the file can be written; without an error the scanned entry is a full scan unless a misfiled coin spoiled it; a PRV entry in step stays so if and only if it has the indices of all coins filed as PRV; when all batches are fetched in the end, the call succeeds exactly when its table is there if needed and all new coins are CoinV2, and then every entry of the account is given |
| CoinCache.ScanStart | incclient/coin_cache.go:244-253 | a scan goes on after the latest index, and begins anew when that is 0 |
| CoinCache.Identifiers | common/constants.go:47 | the identifiers of PRV and of the asset list are 64 digits that differ in the last one |
| CoinCache.SpoiledBreaks | incclient/coin_cache_utils.go:258-280 | in every state that calls can reach, the PRV entry is in step if and only if it holds no confidential-asset coin; one that holds such a coin is no full scan either |
| CoinCache.NeverSpoiled | incclient/coin_cache.go:204-330 | no history in which every table keeps the owned coins of the list apart from PRV spoils the PRV entry |
| CoinCache.Run | incclient/coin_cache.go:204-330 | after any history of calls on growing lists, each with its own table of asset tags, failed ones and reloads included, the caches agree with the chain, although index 0 is fetched twice, and the PRV entry does so if and only if no coin was misfiled into it |
| CoinCache.OneTable | incclient/coin_cache_utils.go:258-280 | when all calls use one table, a token's cache is exactly the owned coins of that token seen so far |
| CoinCache.GrowingTable | incclient/coin_cache_utils.go:258-280 | when tables only grow, a token's cache holds its owned coins but for those whose token was unknown when they came in |
| CoinCache.MissedExample | incclient/coin_cache_utils.go:258-280 | a state in agreement where a coin whose token is known by now is missing from that token's cache |
| PlainCoin.PlainCoinV1.SetBytes | coin/coin_v1.go:271-318 | succeeds exactly on bytes with seven fields and valid points; the whole coin afterwards, also of a failed attempt |
| PlainCoin.RoundTrip | coin/coin_v1.go:209-318 | written bytes are read back if and only if the points are valid, for every pattern of missing fields, and give the same coin when its value is not 0 and its info has at most 255 bytes |
| CoinV1.CoinV1.SetBytes | coin/coin_v1.go:423-493 | the one-byte attempt and the two-byte fallback, when they succeed and what they leave in any case |
| CoinV1.WholeBack | coin/coin_v1.go:397-493 | written bytes are read back for every detail length: a two-byte prefix always makes the one-byte attempt fail; the coin is the same when its info has at most 255 bytes, and so is a ciphertext of two parts |
| CoinV2.CoinV2.SetBytes | coin/coin_v2.go:480-557 | succeeds exactly on a version byte and nine good fields, with or without a tenth; the whole coin afterwards, also of a failed attempt |
| CoinV2.RoundTrip | coin/coin_v2.go:406-557 | written bytes are read back if and only if the points are valid and the transaction random value is there, and give the same coin when its info has at most 255 bytes |
| CoinV2.OldFormat | coin/coin_v2.go:545-555 | bytes without the asset-tag field give a coin without a tag |
| CoinFields.FieldsWritten | coin/utils.go:36-97 | a list of length-prefixed fields is read back wherever it stands |
| CoinFields.Cut | coin/coin_v2.go:406-411 | the info is written as its first 255 bytes, or whole when it is not longer |
| CoinLife.NewCoinCA | coin/coin_v2_ca.go:108-181 | the coin opens to its amount, has the wanted shards at the first index that gives them, is owned by the holder of the address, hides its token and keeps its maker's secrets; it fails only without address, token or fitting index |
| CoinLife.OutputCoin.DoesCoinBelongToKeySet | coin/coin_v2.go:619-651 | the coin is recognised if and only if it is the holder's, and the token's hash is recovered |
| CoinLife.OutputCoin.ValidateAssetTag | coin/coin_v2_ca.go:65-92 | accepts exactly the plain and the blinded tag |
| CoinLife.OutputCoin.ParsePrivateKeyOfCoin | coin/coin_v2.go:118-133 | the derived key times the base point is the coin's public key |
| CoinLife.OutputCoin.ConcealOutputCoin | coin/coin_v2.go:148-171 | hides the mask under two nested hashes and the amount under three of the secret shared with the view key, or changes nothing |
| CoinLife.OutputCoin.Decrypt | coin/coin_v2.go:183-243 | sets the key image of an owned coin with its private key, and leaves it without one; restores a hidden coin that reads as encrypted and passes the commitment check |
| CoinLife.DeriveShardInfo | coin/utils.go:162-177 | the last byte of a public key, modulo 128, is the receiver's shard plus the number of shards times the sender's shard plus the number of shards times the type; refused exactly when there are more than eight shards or the type is above 1 |
| CoinLife.Uint32ToBytes | common/common.go:76-80 | four bytes that spell the number, the highest first |
| CoinLife.LifeCycle | coin/coin_v2_ca.go:65-181 | making, recognising, concealing and decrypting a coin gives mask and amount back exactly when it reads as encrypted or nothing was hidden; it reads as encrypted exactly when what it then holds commits to something else |
| SilentCoin.NeverEncrypted | coin/coin_v2.go:148-243 | a group and hashes for which every coin made stays hidden after decryption |

## Left out

- PointCodec.DecodePoint: after a failed decoding the coordinates are unspecified; the source leaves the old point or partial coordinates.
- ScalarMult.MultiScalarMultKey: leaves the result open when a key does not decode; the source does not look and uses whatever coordinates the failed decoding left.
- CoinSelection.ChooseBestCoinsByAmount: starts from the sorted list; sorting and the index lookup before it (divideCoins, getListIdx) are not modelled.
- How a consolidation worker picks decoys and proves its transaction.
- CoinCache.AccountCache.SyncOutCoinV2: the node fails or answers with the chain's own coins, never with wrong ones; the file holds what was stored, so its JSON text and a file that cannot be read back are not modelled.
- CoinLife.OutputCoin.Decrypt: a coin without mask or amount is excluded, as the source does not survive it.
- The curve's group law, the order of the base point and the primality of P are assumptions; geAdd, geSub, Double and the conversions between coordinate systems are the operations of an abstract group.
- The assembly versions of FeMul and FeSquare have no source here; the ten-limb Go versions are proved.
- The generator tables are parameters assumed to hold the multiples they stand for.
- Point decoding uses the ten-limb field functions.
- Hash functions, encodings of group elements, randomness and AES are parameters.
- The floating-point logarithm of the Merkle store and the floating-point ceiling of the synchroniser are the integer functions they stand for.
- NewCoinFromPaymentInfo, whose retries are unbounded; its coins conceal and decrypt as the others do.
- The consolidation of tokens, which repeats the rounds proved here with a fee coin for each worker.
- RPC clients, JSON, file storage, logging, sleeps and timeouts other than the timer event.
- coinParams, whose lengths are cut to one byte, and Scalar.Exp and Scalar.IsOne.
