# VSC contract-tooling core, modelled in Dafny

This project models four parts of the VSC contract tooling:

- **BLS signer circuits** (`scripts/bls-did.ts`):
  - `did:key` identities of BLS public keys;
  - the aggregating `BlsCircuit` with its signer map, aggregate key and aggregate signature;
  - the bit-vector serialization against an ordered member-key list;
  - the `BlsCircuitGenerator` / `PartialBlsCircuit` pair that share one member array.
- **The data-availability collection session** (`scripts/deploy.ts`):
  - the validator `parseFileUploadResponseInfo`;
  - the `ignoreUnsignedMessages` filter;
  - the pubsub handler inside `fetchDataAvailibilityProof`. It counts error responses towards six, collects verified signatures and resolves with a serialized proof once six signers are in the circuit.
- **Bitcoin byte parsing of the contract runtime** (`assembly/bitcoin.ts`):
  - CompactSize ("VarInt") parsing;
  - walking the input vector;
  - header field slicing;
  - the header-work check;
  - the `calcKey` bucket names;
  - the transaction-id preimage buffer.
- **Byte-array helpers** (`assembly/common/arrays.ts`): equality, hexadecimal text in both directions, big-endian decoding and byte reversal.

The modules are:

- `Wrappers` (Option and Result);
- `Arrays`;
- `Bitcoin`;
- `Base58`: the base58btc codec the identities use, written out so that the identity round trip can be proved;
- `BlsIdentity`;
- `BlsCircuits`;
- `FileUpload`.

Code that changes state in the source is imperative here:

- `BlsCircuit`, `MemberList`, `BlsCircuitGenerator`, `PartialBlsCircuit` and the collection `Session` are classes.
- The loops of the array helpers, `addMany`, `serialize`, `deserialize` and `extractInputAtIndex` are `while` loops.

Each method is proved equal to a pure function of the old state. The lemmas state what those functions mean.

BLS cryptography is abstract, following the source's own level of abstraction:

- An aggregate key is the multiset of the keys folded into it.
- An aggregate signature is the multiset of the signature shares folded into it.
- Signature decoding, key checking, verification and payload hashing are function values of a `Crypto` record that every operation receives.
- The predicate `UsesDidKey` ties that record's DID functions to the concrete `did:key` functions of `BlsIdentity`.

## Model

| member | source | states |
|---|---|---|
| Arrays.Equal | assembly/common/arrays.ts:6-33 | two absent arrays are equal; exactly one absent gives false; two present arrays are equal iff their lengths match and every element matches |
| Arrays.TypedArraysAreEqual | assembly/common/arrays.ts:149-159 | true exactly when both arrays hold the same bytes (same length, equal at every index) |
| Arrays.ToHexString | assembly/common/arrays.ts:57-69 | the text is the optional "0x" prefix followed by the two-digit encoding of every byte of the buffer, in order |
| Arrays.HexOfShape | assembly/common/arrays.ts:57-69 | every byte contributes exactly two lower-case hexadecimal digits |
| Arrays.ToHexStringShape | assembly/common/arrays.ts:57-69 | the output length is 2·n plus 2 when the prefix is requested, and the output starts with "0x" exactly when the prefix is requested |
| Arrays.HexDecode | assembly/common/arrays.ts:40-51 | a text of hexadecimal digit pairs denotes half as many bytes |
| Arrays.FromHexString | assembly/common/arrays.ts:40-51 | after one optional "0x" prefix is dropped, byte i of the output is the value of digits 2i and 2i+1; even length and valid digits are the caller's obligation, because the source's length check is commented out |
| Arrays.DecodeHexOf | assembly/common/arrays.ts:40-69 | the digits emitted for any bytes are valid input to the decoder and decode back to those bytes |
| Arrays.HexRoundTrip | assembly/common/arrays.ts:40-69 | fromHexString(toHexString(b, p)) == b for both values of p |
| Arrays.BytesToUint | assembly/common/arrays.ts:119-125 | the accumulated total is the big-endian value of the bytes |
| Arrays.BigEndianBound | assembly/common/arrays.ts:119-125 | the value of n bytes is below 256^n |
| Arrays.BigEndianFirst | assembly/common/arrays.ts:119-125 | the first byte is the most significant: it weighs 256^(n-1) |
| Arrays.BigEndianOfToBigEndian | assembly/common/arrays.ts:119-125 | every number below 256^w is the big-endian value of its w-byte encoding |
| Arrays.ToBigEndianOfBigEndian | assembly/common/arrays.ts:119-125 | every byte string is the encoding of its own value at its own width, so the big-endian reading is one-to-one per width |
| Arrays.ReversedAt | assembly/common/arrays.ts:135-139 | byte k of the reversal is byte n-1-k of the original |
| Arrays.BigEndianOfReversed | assembly/common/arrays.ts:119-139 | reading the reversed bytes big-endian is reading the original bytes little-endian |
| Arrays.ReverseEndianness | assembly/common/arrays.ts:135-139 | the argument is reversed in place, and the fresh returned buffer holds the same reversed bytes |
| Base58.DigitValueOfDigit | scripts/bls-did.ts:75 | every base58btc digit reads back as its value, so the alphabet map is one-to-one |
| Base58.DigitsValueOfDigits | scripts/bls-did.ts:75 | the base-58 digits of a number read back as that number |
| Base58.MinimalOfBigEndian | scripts/bls-did.ts:75 | a byte string without leading zero bytes is the minimal big-endian encoding of its value |
| Base58.DecodeEncode | scripts/bls-did.ts:172 | decoding the base58btc text of any byte string gives that byte string back |
| Base58.EncodeInjective | scripts/bls-did.ts:75 | distinct byte strings have distinct base58btc texts |
| Base58.EncodeInAlphabet | scripts/bls-did.ts:75 | base58btc text consists only of alphabet characters |
| BlsIdentity.KeyBytes | scripts/bls-did.ts:67-76 | the encoded bytes are the multicodec [0xEA, 0x01] followed by the key bytes, exactly two bytes longer than the key |
| BlsIdentity.Id | scripts/bls-did.ts:67-76 | the id is "did:key:z" followed by text that base58btc-decodes to the multicodec-prefixed key bytes |
| BlsIdentity.ParseDid | scripts/bls-did.ts:171 | a parsed DID has a non-empty method and id, and the text starts with "did:" + method + ":" + id |
| BlsIdentity.ParsePlainDid | scripts/bls-did.ts:171 | "did:m:id" with method characters in m and id characters in id parses to method m and id id |
| BlsIdentity.ParseId | scripts/bls-did.ts:67-76 | the identity of a key parses with method "key" and id 'z' followed by the base58btc text of the prefixed key bytes |
| BlsIdentity.DropTwo | scripts/bls-did.ts:172 | slice(2) drops the two multicodec bytes, or gives nothing for shorter input |
| BlsIdentity.FromString | scripts/bls-did.ts:170-177 | a key is returned only when PublicKey.fromBytes accepts it, and the invalid-DID error is returned exactly when the text does not parse as a DID |
| BlsIdentity.FromStringId | scripts/bls-did.ts:170-177 | round trip: fromString(new BlsDID({pubKey}).id) gives back exactly the key bytes, for every key fromBytes accepts |
| BlsIdentity.IdInjective | scripts/bls-did.ts:67-76 | different keys have different identities |
| BlsIdentity.FromStringIgnoresPrefixes | scripts/bls-did.ts:170-177 | fromString does not check the multibase letter or the two multicodec bytes: any id letter and any two-byte prefix yield the same key |
| BlsCircuits.EntryOutcome | scripts/bls-did.ts:205-222 | an entry throws exactly when its DID or its signature does not decode; a verified entry's id is the identity of a key whose signature verifies against the message; an unverified entry's signature does not verify |
| BlsCircuits.Fold | scripts/bls-did.ts:225-234 | the aggregation succeeds exactly when there is at least one key (new or previous) and at least one signature (new or previous); otherwise it throws the empty-aggregate error; on success the key aggregate is the multiset of the verified keys plus the previous aggregate, and the signature is the sum of the verified signatures plus the previous one |
| BlsCircuits.AddManyEffect | scripts/bls-did.ts:199-244 | the signer map gains exactly the ids of the verified entries; addMany throws exactly when an entry throws or nothing is left to aggregate, and then leaves the aggregates unchanged; when it returns, its result is the list of invalid-signature errors and both aggregates are the fold of the verified keys and signatures into the previous ones |
| BlsCircuits.ScanAfterFailure | scripts/bls-did.ts:205-223 | once an entry throws, the later entries are never looked at |
| BlsCircuits.ScanVerified | scripts/bls-did.ts:205-218 | when no entry throws, the collected keys and signatures are those of the verified entries, in entry order, and an entry is at a listed position exactly when it verified |
| BlsCircuits.ScanRejected | scripts/bls-did.ts:205-222 | when addMany's loop ends without an exception, no entry threw, and the error messages name the DIDs of the rejected entries, in entry order, one per entry whose signature did not verify |
| BlsCircuits.ScanOrder | scripts/bls-did.ts:205-223 | when no entry throws, the entries split into two increasing index lists: the verified entries, whose keys and signatures are folded in that order, and the rejected entries, whose invalid-signature errors are returned in that order; every entry is in exactly the list its outcome names |
| BlsCircuits.ScanSigners | scripts/bls-did.ts:215-218 | when no entry throws, the signer map receives exactly the ids of the entries whose signature verified |
| BlsCircuits.ScanAccounting | scripts/bls-did.ts:205-223 | without an exception, every entry yields either one key and one signature or exactly one error message |
| BlsCircuits.ScanIds | scripts/bls-did.ts:215-218 | the ids put into the signer map are exactly the identities of the keys folded into the aggregate |
| BlsCircuits.ScanContents | scripts/bls-did.ts:215-221 | every folded key verified its own signature against the message, and every error message is "INVALID_SIG for " plus a key's identity |
| BlsCircuits.AddVerified | scripts/bls-did.ts:215-239 | one verified entry adds its id to the signer map and folds its key and share into the previous aggregates, with no error |
| BlsCircuits.AddRejected | scripts/bls-did.ts:219-234 | one unverified entry leaves the signer map alone and yields exactly one "INVALID_SIG for <id>" error; with no earlier aggregate the empty aggregation throws |
| BlsCircuits.AddTwice | scripts/bls-did.ts:215-239 | adding the same verified signer twice keeps the signer map at one entry for it but folds its key and share in twice (no deduplication) |
| BlsCircuits.VerifySig | scripts/bls-did.ts:250-262 | the check throws exactly when the DID or the base64 signature does not decode, and otherwise returns true if and only if the signature verifies under the DID's key over the message bytes |
| BlsCircuits.ReadKeys | scripts/bls-did.ts:265-269 | the DIDs map to keys exactly when every DID reads, position by position |
| BlsCircuits.AggregateOf | scripts/bls-did.ts:276-281 | the aggregate exists exactly when the list is non-empty and every DID reads; it is the multiset of the keys read from the DIDs, one per DID |
| BlsCircuits.CheckPubkeys | scripts/bls-did.ts:264-274 | true exactly when the aggregate of the given DIDs equals the circuit's aggregate key; an error exactly when the aggregation throws or there is no aggregate key |
| BlsCircuits.SerializeState | scripts/bls-did.ts:288-308 | throws "No Valid BLS Signature" exactly when there is no signature; otherwise bit i is set exactly when the signer map holds circuitMap[i], and the signature text is the written signature |
| BlsCircuits.SelectedKeys | scripts/bls-did.ts:327-332 | no more keys are selected than the keyset holds |
| BlsCircuits.SelectedCount | scripts/bls-did.ts:327-332 | each key is selected once per set bit whose position in the keyset holds that key |
| BlsCircuits.DeserializeState | scripts/bls-did.ts:310-342 | the signer map is exactly the selected keys, the aggregate key is built from exactly those keys, and the signature is the one read from the text; it fails exactly when that aggregation or that read fails |
| BlsCircuits.SelectedMembers | scripts/bls-did.ts:327-332 | a key is selected exactly when it sits in the keyset at a set bit |
| BlsCircuits.SelectedSameBits | scripts/bls-did.ts:327-332 | set bits at positions at or beyond the keyset's length are ignored |
| BlsCircuits.SelectedAll | scripts/bls-did.ts:327-332 | with every bit set, the whole keyset is selected, in order |
| BlsCircuits.SerializeDeserialize | scripts/bls-did.ts:288-342 | round trip: deserialize(serialize(c, m), m) has as signers exactly the members of m that c has as signers, and the same signature |
| BlsCircuits.DeserializeNothing | scripts/bls-did.ts:320-336 | a bit vector that selects no member cannot be deserialized: aggregating no keys throws |
| BlsCircuits.DeserializeThenVerify | scripts/bls-did.ts:264-342 | after deserialize, verifyPubkeys of the selected keys holds |
| BlsCircuits.BlsCircuit.constructor | scripts/bls-did.ts:187-192 | a new circuit has an empty signer map and no aggregates |
| BlsCircuits.BlsCircuit.AddMany | scripts/bls-did.ts:199-244 | the loop's new state and result are those of AddManyEffect |
| BlsCircuits.BlsCircuit.Add | scripts/bls-did.ts:195-197 | add is addMany of a single entry |
| BlsCircuits.BlsCircuit.SetAgg | scripts/bls-did.ts:276-286 | the aggregate key becomes the aggregate of the given DIDs' keys (nothing changes when that throws), and verifyPubkeys of the same DIDs then holds |
| BlsCircuits.BlsCircuit.VerifyPubkeys | scripts/bls-did.ts:264-274 | true exactly when the circuit has an aggregate key and it equals the aggregate of the given DIDs; false when it has one that differs; throws exactly when the DIDs do not aggregate or the circuit has no key |
| BlsCircuits.BlsCircuit.Serialize | scripts/bls-did.ts:288-308 | the loop's bit vector and result are those of SerializeState |
| BlsCircuits.BlsCircuit.Deserialize | scripts/bls-did.ts:310-342 | a fresh circuit whose state is DeserializeState's, or DeserializeState's error |
| BlsCircuits.Keys | scripts/bls-did.ts:367-371 | the circuit map lists every member's key, in member order |
| BlsCircuits.MemberList.constructor | scripts/bls-did.ts:346-351 | the shared member array holds the given members |
| BlsCircuits.AddAndVerifyEffect | scripts/bls-did.ts:396-418 | false with no state change for a non-member or for a member whose signature does not verify; true only for a member whose signature verifies, and then both aggregates are defined; the aggregates change only when the result is true |
| BlsCircuits.AddAndVerifyMember | scripts/bls-did.ts:396-418 | a member whose signature verifies is accepted: the result is true, its DID is in the signer map and its key is folded into the aggregate |
| BlsCircuits.BlsCircuitGenerator.constructor | scripts/bls-did.ts:346-351 | the generator keeps a reference to the member array |
| BlsCircuits.BlsCircuitGenerator.Generate | scripts/bls-did.ts:353-355 | a fresh partial circuit over a fresh, empty circuit that shares the generator's member array |
| BlsCircuits.BlsCircuitGenerator.UpdateMembers | scripts/bls-did.ts:357-365 | the shared array is emptied and refilled in place with the new members; updating from the shared array itself leaves it empty |
| BlsCircuits.BlsCircuitGenerator.CircuitMap | scripts/bls-did.ts:367-371 | one key per member, in member order: position i holds the key of member i |
| BlsCircuits.PartialBlsCircuit.constructor | scripts/bls-did.ts:376-384 | a partial circuit over the given member array and a fresh, empty circuit |
| BlsCircuits.PartialBlsCircuit.CircuitMap | scripts/bls-did.ts:390-394 | one key per member of the shared array, in member order: position i holds the key of member i |
| BlsCircuits.PartialBlsCircuit.AddAndVerify | scripts/bls-did.ts:396-418 | the wrapped circuit's new state and the result are those of AddAndVerifyEffect over the current member keys |
| BlsCircuits.UpdateShared | scripts/bls-did.ts:353-394 | after updateMembers, the circuit map of a partial circuit generated earlier equals the generator's, and both list the new keys in order |
| Bitcoin.VarIntDataLength | assembly/bitcoin.ts:58-70 | 0xff gives 8, 0xfe gives 4, 0xfd gives 2, and every other flag gives 0 |
| Bitcoin.ParseVarInt | assembly/bitcoin.ts:89-104 | an empty array fails at the index check; a flag below 0xfd is the number itself with data length 0; a longer VarInt that does not fit fails with the overrun error; otherwise the data length matches the flag and the number fits in that many bytes |
| Bitcoin.VarIntBytes | assembly/bitcoin.ts:89-104 | the shortest VarInt encoding of a number is one to nine bytes long |
| Bitcoin.VarIntRoundTrip | assembly/bitcoin.ts:89-104 | parsing the encoding of n, whatever bytes follow, gives n back with the encoding's data length |
| Bitcoin.Slice | assembly/bitcoin.ts:140 | slice clamps its bounds: in range it is the subsequence, and past the end it is empty |
| Bitcoin.ExtractScriptSigLen | assembly/bitcoin.ts:166-172 | an input shorter than 37 bytes throws the read-overrun error; otherwise the result is the VarInt read at offset 36, which then fits inside the input |
| Bitcoin.DetermineInputLength | assembly/bitcoin.ts:182-185 | fails exactly when the scriptSig length cannot be read, with the same error; otherwise the length is 41 plus the VarInt's data length plus the scriptSig length |
| Bitcoin.InputAt | assembly/bitcoin.ts:126-148 | a vin whose count does not parse fails with that error; an index at or past the count fails with the vin-read-overrun error; a negative index gives the empty array; a result is never longer than the vin |
| Bitcoin.SkipOne | assembly/bitcoin.ts:138-145 | one step of the walk measures the input at the offset and continues after it |
| Bitcoin.SkipStuck | assembly/bitcoin.ts:138-145 | an input that cannot be measured ends the walk with that error |
| Bitcoin.ExtractInputAtIndex | assembly/bitcoin.ts:126-148 | the result is InputAt: the count's parse error; 'Vin read overrun' when the index is not below the input count; otherwise the slice at the walked offset with the measured length |
| Bitcoin.MeasureInputAt | assembly/bitcoin.ts:135-145 | the loop stops at the offset reached by skipping the inputs before the index, with that input's length, or at the first error of that walk |
| Bitcoin.InputParts | assembly/bitcoin.ts:182-185 | one laid-out byte string per input, in order |
| Bitcoin.InputLengthOfInputBytes | assembly/bitcoin.ts:166-185 | determineInputLength of a laid-out input, whatever follows it, is exactly its length (41 + VarInt data + script) |
| Bitcoin.InputBytesSelfDelimiting | assembly/bitcoin.ts:182-185 | a laid-out input is measured as its own length in front of any bytes |
| Bitcoin.FlattenSplit | assembly/bitcoin.ts:126-148 | the concatenation of parts splits at any part boundary |
| Bitcoin.WalkParts | assembly/bitcoin.ts:138-145 | walking over self-delimiting parts advances the offset by their total length |
| Bitcoin.PartAt | assembly/bitcoin.ts:138-147 | walking over i parts reaches part i, which is measured and sliced out exactly |
| Bitcoin.InputAtFound | assembly/bitcoin.ts:126-148 | once the count is read and the walk reaches input i with its length, extraction returns exactly that input |
| Bitcoin.InputOffset | assembly/bitcoin.ts:136-145 | in a vin laid out from a list of inputs, the walk reaches input i at an offset where it is measured and sliced out exactly |
| Bitcoin.InputAtVin | assembly/bitcoin.ts:126-148 | round trip: in a vin laid out from a list of inputs, input i is extracted exactly for every i below the count, and every larger index gives 'Vin read overrun' |
| Bitcoin.ExtractPrevBlockLE | assembly/bitcoin.ts:265-267 | header bytes 4 to 36, which are 32 bytes when the header is long enough |
| Bitcoin.ExtractMerkleRootLE | assembly/bitcoin.ts:269-271 | header bytes 36 to 68, which are 32 bytes when the header is long enough |
| Bitcoin.HeaderFieldsRoundTrip | assembly/bitcoin.ts:265-271 | on an 80-byte header laid out field by field, the two slicers recover the previous-block hash and the Merkle root |
| Bitcoin.ValidateHeaderWork | assembly/bitcoin.ts:219-226 | an all-zero 32-byte digest gives false and is left alone; otherwise the digest is reversed in place and the result is true exactly when its little-endian value is below the big-endian value of the target |
| Bitcoin.DecimalValueOfDigits | assembly/bitcoin.ts:237 | the decimal text of a number reads back as that number |
| Bitcoin.CalcKeyOfHeight | assembly/bitcoin.ts:231-238 | for non-negative heights (below the i32 wrap), the key names the hundred-block bucket that contains the height |
| Bitcoin.CalcKey | assembly/bitcoin.ts:231-238 | for heights from 0 to just below the i32 wrap, the key is the bucket key of height / 100 |
| Bitcoin.BucketKeyInjective | assembly/bitcoin.ts:231-238 | different buckets have different keys |
| Bitcoin.CalcKeySameBucket | assembly/bitcoin.ts:231-238 | two heights share a key exactly when they lie in the same hundred-block bucket |
| Bitcoin.CalcKeyExample | assembly/bitcoin.ts:231-238 | height 592920 is keyed "592900-593000", the key the header-store test data uses |
| Bitcoin.SetAt | assembly/bitcoin.ts:201-204 | set(src, offset) replaces exactly the bytes from offset onwards with src and keeps the rest |
| Bitcoin.OverlayAt | assembly/bitcoin.ts:201-204 | after an overlay, a byte comes from the part where the part reaches and from the old buffer beyond it |
| Bitcoin.CalculateTxId | assembly/bitcoin.ts:199-209 | the buffer as written: every part is copied to offset 0 of a zeroed buffer as long as all four parts |
| Bitcoin.TxIdBufferContents | assembly/bitcoin.ts:199-209 | the buffer's length is the sum of the four lengths, and each byte comes from the last part long enough to reach it, or is 0 |
| Bitcoin.TxIdBufferIsNotConcatenation | assembly/bitcoin.ts:199-209 | with version [1], empty vin and vout and locktime [2], the buffer is [2, 0], not the concatenation [1, 2] |
| Bitcoin.CalculateTxIdPreimage | assembly/bitcoin.ts:199-209 | the corrected buffer is version, vin, vout and locktime concatenated |
| FileUpload.Get | scripts/deploy.ts:332 | a member read from a parsed object is one of its (name, value) pairs, and an absent name occurs in no pair |
| FileUpload.ParseFileUploadResponseInfo | scripts/deploy.ts:331-388 | every rejection is "Invalid File Upload Response"; an accepted value is an object whose "type" string names the returned variant |
| FileUpload.ParseResponseJson | scripts/deploy.ts:331-388 | every response, in the JSON form a verifier sends, is accepted and returned unchanged |
| FileUpload.ErrorVariant | scripts/deploy.ts:337-345 | an error response is returned exactly when type is "error" and cid and error are strings, and it carries only those two fields |
| FileUpload.SuccessVariant | scripts/deploy.ts:346-363 | a success response is returned exactly when type is "success", cid is a string and signature is a non-null object with string s and p |
| FileUpload.ProofVariant | scripts/deploy.ts:364-384 | a proof response is returned exactly when type is "proof", data and cid are strings and signature is a non-null object with string sig and bv |
| FileUpload.RejectsUntyped | scripts/deploy.ts:332-387 | a value that is not an object, or has no known string type, is rejected with "Invalid File Upload Response" |
| FileUpload.IgnoreUnsignedMessages | scripts/deploy.ts:392-401 | the wrapped handler never sees an unsigned message, and every signed message is passed to it unchanged |
| FileUpload.HandleSuccess | scripts/deploy.ts:487-518 | a success response never changes the error count; when it changes the status, the session resolves with at least six signers and its proof carries the serialized circuit |
| FileUpload.Step | scripts/deploy.ts:431-524 | a finished session and an unsigned message leave the state alone; the error count grows by at most one; only a collecting session changes status |
| FileUpload.StepValid | scripts/deploy.ts:441-447 | every message keeps the session invariant: a collecting session has seen fewer than six errors |
| FileUpload.FinishedIgnores | scripts/deploy.ts:403-526 | a resolved or rejected session ignores every message and the timer |
| FileUpload.OtherCidIgnored | scripts/deploy.ts:437-439 | a response about another CID changes nothing, neither the error count nor the circuit |
| FileUpload.ProofIgnored | scripts/deploy.ts:450-452 | proof responses change nothing |
| FileUpload.RejectedSignatureIgnored | scripts/deploy.ts:487-496 | a success response whose signature addAndVerify turns down leaves the session as it was, still collecting |
| FileUpload.ErrorCounted | scripts/deploy.ts:441-447 | an error response for the CID counts one more error, and rejects with its message once the count reaches six |
| FileUpload.ResolvesWithEnoughSigners | scripts/deploy.ts:498-518 | a session resolves only when the circuit holds at least six signers, and the proof's signature is serialize over the member key list |
| FileUpload.ResolvesOnSixthSigner | scripts/deploy.ts:487-518 | a verified signer that brings the signer count to six resolves the session with the proof over the serialized circuit |
| FileUpload.CollectsBelowSix | scripts/deploy.ts:487-518 | a verified signer below six signers updates the circuit and keeps the session collecting |
| FileUpload.ErrorMessages | scripts/deploy.ts:441-447 | one error message per error text |
| FileUpload.ErrorsBelowThreshold | scripts/deploy.ts:441-447 | error responses below the threshold are only counted: one per message, not per sender |
| FileUpload.SixErrorsReject | scripts/deploy.ts:54 | a fresh session is still collecting after five error responses, and the sixth rejects it with that response's message |
| FileUpload.ErrorMessagesAppend | scripts/deploy.ts:441-447 | the error messages of two lists of texts, back to back, are the messages of the joined list |
| FileUpload.RunAppend | scripts/deploy.ts:431-524 | handling two message sequences one after the other is handling their concatenation |
| FileUpload.Session.constructor | scripts/deploy.ts:406-431 | a new session is collecting with no errors, and satisfies the invariant |
| FileUpload.Session.Collect | scripts/deploy.ts:487-518 | handling a success response moves the session and circuit exactly as HandleSuccess does |
| FileUpload.Session.Handle | scripts/deploy.ts:431-524 | each delivered message moves the session and circuit exactly as Step does, and keeps the invariant |
| FileUpload.Session.OnTimeout | scripts/deploy.ts:411-414 | the timer rejects a session that is still collecting with the timeout reason, and leaves a finished one alone |

## Left out

- BLS group algebra is not modelled:
  - Keys, signatures, aggregation and pairing verification are abstract.
  - An aggregate is the multiset of what was folded into it, so two aggregates are equal exactly when their multisets are. Collisions between different multisets of curve points are not modelled.
  - `BlsCircuit.verify` (scripts/bls-did.ts:246-248) is the same abstract `verify` and has no member of its own.
- The base64, base64url and hex codecs are oracles of the `Crypto` record:
  - `readSig` stands for base64url decoding plus `Signature.fromBytes`.
  - `readSigPadded` stands for base64 decoding plus `Signature.fromBytes`.
  - `writeSig` stands for `toBytes` plus base64url encoding.
  - Their mutual inverse property is a precondition of the serialization round trip.
- The `BitSet` hex text and the `d2h` padding of `serialize` are not modelled. The bit vector is the set of indices whose bit is set.
- `encodePayload` and its CID are not modelled; the oracle `payloadCid` stands for them.
- `PublicKey.fromBytes` is the predicate `isKey`.
- BlsIdentity.ParseDid: models did-resolver's `parse` for the method and id. Parameters, path, query and fragment are checked by a simplified grammar, and percent-escapes in ids are not decoded.
- `serialize`'s loop over the string keys of `circuitMap` is modelled as a loop over indices. Sparse arrays and extra properties are not modelled.
- Everything else in scripts/deploy.ts is I/O and not modelled:
  - deployment;
  - compilation;
  - starting IPFS;
  - pinning;
  - `getEpochMembers`;
  - IPFS pubsub and dag calls;
  - Hive broadcasting;
  - logging.
- The session's environment is given as parameters:
  - the member keys;
  - the `data` CID text of the resolved proof, standing for `ipfs.dag.put`;
  - `decodeP`, standing for the base64url decoding of `signature.p` with `JSON.parse`.
- Messages are pubsub events given in sequence, and the 60-second timer is the `OnTimeout` event. Interleaving of handlers across `await` points is not modelled, nor is unsubscribing.
- After a session resolves or rejects, the model ignores further messages. In the source, the promise is settled at that point and later calls only repeat side effects.
- `JSON.parse` text is not modelled. A signed message carries the parsed value, or None when parsing throws.
- JSON numbers are integers, and objects are member lists in which the last occurrence of a name wins.
- The TextDecoder step is not modelled.
- FileUpload.ParseFileUploadResponseInfo: does not model JavaScript's `in` operator on arrays and non-plain objects. Only parsed objects (`JObject`) count as objects, and arrays are rejected as `typeof` "object" values without the fields.
- `deserialize` removes `signature` from the caller's payload object before that object becomes the circuit's message (scripts/bls-did.ts:317, 333). The model takes the signature and the message as separate values, so the payload never holds a signature, and the change to the caller's object is not modelled.
- The two `console.log` calls in `deserialize` (scripts/bls-did.ts:319, 324) are logging and are not modelled.
- BlsCircuits.AddAndVerifyMember: the `id` getter re-encodes `pubKey.toBytes()` (scripts/bls-did.ts:67-76). The model reads a key as the bytes the DID carries, so it assumes `toBytes` gives back the bytes `fromBytes` accepted. If `fromBytes` accepts a non-canonical encoding, the source records a different id in the signer map than the member's DID, and the stated `Id(pk) in aggPubKeys` relation is then about the canonical id only.
- Bitcoin.CalcKey: its contract states the bucket key only for heights from 0 to just below the `i32` wrap-around; for negative heights the body models truncating division and the wrapped upper bound, with no contract about them.
- `BlsCircuit.finalize`, `PartialBlsCircuit.finalize`: not modelled as members. They return the wrapped circuit, which the model reads directly.
- Arrays.BytesToUint: does not model AssemblyScript's fixed-width accumulator (the `i32` total and the `u8` shift amount). The result is the unbounded big-endian value the function documents; the fixed-width result, and any wrap-around of the shift or the total, is not reproduced.
- Bitcoin.InputAt: compares the index with the unbounded input count and walks with unbounded offsets. The source's `<i32>` casts of the count, the offset and the length are not reproduced.
- Bitcoin.ParseVarInt: reads the VarInt data big-endian through `bytesToUint`, as the code does. Bitcoin's own CompactSize is little-endian.
- Bitcoin.CalcKeyOfHeight: stated only for heights from 0 to just below the `i32` wrap-around. `CalcKey` itself models truncating division and the 32-bit wrap of `keyA + 100` for every height.
- `hash256`, `getHeaders`, `getStringFromJSON`, `serializeConfirmingHeader`, `serializeProof`, `deserializeProof`, `Bitcoin.validateTxProof` and `validateTxProofWrapper` are not modelled. They are host calls (hashing, the key-value store) or thin wrappers over the JSON library.
- Aborts of the AssemblyScript runtime are modelled as error values of `Result`: `throw`, and the index check on an empty array.

## Findings

| source | as written | input that shows it | evidently intended | confidence | as-written member | corrected member |
|---|---|---|---|---|---|---|
| assembly/bitcoin.ts:199-209 | every part is copied to `arr.byteOffset`, which is 0, so each later part overwrites the front of the buffer | version [1], vin [], vout [], locktime [2] gives [2, 0] | the transaction preimage: version, vin, vout and locktime concatenated ([1, 2]) | not executed | Bitcoin.CalculateTxId, Bitcoin.TxIdBufferIsNotConcatenation | Bitcoin.CalculateTxIdPreimage |
