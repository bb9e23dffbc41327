/** Aggregated BLS signatures with a signer map (`BlsCircuit`,
    `BlsCircuitGenerator` and `PartialBlsCircuit` of scripts/bls-did.ts).

    The curve arithmetic is abstract. An aggregate public key is the multiset
    of the individual keys folded into it, and an aggregate signature the
    multiset of the signature shares folded into it; decoding signatures,
    checking key bytes, verifying and hashing the payload are functions in a
    `Crypto` value that every operation receives. */
module BlsCircuits {
  import opened Wrappers
  import opened Arrays
  import opened BlsIdentity

  /** The bytes of one public key. */
  type PubKey = seq<uint8>

  /** An aggregate public key: the keys folded into it, with repetitions. */
  type AggKey = multiset<PubKey>

  /** A signature: the shares folded into it, with repetitions. */
  type Signature = multiset<seq<uint8>>

  datatype Crypto = Crypto(
    /** `PublicKey.fromBytes` accepts the bytes. */
    isKey: PubKey -> bool,
    /** `Signature.fromBytes` of the base64url-decoded text; None when it throws. */
    readSig: string -> Option<Signature>,
    /** `Signature.fromBytes` of the base64-decoded text; None when it throws. */
    readSigPadded: string -> Option<Signature>,
    /** base64url text of `Signature.toBytes`. */
    writeSig: Signature -> string,
    /** `sig.verify(pubKey, msg)`. */
    verify: (PubKey, seq<uint8>, Signature) -> bool,
    /** `encodePayload(data).cid.bytes`. */
    payloadCid: string -> seq<uint8>,
    /** `BlsDID.fromString(did).pubKey`. */
    readDid: string -> Result<PubKey, DidError>,
    /** `new BlsDID({pubKey}).id`. */
    didOf: PubKey -> string)

  /** The DID functions are the `did:key` ones of `BlsDID`. */
  ghost predicate UsesDidKey(c: Crypto) {
    (forall did :: c.readDid(did) == FromString(did, c.isKey)) &&
    (forall pk :: c.didOf(pk) == Id(pk))
  }

  /** What a circuit signs: a hash given directly, or data whose CID is signed. */
  datatype Message = Hash(hash: seq<uint8>) | Data(data: string)

  datatype Entry = Entry(did: string, sig: string)

  datatype CircuitError =
    | BadDid(reason: DidError)    // BlsDID.fromString throws
    | BadSignature                // Signature.fromBytes throws
    | EmptyAggregate              // aggregating an empty list throws
    | NoAggregate                 // this.did is undefined
    | NoSignature                 // "No Valid BLS Signature"

  /** The circuit's fields: the signer map (its values are always `true`,
      so it is the set of its keys), the aggregate key and the aggregate
      signature, both undefined until the first aggregation. */
  datatype CircuitState = CircuitState(aggPubKeys: set<string>, did: Option<AggKey>, sig: Option<Signature>)

  const Empty := CircuitState({}, None, None)

  /** The serialized signature: `sig` is the signature text and `bits` the
      indices whose bit is set in the bit vector. */
  datatype SignedProof = SignedProof(sig: string, bits: set<nat>)

  /** The bytes signatures are checked against. */
  function MessageBytes(c: Crypto, msg: Message): seq<uint8> {
    match msg
    case Hash(h) => h
    case Data(d) => c.payloadCid(d)
  }

  function OrEmpty<T>(m: Option<multiset<T>>): multiset<T> {
    if m.Some? then m.value else multiset{}
  }

  function SumSigs(sigs: seq<Signature>): Signature {
    if sigs == [] then multiset{} else SumSigs(sigs[..|sigs| - 1]) + sigs[|sigs| - 1]
  }

  function InvalidSig(id: string): string {
    "INVALID_SIG for " + id
  }

  // ---------------------------------------------------------------------
  // addMany

  /** What one entry of `addMany` comes to: an exception, or its signer's
      id and key with the signature share, verified or not. */
  datatype Outcome =
    | Thrown(error: CircuitError)
    | Verified(id: string, pk: PubKey, share: Signature)
    | Unverified(id: string, pk: PubKey)

  /** Reading and checking one entry against the message bytes `m`: the DID
      is read first, then the signature, then the signature is verified. */
  function EntryOutcome(c: Crypto, m: seq<uint8>, e: Entry): (o: Outcome)
    ensures o.Thrown? <==> c.readDid(e.did).Err? || c.readSig(e.sig).None?
    ensures o.Verified? ==> c.readDid(e.did) == Ok(o.pk) && o.id == c.didOf(o.pk)
                            && c.readSig(e.sig) == Some(o.share) && c.verify(o.pk, m, o.share)
    ensures o.Unverified? ==> c.readDid(e.did) == Ok(o.pk) && o.id == c.didOf(o.pk)
                              && !c.verify(o.pk, m, c.readSig(e.sig).value)
  {
    match c.readDid(e.did)
    case Err(reason) => Thrown(BadDid(reason))
    case Ok(pk) =>
      match c.readSig(e.sig)
      case None => Thrown(BadSignature)
      case Some(g) => if c.verify(pk, m, g) then Verified(c.didOf(pk), pk, g) else Unverified(c.didOf(pk), pk)
  }

  /** Progress of the loop of `addMany`: the ids it has put into the signer
      map, the keys and signatures it has collected, the error messages, and
      the exception that ended it, if one did. */
  datatype Scan = Scan(ids: set<string>, keys: seq<PubKey>, sigs: seq<Signature>,
                       errors: seq<string>, failure: Option<CircuitError>)

  /** One iteration of the loop over entries. */
  function ScanStep(s: Scan, o: Outcome): Scan {
    if s.failure.Some? then s
    else
      match o
      case Thrown(e) => s.(failure := Some(e))
      case Verified(id, pk, g) => s.(ids := s.ids + {id}, keys := s.keys + [pk], sigs := s.sigs + [g])
      case Unverified(id, _) => s.(errors := s.errors + [InvalidSig(id)])
  }

  function ScanAll(c: Crypto, m: seq<uint8>, entries: seq<Entry>): Scan {
    if entries == [] then Scan({}, [], [], [], None)
    else ScanStep(ScanAll(c, m, entries[..|entries| - 1]), EntryOutcome(c, m, entries[|entries| - 1]))
  }

  /** The aggregation after the loop: the collected keys and signatures
      together with the previous aggregates, if any; an empty list of keys or
      of signatures throws. */
  function Fold(s: Scan, did: Option<AggKey>, sig: Option<Signature>): (r: Result<(AggKey, Signature), CircuitError>)
    ensures r.Ok? <==> (s.keys != [] || did.Some?) && (s.sigs != [] || sig.Some?)
    ensures r.Err? ==> r.error == EmptyAggregate
    ensures r.Ok? ==> r.value == (multiset(s.keys) + OrEmpty(did), SumSigs(s.sigs) + OrEmpty(sig))
  {
    if (s.keys == [] && did.None?) || (s.sigs == [] && sig.None?) then Err(EmptyAggregate)
    else Ok((multiset(s.keys) + OrEmpty(did), SumSigs(s.sigs) + OrEmpty(sig)))
  }

  /** `addMany(entries)`: the new circuit state and either the list of error
      messages or the exception it throws. Ids of entries verified before an
      exception stay in the signer map; the aggregates change only when
      nothing throws. */
  function AddManyEffect(c: Crypto, msg: Message, st: CircuitState, entries: seq<Entry>)
    : (r: (CircuitState, Result<seq<string>, CircuitError>))
    ensures st.aggPubKeys <= r.0.aggPubKeys
    ensures r.1.Err? ==> r.0.did == st.did && r.0.sig == st.sig
    ensures r.1.Ok? ==> r.0.did.Some? && r.0.sig.Some?
    ensures var s := ScanAll(c, MessageBytes(c, msg), entries);
            r.0.aggPubKeys == st.aggPubKeys + s.ids &&
            (r.1.Err? <==> s.failure.Some? || Fold(s, st.did, st.sig).Err?) &&
            (r.1.Ok? ==> r.1.value == s.errors && (r.0.did.value, r.0.sig.value) == Fold(s, st.did, st.sig).value)
  {
    var s := ScanAll(c, MessageBytes(c, msg), entries);
    var signers := st.aggPubKeys + s.ids;
    if s.failure.Some? then (st.(aggPubKeys := signers), Err(s.failure.value))
    else
      match Fold(s, st.did, st.sig)
      case Err(e) => (st.(aggPubKeys := signers), Err(e))
      case Ok(agg) => (CircuitState(signers, Some(agg.0), Some(agg.1)), Ok(s.errors))
  }

  /** Once an entry has thrown, the later entries are not looked at. */
  lemma {:induction false} ScanAfterFailure(c: Crypto, m: seq<uint8>, entries: seq<Entry>, j: nat)
    requires j <= |entries| && ScanAll(c, m, entries[..j]).failure.Some?
    ensures ScanAll(c, m, entries) == ScanAll(c, m, entries[..j])
    decreases |entries|
  {
    if j < |entries| {
      var init := entries[..|entries| - 1];
      assert init[..j] == entries[..j];
      ScanAfterFailure(c, m, init, j);
    } else {
      assert entries[..j] == entries;
    }
  }

  /** Strictly increasing positions. */
  predicate Increasing(idx: seq<nat>) {
    forall j, j' :: 0 <= j < j' < |idx| ==> idx[j] < idx[j']
  }

  /** Without an exception, the scan collects the keys and shares of the
      verified entries in entry order; `verified` holds their positions. */
  lemma {:induction false} ScanVerified(c: Crypto, m: seq<uint8>, entries: seq<Entry>)
    returns (verified: seq<nat>)
    requires ScanAll(c, m, entries).failure.None?
    ensures var s := ScanAll(c, m, entries);
            |verified| == |s.keys| == |s.sigs| && Increasing(verified)
    ensures var s := ScanAll(c, m, entries);
            forall j :: 0 <= j < |verified| ==>
              verified[j] < |entries| &&
              EntryOutcome(c, m, entries[verified[j]]) == Verified(c.didOf(s.keys[j]), s.keys[j], s.sigs[j])
    ensures forall i :: 0 <= i < |entries| ==> (EntryOutcome(c, m, entries[i]).Verified? <==> i in verified)
  {
    if entries == [] {
      return [];
    }
    var n := |entries| - 1;
    var init := entries[..n];
    assert ScanAll(c, m, init).failure.None?;
    verified := ScanVerified(c, m, init);
    assert forall i :: 0 <= i < n ==> entries[i] == init[i];
    if EntryOutcome(c, m, entries[n]).Verified? {
      verified := verified + [n];
    }
  }

  /** Without an exception, no entry threw, and the scan lists one error
      message per rejected entry in entry order; `rejected` holds their
      positions. */
  lemma {:induction false} ScanRejected(c: Crypto, m: seq<uint8>, entries: seq<Entry>)
    returns (rejected: seq<nat>)
    requires ScanAll(c, m, entries).failure.None?
    ensures |rejected| == |ScanAll(c, m, entries).errors| && Increasing(rejected)
    ensures var s := ScanAll(c, m, entries);
            forall j :: 0 <= j < |rejected| ==>
              rejected[j] < |entries| && EntryOutcome(c, m, entries[rejected[j]]).Unverified? &&
              s.errors[j] == InvalidSig(EntryOutcome(c, m, entries[rejected[j]]).id)
    ensures forall i :: 0 <= i < |entries| ==>
              !EntryOutcome(c, m, entries[i]).Thrown? &&
              (EntryOutcome(c, m, entries[i]).Unverified? <==> i in rejected)
  {
    if entries == [] {
      return [];
    }
    var n := |entries| - 1;
    var init := entries[..n];
    assert ScanAll(c, m, init).failure.None?;
    rejected := ScanRejected(c, m, init);
    assert forall i :: 0 <= i < n ==> entries[i] == init[i];
    if EntryOutcome(c, m, entries[n]).Unverified? {
      rejected := rejected + [n];
    }
  }

  /** Without an exception, every entry is either verified, contributing its
      key and its share to the aggregates, or rejected, contributing its error
      message; both lists keep entry order. */
  lemma ScanOrder(c: Crypto, m: seq<uint8>, entries: seq<Entry>)
    returns (verified: seq<nat>, rejected: seq<nat>)
    requires ScanAll(c, m, entries).failure.None?
    ensures var s := ScanAll(c, m, entries);
            |verified| == |s.keys| == |s.sigs| && |rejected| == |s.errors|
    ensures Increasing(verified) && Increasing(rejected)
    ensures var s := ScanAll(c, m, entries);
            forall j :: 0 <= j < |verified| ==>
              verified[j] < |entries| &&
              EntryOutcome(c, m, entries[verified[j]]) == Verified(c.didOf(s.keys[j]), s.keys[j], s.sigs[j])
    ensures var s := ScanAll(c, m, entries);
            forall j :: 0 <= j < |rejected| ==>
              rejected[j] < |entries| && EntryOutcome(c, m, entries[rejected[j]]).Unverified? &&
              s.errors[j] == InvalidSig(EntryOutcome(c, m, entries[rejected[j]]).id)
    ensures forall i :: 0 <= i < |entries| ==>
              (EntryOutcome(c, m, entries[i]).Verified? && i in verified) ||
              (EntryOutcome(c, m, entries[i]).Unverified? && i in rejected)
  {
    verified := ScanVerified(c, m, entries);
    rejected := ScanRejected(c, m, entries);
  }

  /** Without an exception, the signer map receives exactly the ids of the
      verified entries. */
  lemma {:induction false} ScanSigners(c: Crypto, m: seq<uint8>, entries: seq<Entry>)
    requires ScanAll(c, m, entries).failure.None?
    ensures ScanAll(c, m, entries).ids
            == set i | 0 <= i < |entries| && EntryOutcome(c, m, entries[i]).Verified? :: EntryOutcome(c, m, entries[i]).id
  {
    if entries != [] {
      var n := |entries| - 1;
      var init := entries[..n];
      assert ScanAll(c, m, init).failure.None?;
      ScanSigners(c, m, init);
      assert forall i :: 0 <= i < n ==> entries[i] == init[i];
    }
  }

  /** Every entry either contributes a key and a signature or produces one
      error message, unless one throws. */
  lemma {:induction false} ScanAccounting(c: Crypto, m: seq<uint8>, entries: seq<Entry>)
    requires ScanAll(c, m, entries).failure.None?
    ensures var s := ScanAll(c, m, entries);
            |s.keys| + |s.errors| == |entries| && |s.sigs| == |s.keys|
  {
    if entries != [] {
      ScanAccounting(c, m, entries[..|entries| - 1]);
    }
  }

  /** The signer map receives exactly the ids of the keys that are folded
      into the aggregate. */
  lemma {:induction false} ScanIds(c: Crypto, m: seq<uint8>, entries: seq<Entry>)
    ensures var s := ScanAll(c, m, entries);
            s.ids == set k | k in s.keys :: c.didOf(k)
  {
    if entries != [] {
      ScanIds(c, m, entries[..|entries| - 1]);
    }
  }

  /** The keys folded in verified against the message, each with its own
      signature, and every error message names the DID of a key. */
  lemma {:induction false} ScanContents(c: Crypto, m: seq<uint8>, entries: seq<Entry>)
    ensures var s := ScanAll(c, m, entries);
            |s.sigs| == |s.keys| &&
            (forall i :: 0 <= i < |s.keys| ==> c.verify(s.keys[i], m, s.sigs[i])) &&
            (forall msg :: msg in s.errors ==> exists pk :: msg == InvalidSig(c.didOf(pk)))
  {
    if entries != [] {
      ScanContents(c, m, entries[..|entries| - 1]);
    }
  }

  /** Scanning a single entry is one step from the empty scan. */
  lemma ScanOne(c: Crypto, m: seq<uint8>, e: Entry)
    ensures ScanAll(c, m, [e]) == ScanStep(Scan({}, [], [], [], None), EntryOutcome(c, m, e))
  {
    assert [e][..0] == [];
  }

  /** An entry whose key and signature decode and verify puts its id into
      the signer map and folds its key and signature into the aggregates. */
  lemma AddVerified(c: Crypto, msg: Message, st: CircuitState, e: Entry, id: string, pk: PubKey, g: Signature)
    requires EntryOutcome(c, MessageBytes(c, msg), e) == Verified(id, pk, g)
    ensures AddManyEffect(c, msg, st, [e])
            == (CircuitState(st.aggPubKeys + {id}, Some(multiset{pk} + OrEmpty(st.did)), Some(g + OrEmpty(st.sig))),
                Ok([]))
  {
    var m := MessageBytes(c, msg);
    ScanOne(c, m, e);
    var s := ScanAll(c, m, [e]);
    assert s.ids == {} + {id} == {id};
    assert s == Scan({id}, [pk], [g], [], None);
    assert multiset(s.keys) == multiset{pk};
    assert SumSigs(s.sigs) == g by { assert [g][..0] == []; }
  }

  /** An entry whose signature does not verify leaves the signer map alone
      and yields one error naming its key; the aggregation still runs, and
      throws when there is no earlier aggregate. */
  lemma AddRejected(c: Crypto, msg: Message, st: CircuitState, e: Entry, id: string, pk: PubKey)
    requires EntryOutcome(c, MessageBytes(c, msg), e) == Unverified(id, pk)
    ensures AddManyEffect(c, msg, st, [e])
            == if st.did.Some? && st.sig.Some? then (st, Ok([InvalidSig(id)])) else (st, Err(EmptyAggregate))
  {
    var m := MessageBytes(c, msg);
    ScanOne(c, m, e);
    assert ScanAll(c, m, [e]) == Scan({}, [], [], [InvalidSig(id)], None);
    assert st.aggPubKeys + {} == st.aggPubKeys;
    assert multiset{} + OrEmpty(st.did) == OrEmpty(st.did);
    assert SumSigs([]) + OrEmpty(st.sig) == OrEmpty(st.sig);
  }

  /** Adding a signer that is already in the circuit folds it in again: the
      signer map does not grow but the aggregate key holds the key twice. */
  lemma AddTwice(c: Crypto, msg: Message, st: CircuitState, e: Entry, id: string, pk: PubKey, g: Signature)
    requires EntryOutcome(c, MessageBytes(c, msg), e) == Verified(id, pk, g)
    ensures AddManyEffect(c, msg, st, [e]).0.aggPubKeys == st.aggPubKeys + {id}
    ensures var twice := AddManyEffect(c, msg, AddManyEffect(c, msg, st, [e]).0, [e]).0;
            twice.aggPubKeys == st.aggPubKeys + {id} &&
            twice.did == Some(multiset{pk, pk} + OrEmpty(st.did)) &&
            twice.sig == Some(g + g + OrEmpty(st.sig))
  {
    AddVerified(c, msg, st, e, id, pk, g);
    var once := AddManyEffect(c, msg, st, [e]).0;
    AddVerified(c, msg, once, e, id, pk, g);
    TwiceArithmetic(st.aggPubKeys, id, pk, OrEmpty(st.did), g, OrEmpty(st.sig));
  }

  lemma TwiceArithmetic(ids: set<string>, id: string, pk: PubKey, keys: AggKey, g: Signature, sig: Signature)
    ensures ids + {id} + {id} == ids + {id}
    ensures multiset{pk} + (multiset{pk} + keys) == multiset{pk, pk} + keys
    ensures g + (g + sig) == g + g + sig
  {
  }

  // ---------------------------------------------------------------------
  // verifySig, setAgg, verifyPubkeys

  /** `verifySig({sig, pub})`: verifies a base64 signature by the key of a
      DID against the circuit's message. */
  function VerifySig(c: Crypto, msg: Message, sig: string, pub: string): (r: Result<bool, CircuitError>)
    ensures r.Ok? <==> c.readDid(pub).Ok? && c.readSigPadded(sig).Some?
    ensures r.Ok? ==> (r.value <==> c.verify(c.readDid(pub).value, MessageBytes(c, msg), c.readSigPadded(sig).value))
  {
    match c.readDid(pub)
    case Err(reason) => Err(BadDid(reason))
    case Ok(pk) =>
      match c.readSigPadded(sig)
      case None => Err(BadSignature)
      case Some(g) => Ok(c.verify(pk, MessageBytes(c, msg), g))
  }

  /** `pubKeys.map(e => BlsDID.fromString(e).pubKey)`: the first DID that
      does not read throws. */
  function ReadKeys(c: Crypto, dids: seq<string>): (r: Result<seq<PubKey>, CircuitError>)
    ensures r.Ok? <==> forall i :: 0 <= i < |dids| ==> c.readDid(dids[i]).Ok?
    ensures r.Ok? ==> |r.value| == |dids| &&
                      forall i :: 0 <= i < |dids| ==> c.readDid(dids[i]) == Ok(r.value[i])
  {
    if dids == [] then Ok([])
    else
      match c.readDid(dids[0])
      case Err(reason) => Err(BadDid(reason))
      case Ok(pk) =>
        match ReadKeys(c, dids[1..])
        case Err(e) => Err(e)
        case Ok(rest) => Ok([pk] + rest)
  }

  /** `PublicKey.aggregate` of the keys of a list of DIDs. */
  function AggregateOf(c: Crypto, dids: seq<string>): (r: Result<AggKey, CircuitError>)
    ensures r.Ok? <==> dids != [] && forall i :: 0 <= i < |dids| ==> c.readDid(dids[i]).Ok?
    ensures r.Ok? ==> |r.value| == |dids| && r.value == multiset(ReadKeys(c, dids).value)
  {
    match ReadKeys(c, dids)
    case Err(e) => Err(e)
    case Ok(keys) => if keys == [] then Err(EmptyAggregate) else Ok(multiset(keys))
  }

  /** `verifyPubkeys(pubKeys)`: whether the aggregate of the given keys is the
      circuit's aggregate key. The aggregation comes first, so its exception
      wins over a missing aggregate key. */
  function CheckPubkeys(c: Crypto, did: Option<AggKey>, dids: seq<string>): (r: Result<bool, CircuitError>)
    ensures r == Ok(true) ==> did.Some? && AggregateOf(c, dids) == Ok(did.value)
    ensures r == Ok(false) ==> did.Some? && AggregateOf(c, dids).Ok? && AggregateOf(c, dids) != Ok(did.value)
    ensures r.Err? <==> AggregateOf(c, dids).Err? || did.None?
  {
    match AggregateOf(c, dids)
    case Err(e) => Err(e)
    case Ok(agg) => if did.None? then Err(NoAggregate) else Ok(agg == did.value)
  }

  // ---------------------------------------------------------------------
  // serialize / deserialize

  /** `serialize(circuitMap)`: bit i is set exactly when the signer map holds
      `circuitMap[i]`; throws when there is no signature. */
  function SerializeState(c: Crypto, st: CircuitState, circuitMap: seq<string>): (r: Result<SignedProof, CircuitError>)
    ensures r.Ok? <==> st.sig.Some?
    ensures r.Err? ==> r.error == NoSignature
    ensures r.Ok? ==> r.value.sig == c.writeSig(st.sig.value)
    ensures r.Ok? ==> forall i: nat :: i in r.value.bits <==> i < |circuitMap| && circuitMap[i] in st.aggPubKeys
  {
    if st.sig.None? then Err(NoSignature)
    else Ok(SignedProof(c.writeSig(st.sig.value), set i | 0 <= i < |circuitMap| && circuitMap[i] in st.aggPubKeys))
  }

  /** The keys of `keyset` whose bit is set, in keyset order. */
  function SelectedKeys(bits: set<nat>, keyset: seq<string>): (r: seq<string>)
    ensures |r| <= |keyset|
  {
    if keyset == [] then []
    else SelectedKeys(bits, keyset[..|keyset| - 1])
         + (if |keyset| - 1 in bits then [keyset[|keyset| - 1]] else [])
  }

  /** `deserialize(payload, keyset)`: the signer map holds exactly the
      selected keys, the aggregate key is built from them and the signature
      is read from its text. Aggregating no keys throws. */
  function DeserializeState(c: Crypto, proof: SignedProof, keyset: seq<string>): (r: Result<CircuitState, CircuitError>)
    ensures r.Ok? ==> r.value.aggPubKeys == set k | k in SelectedKeys(proof.bits, keyset)
    ensures r.Ok? ==> r.value.did.Some? && AggregateOf(c, SelectedKeys(proof.bits, keyset)) == Ok(r.value.did.value)
    ensures r.Ok? ==> r.value.sig.Some? && c.readSig(proof.sig) == r.value.sig
    ensures r.Err? <==> AggregateOf(c, SelectedKeys(proof.bits, keyset)).Err? || c.readSig(proof.sig).None?
  {
    var keys := SelectedKeys(proof.bits, keyset);
    match AggregateOf(c, keys)
    case Err(e) => Err(e)
    case Ok(agg) =>
      match c.readSig(proof.sig)
      case None => Err(BadSignature)
      case Some(g) => Ok(CircuitState((set k | k in keys), Some(agg), Some(g)))
  }

  /** A key is selected exactly when it sits at a set bit of the keyset. */
  lemma {:induction false} SelectedMembers(bits: set<nat>, keyset: seq<string>, k: string)
    ensures k in SelectedKeys(bits, keyset) <==> exists i :: 0 <= i < |keyset| && i in bits && keyset[i] == k
  {
    if keyset != [] {
      var init := keyset[..|keyset| - 1];
      SelectedMembers(bits, init, k);
      if k in SelectedKeys(bits, init) {
        var i :| 0 <= i < |init| && i in bits && init[i] == k;
        assert keyset[i] == k;
      }
      if exists i :: 0 <= i < |keyset| && i in bits && keyset[i] == k {
        var i :| 0 <= i < |keyset| && i in bits && keyset[i] == k;
        if i < |init| {
          assert init[i] == k;
        }
      }
    }
  }

  /** Each key is selected as many times as it occurs in the keyset at a
      set bit. */
  lemma {:induction false} SelectedCount(bits: set<nat>, keyset: seq<string>, k: string)
    ensures multiset(SelectedKeys(bits, keyset))[k] == |Positions(bits, keyset, k)|
  {
    if keyset == [] {
      assert Positions(bits, keyset, k) == {};
    } else {
      var n := |keyset| - 1;
      SelectedCount(bits, keyset[..n], k);
      PositionsStep(bits, keyset, k);
      SelectedStep(bits, keyset, k);
    }
  }

  /** The positions below the keyset's length whose bit is set and which
      hold `k`. */
  function Positions(bits: set<nat>, keyset: seq<string>, k: string): set<nat> {
    set i: nat | i < |keyset| && i in bits && keyset[i] == k
  }

  lemma PositionsStep(bits: set<nat>, keyset: seq<string>, k: string)
    requires keyset != []
    ensures var n := |keyset| - 1;
            |Positions(bits, keyset, k)| == |Positions(bits, keyset[..n], k)| + (if n in bits && keyset[n] == k then 1 else 0)
  {
    var n := |keyset| - 1;
    var before := Positions(bits, keyset[..n], k);
    var after := Positions(bits, keyset, k);
    var extra: set<nat> := if n in bits && keyset[n] == k then {n} else {};
    forall i: nat
      ensures i in after <==> i in before + extra
    {
      if i < n {
        assert keyset[..n][i] == keyset[i];
      }
    }
    assert after == before + extra;
    assert before !! extra;
  }

  lemma SelectedStep(bits: set<nat>, keyset: seq<string>, k: string)
    requires keyset != []
    ensures var n := |keyset| - 1;
            multiset(SelectedKeys(bits, keyset))[k]
            == multiset(SelectedKeys(bits, keyset[..n]))[k] + (if n in bits && keyset[n] == k then 1 else 0)
  {
  }

  /** Only the bits below the keyset's length matter: bits at positions
      beyond it are ignored. */
  lemma {:induction false} SelectedSameBits(bits: set<nat>, other: set<nat>, keyset: seq<string>)
    requires forall i: nat :: i < |keyset| ==> (i in bits <==> i in other)
    ensures SelectedKeys(bits, keyset) == SelectedKeys(other, keyset)
  {
    if keyset != [] {
      SelectedSameBits(bits, other, keyset[..|keyset| - 1]);
    }
  }

  /** With every bit set, every key is selected, in order. */
  lemma {:induction false} SelectedAll(bits: set<nat>, keyset: seq<string>)
    requires forall i :: 0 <= i < |keyset| ==> i in bits
    ensures SelectedKeys(bits, keyset) == keyset
  {
    if keyset != [] {
      SelectedAll(bits, keyset[..|keyset| - 1]);
    }
  }

  /** Round trip: deserializing what `serialize` produced over the same
      member list gives the signers that are members, an aggregate key built
      from them, and the signature unchanged, as long as the signature text
      reads back as the signature it was written from. */
  lemma SerializeDeserialize(c: Crypto, st: CircuitState, circuitMap: seq<string>)
    requires st.sig.Some? && c.readSig(c.writeSig(st.sig.value)) == st.sig
    requires exists k :: k in circuitMap && k in st.aggPubKeys
    requires forall k :: k in circuitMap && k in st.aggPubKeys ==> c.readDid(k).Ok?
    ensures var d := DeserializeState(c, SerializeState(c, st, circuitMap).value, circuitMap);
            d.Ok? && d.value.sig == st.sig &&
            d.value.aggPubKeys == set k | k in circuitMap && k in st.aggPubKeys
  {
    var proof := SerializeState(c, st, circuitMap).value;
    var keys := SelectedKeys(proof.bits, circuitMap);
    forall k
      ensures k in keys <==> k in circuitMap && k in st.aggPubKeys
    {
      SelectedMembers(proof.bits, circuitMap, k);
    }
    var k0 :| k0 in circuitMap && k0 in st.aggPubKeys;
    assert k0 in keys;
    assert forall i :: 0 <= i < |keys| ==> keys[i] in keys;
  }

  /** A mask that selects no member cannot be deserialized: the aggregation
      of no keys throws. */
  lemma DeserializeNothing(c: Crypto, proof: SignedProof, keyset: seq<string>)
    requires forall i :: i in proof.bits ==> i >= |keyset|
    ensures DeserializeState(c, proof, keyset) == Err(EmptyAggregate)
  {
    if SelectedKeys(proof.bits, keyset) != [] {
      var k := SelectedKeys(proof.bits, keyset)[0];
      SelectedMembers(proof.bits, keyset, k);
    }
  }

  /** After a successful deserialize, `verifyPubkeys` of the selected keys
      holds. */
  lemma DeserializeThenVerify(c: Crypto, proof: SignedProof, keyset: seq<string>)
    requires DeserializeState(c, proof, keyset).Ok?
    ensures CheckPubkeys(c, DeserializeState(c, proof, keyset).value.did, SelectedKeys(proof.bits, keyset)) == Ok(true)
  {
  }

  // ---------------------------------------------------------------------
  // The circuit object

  class BlsCircuit {
    const crypto: Crypto
    const msg: Message
    var aggPubKeys: set<string>
    var did: Option<AggKey>
    var sig: Option<Signature>

    function State(): CircuitState
      reads this
    {
      CircuitState(aggPubKeys, did, sig)
    }

    constructor(crypto: Crypto, msg: Message)
      ensures this.crypto == crypto && this.msg == msg
      ensures State() == Empty
    {
      this.crypto := crypto;
      this.msg := msg;
      aggPubKeys := {};
      did := None;
      sig := None;
    }

    /** `addMany(data)`. */
    method AddMany(entries: seq<Entry>) returns (r: Result<seq<string>, CircuitError>)
      modifies this
      ensures (State(), r) == AddManyEffect(crypto, msg, old(State()), entries)
    {
      var m := MessageBytes(crypto, msg);
      var publicKeys: seq<PubKey> := [];
      var sigs: seq<Signature> := [];
      var errors: seq<string> := [];
      ghost var start := State();
      ghost var ids: set<string> := {};
      var i := 0;
      while i < |entries|
        invariant 0 <= i <= |entries|
        invariant ScanAll(crypto, m, entries[..i]) == Scan(ids, publicKeys, sigs, errors, None)
        invariant State() == start.(aggPubKeys := start.aggPubKeys + ids)
      {
        assert entries[..i + 1][..i] == entries[..i];
        var outcome := EntryOutcome(crypto, m, entries[i]);
        match outcome {
          case Thrown(error) =>
            ScanAfterFailure(crypto, m, entries, i + 1);
            return Err(error);
          case Verified(id, pk, share) =>
            aggPubKeys := aggPubKeys + {id};
            ids := ids + {id};
            publicKeys := publicKeys + [pk];
            sigs := sigs + [share];
          case Unverified(id, _) =>
            errors := errors + [InvalidSig(id)];
        }
        i := i + 1;
      }
      assert entries[..i] == entries;
      if (publicKeys == [] && did.None?) || (sigs == [] && sig.None?) {
        return Err(EmptyAggregate);
      }
      did := Some(multiset(publicKeys) + OrEmpty(did));
      sig := Some(SumSigs(sigs) + OrEmpty(sig));
      return Ok(errors);
    }

    /** `add(data)`: `addMany([data])`. */
    method Add(entry: Entry) returns (r: Result<seq<string>, CircuitError>)
      modifies this
      ensures (State(), r) == AddManyEffect(crypto, msg, old(State()), [entry])
    {
      r := AddMany([entry]);
    }

    /** `setAgg(pubKeys)`: replaces the aggregate key by the aggregate of the
        given DIDs' keys; when that throws nothing changes. */
    method SetAgg(dids: seq<string>) returns (r: Result<(), CircuitError>)
      modifies this
      ensures aggPubKeys == old(aggPubKeys) && sig == old(sig)
      ensures match AggregateOf(crypto, dids)
              case Ok(agg) => r.Ok? && did == Some(agg)
              case Err(e) => r == Err(e) && did == old(did)
      ensures r.Ok? ==> CheckPubkeys(crypto, did, dids) == Ok(true)
    {
      var agg := AggregateOf(crypto, dids);
      if agg.Err? {
        return Err(agg.error);
      }
      did := Some(agg.value);
      return Ok(());
    }

    /** `verifyPubkeys(pubKeys)`. */
    function VerifyPubkeys(dids: seq<string>): (r: Result<bool, CircuitError>)
      reads this
      ensures r == Ok(true) ==> did.Some? && AggregateOf(crypto, dids) == Ok(did.value)
      ensures r == Ok(false) ==> did.Some? && AggregateOf(crypto, dids).Ok? && AggregateOf(crypto, dids) != Ok(did.value)
      ensures r.Err? <==> AggregateOf(crypto, dids).Err? || did.None?
    {
      CheckPubkeys(crypto, did, dids)
    }

    /** `serialize(circuitMap)`. */
    method Serialize(circuitMap: seq<string>) returns (r: Result<SignedProof, CircuitError>)
      ensures r == SerializeState(crypto, State(), circuitMap)
    {
      var bits: set<nat> := {};
      var i := 0;
      while i < |circuitMap|
        invariant 0 <= i <= |circuitMap|
        invariant bits == set j | 0 <= j < i && circuitMap[j] in aggPubKeys
      {
        if circuitMap[i] in aggPubKeys {
          bits := bits + {i};
        }
        i := i + 1;
      }
      if sig.None? {
        return Err(NoSignature);
      }
      return Ok(SignedProof(crypto.writeSig(sig.value), bits));
    }

    /** `BlsCircuit.deserialize(signedPayload, keyset)`. */
    static method Deserialize(crypto: Crypto, msg: Message, proof: SignedProof, keyset: seq<string>)
      returns (r: Result<BlsCircuit, CircuitError>)
      ensures match DeserializeState(crypto, proof, keyset)
              case Err(e) => r == Err(e)
              case Ok(st) => r.Ok? && fresh(r.value) && r.value.crypto == crypto && r.value.msg == msg
                             && r.value.State() == st
    {
      var pubKeys: set<string> := {};
      var pubKeyArray: seq<string> := [];
      var i := 0;
      while i < |keyset|
        invariant 0 <= i <= |keyset|
        invariant pubKeyArray == SelectedKeys(proof.bits, keyset[..i])
        invariant pubKeys == set k | k in pubKeyArray
      {
        assert keyset[..i + 1][..i] == keyset[..i];
        if i in proof.bits {
          pubKeys := pubKeys + {keyset[i]};
          pubKeyArray := pubKeyArray + [keyset[i]];
        }
        i := i + 1;
      }
      assert keyset[..i] == keyset;
      var circuit := new BlsCircuit(crypto, msg);
      circuit.aggPubKeys := pubKeys;
      var aggregated := circuit.SetAgg(pubKeyArray);
      if aggregated.Err? {
        return Err(aggregated.error);
      }
      var decoded := crypto.readSig(proof.sig);
      if decoded.None? {
        return Err(BadSignature);
      }
      circuit.sig := decoded;
      return Ok(circuit);
    }
  }

  // ---------------------------------------------------------------------
  // Member lists, the generator and partial circuits

  datatype Member = Member(account: string, key: string)

  /** `members.map(e => e.key)`. */
  function Keys(members: seq<Member>): (keys: seq<string>)
    ensures |keys| == |members| && forall i :: 0 <= i < |members| ==> keys[i] == members[i].key
  {
    if members == [] then [] else Keys(members[..|members| - 1]) + [members[|members| - 1].key]
  }

  /** A member array, shared by reference. */
  class MemberList {
    var items: seq<Member>

    constructor(items: seq<Member>)
      ensures this.items == items
    {
      this.items := items;
    }
  }

  /** `addAndVerify(pub, sig)` on a circuit whose member keys are
      `memberKeys`: false without a change for a non-member or a signature
      that does not verify; otherwise the entry is added and the result is
      true unless adding it throws. */
  function AddAndVerifyEffect(c: Crypto, msg: Message, memberKeys: seq<string>, st: CircuitState, pub: string, sig: string)
    : (r: (CircuitState, Result<bool, CircuitError>))
    ensures pub !in memberKeys ==> r == (st, Ok(false))
    ensures r.1 != Ok(true) ==> r.0.did == st.did && r.0.sig == st.sig
    ensures r.1 == Ok(false) ==> r.0 == st
    ensures r.1 == Ok(true) ==> pub in memberKeys && VerifySig(c, msg, sig, pub) == Ok(true)
    ensures r.1 == Ok(true) ==> r.0.did.Some? && r.0.sig.Some?
    ensures (pub in memberKeys && c.readDid(pub).Ok? && c.readSigPadded(sig).Some? &&
             !c.verify(c.readDid(pub).value, MessageBytes(c, msg), c.readSigPadded(sig).value))
            ==> r == (st, Ok(false))
  {
    if pub !in memberKeys then (st, Ok(false))
    else
      match VerifySig(c, msg, sig, pub)
      case Err(e) => (st, Err(e))
      case Ok(valid) =>
        if !valid then (st, Ok(false))
        else
          var added := AddManyEffect(c, msg, st, [Entry(pub, sig)]);
          (added.0, if added.1.Err? then Err(added.1.error) else Ok(true))
  }

  /** A member whose DID is the identifier of its key and whose signature
      verifies ends up in the signer map, with its key folded into the
      aggregate, provided both signature decodings agree. */
  lemma AddAndVerifyMember(c: Crypto, msg: Message, memberKeys: seq<string>, st: CircuitState,
                           pk: PubKey, sig: string, g: Signature)
    requires UsesDidKey(c)
    requires Id(pk) in memberKeys && c.isKey(pk)
    requires c.readSig(sig) == Some(g) && c.readSigPadded(sig) == Some(g)
    requires c.verify(pk, MessageBytes(c, msg), g)
    ensures var r := AddAndVerifyEffect(c, msg, memberKeys, st, Id(pk), sig);
            r.1 == Ok(true) && Id(pk) in r.0.aggPubKeys &&
            r.0.did == Some(multiset{pk} + OrEmpty(st.did))
  {
    FromStringId(pk, c.isKey);
    assert c.readDid(Id(pk)) == Ok(pk) && c.didOf(pk) == Id(pk);
    assert EntryOutcome(c, MessageBytes(c, msg), Entry(Id(pk), sig)) == Verified(Id(pk), pk, g);
    AddVerified(c, msg, st, Entry(Id(pk), sig), Id(pk), pk, g);
  }

  class BlsCircuitGenerator {
    const members: MemberList

    constructor(members: MemberList)
      ensures this.members == members
    {
      this.members := members;
    }

    /** `generate(msg)`: a partial circuit that shares this generator's
        member array. */
    method Generate(crypto: Crypto, msg: Message) returns (p: PartialBlsCircuit)
      ensures fresh(p) && fresh(p.circuit)
      ensures p.members == members && p.circuit.crypto == crypto && p.circuit.msg == msg
      ensures p.circuit.State() == Empty
    {
      p := new PartialBlsCircuit(crypto, msg, members);
    }

    /** `updateMembers(src)`: empties the shared array in place and then
        pushes the elements of `src`; when `src` is the shared array itself
        it is already empty by then, so the result is empty. */
    method UpdateMembers(src: MemberList)
      modifies members
      ensures members.items == if src == members then [] else old(src.items)
    {
      members.items := [];
      members.items := members.items + src.items;
    }

    /** `circuitMap`: the member keys in order. */
    function CircuitMap(): (keys: seq<string>)
      reads this, members
      ensures |keys| == |members.items|
      ensures forall i :: 0 <= i < |keys| ==> keys[i] == members.items[i].key
    {
      Keys(members.items)
    }
  }

  class PartialBlsCircuit {
    const members: MemberList
    const circuit: BlsCircuit

    constructor(crypto: Crypto, msg: Message, members: MemberList)
      ensures this.members == members && fresh(circuit)
      ensures circuit.crypto == crypto && circuit.msg == msg && circuit.State() == Empty
    {
      this.members := members;
      circuit := new BlsCircuit(crypto, msg);
    }

    /** `circuitMap`: the keys of the (shared) member array. */
    function CircuitMap(): (keys: seq<string>)
      reads this, members
      ensures |keys| == |members.items|
      ensures forall i :: 0 <= i < |keys| ==> keys[i] == members.items[i].key
    {
      Keys(members.items)
    }

    /** `addAndVerify(pub, sig)`. */
    method AddAndVerify(pub: string, sig: string) returns (r: Result<bool, CircuitError>)
      modifies circuit
      ensures (circuit.State(), r)
              == AddAndVerifyEffect(circuit.crypto, circuit.msg, CircuitMap(), old(circuit.State()), pub, sig)
    {
      if pub !in Keys(members.items) {
        return Ok(false);
      }
      var verified := VerifySig(circuit.crypto, circuit.msg, sig, pub);
      if verified.Err? {
        return Err(verified.error);
      }
      if !verified.value {
        return Ok(false);
      }
      var added := circuit.Add(Entry(pub, sig));
      if added.Err? {
        return Err(added.error);
      }
      return Ok(true);
    }
  }

  /** Partial circuits generated before `updateMembers` see the new member
      keys: they read the very array the generator updated. */
  method UpdateShared(g: BlsCircuitGenerator, p: PartialBlsCircuit, src: MemberList)
    requires p.members == g.members && src != g.members
    modifies g.members
    ensures p.CircuitMap() == g.CircuitMap() == Keys(old(src.items))
  {
    g.UpdateMembers(src);
  }
}
