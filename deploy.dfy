/** Collection of a data-availability proof for an uploaded file
    (scripts/deploy.ts): the validator of file-upload responses and the
    per-message handler of `fetchDataAvailibilityProof`, which counts error
    responses and feeds signatures into a partial BLS circuit until enough
    distinct members have signed. */
module FileUpload {
  import opened Wrappers
  import opened BlsCircuits

  /** `FILE_UPLOAD_REQUIRED_VERIFIERS`. */
  const RequiredVerifiers: nat := 6

  const InvalidResponse := "Invalid File Upload Response"
  const TimeoutReason := "Timeout fetching data availability proof"

  /** A value produced by `JSON.parse`. Numbers are integers here. */
  datatype Json =
    | JNull
    | JBool(b: bool)
    | JNumber(n: int)
    | JString(s: string)
    | JArray(items: seq<Json>)
    | JObject(members: seq<(string, Json)>)

  /** The value of a member; with repeated names the last one wins, as in
      `JSON.parse`. */
  function Get(members: seq<(string, Json)>, name: string): (r: Option<Json>)
    ensures r.Some? ==> exists i :: 0 <= i < |members| && members[i] == (name, r.value)
    ensures r.None? ==> forall i :: 0 <= i < |members| ==> members[i].0 != name
  {
    if members == [] then None
    else if members[|members| - 1].0 == name then Some(members[|members| - 1].1)
    else Get(members[..|members| - 1], name)
  }

  /** `name in v && typeof v[name] === "string"` gives `Some(v[name])`. */
  function StringField(v: Json, name: string): Option<string> {
    if !v.JObject? then None
    else
      match Get(v.members, name)
      case Some(JString(s)) => Some(s)
      case _ => None
  }

  /** `name in v && typeof v[name] === "object" && v[name] !== null`, for
      the purposes of the validator: only objects can carry the members
      looked up next, so arrays count as missing. */
  function ObjectField(v: Json, name: string): Option<Json> {
    if !v.JObject? then None
    else
      match Get(v.members, name)
      case Some(JObject(m)) => Some(JObject(m))
      case _ => None
  }

  /** `FileUploadResponseInfo`. */
  datatype Response =
    | ErrorResponse(cid: string, error: string)
    | Success(cid: string, s: string, p: string)
    | ProofResponse(data: string, sig: string, bv: string, cid: string)

  function Kind(r: Response): string {
    match r
    case ErrorResponse(_, _) => "error"
    case Success(_, _, _) => "success"
    case ProofResponse(_, _, _, _) => "proof"
  }

  /** `parseFileUploadResponseInfo` on the value `JSON.parse` produced. */
  function ParseFileUploadResponseInfo(v: Json): (r: Result<Response, string>)
    ensures r.Err? ==> r.error == InvalidResponse
    ensures r.Ok? ==> v.JObject? && StringField(v, "type") == Some(Kind(r.value))
                      && StringField(v, "cid") == Some(r.value.cid)
  {
    var kind := StringField(v, "type");
    if kind == Some("error") then
      match (StringField(v, "error"), StringField(v, "cid"))
      case (Some(error), Some(cid)) => Ok(ErrorResponse(cid, error))
      case _ => Err(InvalidResponse)
    else if kind == Some("success") then
      match (StringField(v, "cid"), ObjectField(v, "signature"))
      case (Some(cid), Some(sig)) =>
        (match (StringField(sig, "s"), StringField(sig, "p"))
         case (Some(s), Some(p)) => Ok(Success(cid, s, p))
         case _ => Err(InvalidResponse))
      case _ => Err(InvalidResponse)
    else if kind == Some("proof") then
      match (StringField(v, "data"), ObjectField(v, "signature"), StringField(v, "cid"))
      case (Some(data), Some(sig), Some(cid)) =>
        (match (StringField(sig, "sig"), StringField(sig, "bv"))
         case (Some(s), Some(bv)) => Ok(ProofResponse(data, s, bv, cid))
         case _ => Err(InvalidResponse))
      case _ => Err(InvalidResponse)
    else Err(InvalidResponse)
  }

  /** The JSON text a verifier sends for a response. */
  function ResponseJson(r: Response): Json {
    match r
    case ErrorResponse(cid, error) =>
      JObject([("type", JString("error")), ("cid", JString(cid)), ("error", JString(error))])
    case Success(cid, s, p) =>
      JObject([("type", JString("success")), ("cid", JString(cid)),
               ("signature", JObject([("s", JString(s)), ("p", JString(p))]))])
    case ProofResponse(data, sig, bv, cid) =>
      JObject([("type", JString("proof")), ("data", JString(data)),
               ("signature", JObject([("sig", JString(sig)), ("bv", JString(bv))])), ("cid", JString(cid))])
  }

  /** The last member with a name is the one read. */
  lemma GetLast(members: seq<(string, Json)>, name: string, v: Json)
    ensures Get(members + [(name, v)], name) == Some(v)
  {
    assert (members + [(name, v)])[..|members|] == members;
  }

  /** A member with another name is passed over. */
  lemma GetSkip(members: seq<(string, Json)>, other: string, v: Json, name: string)
    requires other != name
    ensures Get(members + [(other, v)], name) == Get(members, name)
  {
    assert (members + [(other, v)])[..|members|] == members;
  }

  /** The members of an object with two string members. */
  lemma TwoStrings(a: string, x: string, b: string, y: string)
    requires a != b
    ensures StringField(JObject([(a, JString(x)), (b, JString(y))]), a) == Some(x)
    ensures StringField(JObject([(a, JString(x)), (b, JString(y))]), b) == Some(y)
  {
    var m := [(a, JString(x)), (b, JString(y))];
    assert m == [] + [(a, JString(x))] + [(b, JString(y))];
    GetLast([(a, JString(x))], b, JString(y));
    GetSkip([(a, JString(x))], b, JString(y), a);
    GetLast([], a, JString(x));
  }

  /** Every response is accepted in the form it is sent in. */
  lemma ParseResponseJson(r: Response)
    ensures ParseFileUploadResponseInfo(ResponseJson(r)) == Ok(r)
  {
    match r
    case ErrorResponse(cid, error) => ParseErrorJson(cid, error);
    case Success(cid, s, p) => ParseSuccessJson(cid, s, p);
    case ProofResponse(data, sig, bv, cid) => ParseProofJson(data, sig, bv, cid);
  }

  lemma ParseErrorJson(cid: string, error: string)
    ensures ParseFileUploadResponseInfo(ResponseJson(ErrorResponse(cid, error))) == Ok(ErrorResponse(cid, error))
  {
    var v := ResponseJson(ErrorResponse(cid, error));
    var t, c, e := ("type", JString("error")), ("cid", JString(cid)), ("error", JString(error));
    assert v.members == [t] + [c] + [e];
    assert StringField(v, "error") == Some(error) by {
      GetLast([t] + [c], "error", e.1);
    }
    assert StringField(v, "cid") == Some(cid) by {
      GetSkip([t] + [c], "error", e.1, "cid");
      GetLast([t], "cid", c.1);
    }
    assert StringField(v, "type") == Some("error") by {
      GetSkip([t] + [c], "error", e.1, "type");
      GetSkip([t], "cid", c.1, "type");
      GetLast([], "type", t.1);
    }
    ErrorVariant(v, cid, error);
  }

  lemma ParseSuccessJson(cid: string, s: string, p: string)
    ensures ParseFileUploadResponseInfo(ResponseJson(Success(cid, s, p))) == Ok(Success(cid, s, p))
  {
    var sig := JObject([("s", JString(s)), ("p", JString(p))]);
    TwoStrings("s", s, "p", p);
    var v := ResponseJson(Success(cid, s, p));
    var t, c := ("type", JString("success")), ("cid", JString(cid));
    assert v.members == [t] + [c] + [("signature", sig)];
    assert ObjectField(v, "signature") == Some(sig) by {
      GetLast([t] + [c], "signature", sig);
    }
    assert StringField(v, "cid") == Some(cid) by {
      GetSkip([t] + [c], "signature", sig, "cid");
      GetLast([t], "cid", c.1);
    }
    assert StringField(v, "type") == Some("success") by {
      GetSkip([t] + [c], "signature", sig, "type");
      GetSkip([t], "cid", c.1, "type");
      GetLast([], "type", t.1);
    }
    SuccessVariant(v, cid, s, p);
  }

  lemma ParseProofJson(data: string, s: string, bv: string, cid: string)
    ensures ParseFileUploadResponseInfo(ResponseJson(ProofResponse(data, s, bv, cid)))
            == Ok(ProofResponse(data, s, bv, cid))
  {
    var sig := JObject([("sig", JString(s)), ("bv", JString(bv))]);
    TwoStrings("sig", s, "bv", bv);
    var v := ResponseJson(ProofResponse(data, s, bv, cid));
    var t, d, g := ("type", JString("proof")), ("data", JString(data)), ("signature", sig);
    assert v.members == [t] + [d] + [g] + [("cid", JString(cid))];
    assert StringField(v, "cid") == Some(cid) by {
      GetLast([t] + [d] + [g], "cid", JString(cid));
    }
    assert ObjectField(v, "signature") == Some(sig) by {
      GetSkip([t] + [d] + [g], "cid", JString(cid), "signature");
      GetLast([t] + [d], "signature", sig);
    }
    assert StringField(v, "data") == Some(data) by {
      GetSkip([t] + [d] + [g], "cid", JString(cid), "data");
      GetSkip([t] + [d], "signature", sig, "data");
      GetLast([t], "data", d.1);
    }
    assert StringField(v, "type") == Some("proof") by {
      GetSkip([t] + [d] + [g], "cid", JString(cid), "type");
      GetSkip([t] + [d], "signature", sig, "type");
      GetSkip([t], "data", d.1, "type");
      GetLast([], "type", t.1);
    }
    ProofVariant(v, data, s, bv, cid);
  }

  /** An error response is returned exactly when the type is "error" and both
      `cid` and `error` are strings, and it carries just those two. */
  lemma ErrorVariant(v: Json, cid: string, error: string)
    ensures ParseFileUploadResponseInfo(v) == Ok(ErrorResponse(cid, error))
            <==> StringField(v, "type") == Some("error") && StringField(v, "cid") == Some(cid)
                 && StringField(v, "error") == Some(error)
  {
  }

  /** A success response needs a string `cid` and a `signature` object with
      string `s` and `p`. */
  lemma SuccessVariant(v: Json, cid: string, s: string, p: string)
    ensures ParseFileUploadResponseInfo(v) == Ok(Success(cid, s, p))
            <==> StringField(v, "type") == Some("success") && StringField(v, "cid") == Some(cid)
                 && ObjectField(v, "signature").Some?
                 && StringField(ObjectField(v, "signature").value, "s") == Some(s)
                 && StringField(ObjectField(v, "signature").value, "p") == Some(p)
  {
  }

  /** A proof response needs string `data` and `cid` and a `signature`
      object with string `sig` and `bv`. */
  lemma ProofVariant(v: Json, data: string, sig: string, bv: string, cid: string)
    ensures ParseFileUploadResponseInfo(v) == Ok(ProofResponse(data, sig, bv, cid))
            <==> StringField(v, "type") == Some("proof") && StringField(v, "data") == Some(data)
                 && StringField(v, "cid") == Some(cid) && ObjectField(v, "signature").Some?
                 && StringField(ObjectField(v, "signature").value, "sig") == Some(sig)
                 && StringField(ObjectField(v, "signature").value, "bv") == Some(bv)
  {
  }

  /** Anything that is not an object, and any object without a known string
      `type`, is rejected. */
  lemma RejectsUntyped(v: Json)
    requires !v.JObject? || StringField(v, "type") !in {Some("error"), Some("success"), Some("proof")}
    ensures ParseFileUploadResponseInfo(v) == Err(InvalidResponse)
  {
  }

  // ---------------------------------------------------------------------
  // The message handler

  /** A pubsub message: unsigned, or signed with a body that is JSON text
      (None when `JSON.parse` rejects it). */
  datatype PubsubMessage = Unsigned | Signed(body: Option<Json>)

  /** `ignoreUnsignedMessages(handler)`: a handler that drops unsigned
      messages and passes every other message to `handler`. */
  function IgnoreUnsignedMessages<S(!new)>(handler: (S, Option<Json>) -> S): (h: (S, PubsubMessage) -> S)
    ensures forall s :: h(s, Unsigned) == s
    ensures forall s, body :: h(s, Signed(body)) == handler(s, body)
  {
    (s: S, msg: PubsubMessage) => if msg.Unsigned? then s else handler(s, msg.body)
  }

  /** The proof the session resolves with: the `data` CID text, the
      serialized signature and the file's CID. */
  datatype AvailabilityProof = AvailabilityProof(data: string, signature: SignedProof, cid: string)

  datatype Status = Collecting | Resolved(proof: AvailabilityProof) | Rejected(reason: string)

  datatype SessionState = SessionState(errorCount: nat, status: Status, circuit: CircuitState)

  /** What the handler works with besides its state: the circuit's
      cryptography and message, the member keys, the requested CID, the
      decoding of a signature's `p` text (base64url, then `JSON.parse`) and
      the text of the CID the proof's `data` names. */
  datatype Env = Env(crypto: Crypto, message: BlsCircuits.Message, memberKeys: seq<string>, cid: string,
                     decodeP: string -> Option<Json>, proofData: string)

  /** `JSON.parse(...).pub` as far as `addAndVerify` is concerned: None when
      parsing throws, reading `pub` of null throws, or there is no string
      `pub` (no member key can equal it). */
  function PubOf(v: Option<Json>): Option<string> {
    if v.None? then None else StringField(v.value, "pub")
  }

  /** A success response for the requested CID: the signature is added if
      its signer is a member and it verifies, and once six distinct members
      have signed the circuit is serialized over the member keys and the
      session resolves. */
  function HandleSuccess(env: Env, st: SessionState, s: string, p: string): (r: SessionState)
    ensures r.errorCount == st.errorCount
    ensures r.status != st.status ==>
              r.status.Resolved? && |r.circuit.aggPubKeys| >= RequiredVerifiers &&
              SerializeState(env.crypto, r.circuit, env.memberKeys) == Ok(r.status.proof.signature)
  {
    match PubOf(env.decodeP(p))
    case None => st
    case Some(pub) =>
      var added := AddAndVerifyEffect(env.crypto, env.message, env.memberKeys, st.circuit, pub, s);
      var next := st.(circuit := added.0);
      if added.1 != Ok(true) || |added.0.aggPubKeys| < RequiredVerifiers then next
      else
        match SerializeState(env.crypto, added.0, env.memberKeys)
        case Err(_) => next
        case Ok(sig) => next.(status := Resolved(AvailabilityProof(env.proofData, sig, env.cid)))
  }

  /** A validated response: one about another CID or a proof is ignored, an
      error is counted (rejecting at six) and a success is collected. */
  function HandleResponse(env: Env, st: SessionState, resp: Response): SessionState {
    if resp.cid != env.cid then st
    else
      match resp
      case ErrorResponse(_, reason) =>
        var count := st.errorCount + 1;
        st.(errorCount := count, status := if count >= RequiredVerifiers then Rejected(reason) else st.status)
      case ProofResponse(_, _, _, _) => st
      case Success(_, s, p) => HandleSuccess(env, st, s, p)
  }

  /** The handler for a signed message; an exception inside it is caught and
      leaves the state as it was when it was thrown. */
  function HandleSigned(env: Env, st: SessionState, body: Option<Json>): SessionState {
    if body.None? then st
    else
      match ParseFileUploadResponseInfo(body.value)
      case Err(_) => st
      case Ok(resp) => HandleResponse(env, st, resp)
  }

  /** One delivered message. Once the session has resolved or rejected, the
      handler is unsubscribed and nothing changes. */
  function Step(env: Env, st: SessionState, msg: PubsubMessage): (r: SessionState)
    ensures !st.status.Collecting? || msg.Unsigned? ==> r == st
    ensures r.errorCount == st.errorCount || r.errorCount == st.errorCount + 1
    ensures r.status != st.status ==> st.status.Collecting?
  {
    if !st.status.Collecting? then st
    else IgnoreUnsignedMessages((s: SessionState, body: Option<Json>) => HandleSigned(env, s, body))(st, msg)
  }

  /** The 60-second timer: rejects a session that is still collecting. */
  function Timeout(st: SessionState): SessionState {
    if st.status.Collecting? then st.(status := Rejected(TimeoutReason)) else st
  }

  /** A session that is still collecting has seen fewer than six errors; a
      resolved one holds at least six distinct signers and the serialization
      of its own circuit over the member keys. */
  predicate Valid(env: Env, st: SessionState) {
    (st.status.Collecting? ==> st.errorCount < RequiredVerifiers) &&
    (st.status.Resolved? ==>
       |st.circuit.aggPubKeys| >= RequiredVerifiers &&
       st.status.proof.cid == env.cid &&
       SerializeState(env.crypto, st.circuit, env.memberKeys) == Ok(st.status.proof.signature))
  }

  function Initial(circuit: CircuitState): SessionState {
    SessionState(0, Collecting, circuit)
  }

  lemma StepValid(env: Env, st: SessionState, msg: PubsubMessage)
    requires Valid(env, st)
    ensures Valid(env, Step(env, st, msg))
  {
  }

  /** A finished session ignores everything. */
  lemma FinishedIgnores(env: Env, st: SessionState, msg: PubsubMessage)
    requires !st.status.Collecting?
    ensures Step(env, st, msg) == st && Timeout(st) == st
  {
  }

  /** A response about another CID changes nothing: neither the error count
      nor the circuit. */
  lemma OtherCidIgnored(env: Env, st: SessionState, r: Response)
    requires r.cid != env.cid
    ensures Step(env, st, Signed(Some(ResponseJson(r)))) == st
  {
    ParseResponseJson(r);
  }

  /** Proof responses are ignored. */
  lemma ProofIgnored(env: Env, st: SessionState, data: string, sig: string, bv: string, cid: string)
    ensures Step(env, st, Signed(Some(ResponseJson(ProofResponse(data, sig, bv, cid))))) == st
  {
    ParseResponseJson(ProofResponse(data, sig, bv, cid));
  }

  /** A success response whose signature `addAndVerify` turns down leaves
      the session as it was. */
  lemma RejectedSignatureIgnored(env: Env, st: SessionState, s: string, p: string, pub: string)
    requires st.status.Collecting? && PubOf(env.decodeP(p)) == Some(pub)
    requires AddAndVerifyEffect(env.crypto, env.message, env.memberKeys, st.circuit, pub, s).1 == Ok(false)
    ensures Step(env, st, Signed(Some(ResponseJson(Success(env.cid, s, p))))) == st
  {
    ParseResponseJson(Success(env.cid, s, p));
  }

  /** An error response for the CID counts one more error and rejects once
      the count reaches six; each message counts, whoever sent it. */
  lemma ErrorCounted(env: Env, st: SessionState, error: string)
    requires st.status.Collecting?
    ensures var next := Step(env, st, Signed(Some(ResponseJson(ErrorResponse(env.cid, error)))));
            next.errorCount == st.errorCount + 1 && next.circuit == st.circuit &&
            next.status == if st.errorCount + 1 >= RequiredVerifiers then Rejected(error) else Collecting
  {
    ParseResponseJson(ErrorResponse(env.cid, error));
  }

  /** A session resolves only when the circuit holds at least six signers,
      and resolves with the circuit's serialization over the member keys. */
  lemma ResolvesWithEnoughSigners(env: Env, st: SessionState, msg: PubsubMessage)
    requires st.status.Collecting?
    requires Step(env, st, msg).status.Resolved?
    ensures var next := Step(env, st, msg);
            |next.circuit.aggPubKeys| >= RequiredVerifiers && next.status.proof.cid == env.cid &&
            next.status.proof.data == env.proofData &&
            SerializeState(env.crypto, next.circuit, env.memberKeys) == Ok(next.status.proof.signature)
  {
  }

  /** A success response from a member whose signature `addAndVerify`
      accepts resolves the session as soon as the circuit holds six signers:
      the proof is the circuit serialized over the member keys. */
  lemma ResolvesOnSixthSigner(env: Env, st: SessionState, s: string, p: string, pub: string)
    requires st.status.Collecting? && PubOf(env.decodeP(p)) == Some(pub)
    requires AddAndVerifyEffect(env.crypto, env.message, env.memberKeys, st.circuit, pub, s).1 == Ok(true)
    requires |AddAndVerifyEffect(env.crypto, env.message, env.memberKeys, st.circuit, pub, s).0.aggPubKeys|
             >= RequiredVerifiers
    ensures var added := AddAndVerifyEffect(env.crypto, env.message, env.memberKeys, st.circuit, pub, s).0;
            SerializeState(env.crypto, added, env.memberKeys).Ok? &&
            Step(env, st, Signed(Some(ResponseJson(Success(env.cid, s, p)))))
            == st.(circuit := added,
                   status := Resolved(AvailabilityProof(env.proofData, SerializeState(env.crypto, added, env.memberKeys).value,
                                                        env.cid)))
  {
    ParseResponseJson(Success(env.cid, s, p));
  }

  /** An accepted signature that leaves the circuit below six signers is
      collected: the circuit takes the new signer and the session goes on. */
  lemma CollectsBelowSix(env: Env, st: SessionState, s: string, p: string, pub: string)
    requires st.status.Collecting? && PubOf(env.decodeP(p)) == Some(pub)
    requires AddAndVerifyEffect(env.crypto, env.message, env.memberKeys, st.circuit, pub, s).1 == Ok(true)
    requires |AddAndVerifyEffect(env.crypto, env.message, env.memberKeys, st.circuit, pub, s).0.aggPubKeys|
             < RequiredVerifiers
    ensures Step(env, st, Signed(Some(ResponseJson(Success(env.cid, s, p)))))
            == st.(circuit := AddAndVerifyEffect(env.crypto, env.message, env.memberKeys, st.circuit, pub, s).0)
  {
    ParseResponseJson(Success(env.cid, s, p));
  }

  function Run(env: Env, st: SessionState, msgs: seq<PubsubMessage>): SessionState
    decreases |msgs|
  {
    if msgs == [] then st else Run(env, Step(env, st, msgs[0]), msgs[1..])
  }

  function ErrorMessages(env: Env, errors: seq<string>): (msgs: seq<PubsubMessage>)
    ensures |msgs| == |errors|
  {
    if errors == [] then []
    else [Signed(Some(ResponseJson(ErrorResponse(env.cid, errors[0]))))] + ErrorMessages(env, errors[1..])
  }

  /** Error responses below the threshold are only counted. */
  lemma {:induction false} ErrorsBelowThreshold(env: Env, st: SessionState, errors: seq<string>)
    requires st.status.Collecting? && st.errorCount + |errors| < RequiredVerifiers
    ensures Run(env, st, ErrorMessages(env, errors)) == st.(errorCount := st.errorCount + |errors|)
    decreases |errors|
  {
    if errors != [] {
      ErrorCounted(env, st, errors[0]);
      var next := Step(env, st, ErrorMessages(env, errors)[0]);
      assert ErrorMessages(env, errors)[1..] == ErrorMessages(env, errors[1..]);
      ErrorsBelowThreshold(env, next, errors[1..]);
    }
  }

  /** Six error responses reject a fresh session, with the reason of the
      sixth; five leave it collecting. */
  lemma SixErrorsReject(env: Env, circuit: CircuitState, errors: seq<string>)
    requires |errors| == RequiredVerifiers
    ensures Run(env, Initial(circuit), ErrorMessages(env, errors[..5])).status == Collecting
    ensures Run(env, Initial(circuit), ErrorMessages(env, errors)).status == Rejected(errors[5])
  {
    ErrorsBelowThreshold(env, Initial(circuit), errors[..5]);
    var five := Run(env, Initial(circuit), ErrorMessages(env, errors[..5]));
    assert ErrorMessages(env, errors) == ErrorMessages(env, errors[..5]) + ErrorMessages(env, errors[5..])
      by { ErrorMessagesAppend(env, errors[..5], errors[5..]); assert errors[..5] + errors[5..] == errors; }
    RunAppend(env, Initial(circuit), ErrorMessages(env, errors[..5]), ErrorMessages(env, errors[5..]));
    ErrorCounted(env, five, errors[5]);
    assert ErrorMessages(env, errors[5..]) == [Signed(Some(ResponseJson(ErrorResponse(env.cid, errors[5]))))];
  }

  lemma {:induction false} ErrorMessagesAppend(env: Env, a: seq<string>, b: seq<string>)
    ensures ErrorMessages(env, a + b) == ErrorMessages(env, a) + ErrorMessages(env, b)
  {
    if a != [] {
      assert (a + b)[0] == a[0] && (a + b)[1..] == a[1..] + b;
      ErrorMessagesAppend(env, a[1..], b);
    } else {
      assert a + b == b;
    }
  }

  lemma {:induction false} RunAppend(env: Env, st: SessionState, a: seq<PubsubMessage>, b: seq<PubsubMessage>)
    ensures Run(env, st, a + b) == Run(env, Run(env, st, a), b)
    decreases |a|
  {
    if a != [] {
      assert (a + b)[0] == a[0] && (a + b)[1..] == a[1..] + b;
      RunAppend(env, Step(env, st, a[0]), a[1..], b);
    } else {
      assert a + b == b;
    }
  }

  // ---------------------------------------------------------------------
  // The session object

  class Session {
    const cid: string
    const circuit: PartialBlsCircuit
    const decodeP: string -> Option<Json>
    const proofData: string
    var errorCount: nat
    var status: Status

    function Environment(): Env
      reads circuit, circuit.circuit, circuit.members
    {
      Env(circuit.circuit.crypto, circuit.circuit.msg, circuit.CircuitMap(), cid, decodeP, proofData)
    }

    function State(): SessionState
      reads this, circuit, circuit.circuit
    {
      SessionState(errorCount, status, circuit.circuit.State())
    }

    constructor(cid: string, circuit: PartialBlsCircuit, decodeP: string -> Option<Json>, proofData: string)
      ensures this.cid == cid && this.circuit == circuit && this.decodeP == decodeP && this.proofData == proofData
      ensures errorCount == 0 && status == Collecting
      ensures Valid(Environment(), State())
    {
      this.cid := cid;
      this.circuit := circuit;
      this.decodeP := decodeP;
      this.proofData := proofData;
      errorCount := 0;
      status := Collecting;
    }

    /** The handling of a success response for the requested CID. */
    method Collect(s: string, p: string)
      modifies this, circuit.circuit
      ensures State() == HandleSuccess(Environment(), old(State()), s, p)
    {
      var pub := PubOf(decodeP(p));
      if pub.Some? {
        var valid := circuit.AddAndVerify(pub.value, s);
        if valid == Ok(true) && |circuit.circuit.aggPubKeys| >= RequiredVerifiers {
          var sig := circuit.circuit.Serialize(circuit.CircuitMap());
          if sig.Ok? {
            status := Resolved(AvailabilityProof(proofData, sig.value, cid));
          }
        }
      }
    }

    /** The subscribed handler, `ignoreUnsignedMessages(async (msg) => ...)`;
        it keeps the session invariant. */
    method Handle(msg: PubsubMessage)
      requires Valid(Environment(), State())
      modifies this, circuit.circuit
      ensures State() == Step(Environment(), old(State()), msg)
      ensures Valid(Environment(), State())
    {
      ghost var env := Environment();
      ghost var before := State();
      if status.Collecting? && msg.Signed? && msg.body.Some? {
        var parsed := ParseFileUploadResponseInfo(msg.body.value);
        if parsed.Ok? && parsed.value.cid == cid {
          match parsed.value {
            case ErrorResponse(_, reason) =>
              errorCount := errorCount + 1;
              if errorCount >= RequiredVerifiers {
                status := Rejected(reason);
              }
            case ProofResponse(_, _, _, _) =>
            case Success(_, s, p) =>
              Collect(s, p);
          }
        }
      }
      StepValid(env, before, msg);
    }

    /** The timer callback. */
    method OnTimeout()
      modifies this
      ensures State() == Timeout(old(State()))
    {
      if status.Collecting? {
        status := Rejected(TimeoutReason);
      }
    }
  }
}
