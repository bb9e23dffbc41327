/** BLS `did:key` identities: the identifier of a public key and the inverse
    that reads the key back out of an identifier (`BlsDID.id` and
    `BlsDID.fromString` of scripts/bls-did.ts). Public keys are their byte
    encodings; whether bytes form a curve point is a predicate the caller
    supplies. */
module BlsIdentity {
  import opened Wrappers
  import opened Arrays
  import Base58

  /** The two bytes put in front of the key before encoding. */
  const Multicodec: seq<uint8> := [0xEA, 0x01]

  /** Everything in front of the base58btc text: the method and the
      multibase letter 'z'. */
  const KeyPrefix: string := "did:key:z"

  /** The bytes that are base58btc-encoded into the identifier. */
  function KeyBytes(pk: seq<uint8>): (bytes: seq<uint8>)
    ensures |bytes| == |pk| + 2
    ensures bytes[..2] == Multicodec && bytes[2..] == pk
  {
    Multicodec + pk
  }

  /** `BlsDID.id`. */
  function Id(pk: seq<uint8>): (r: string)
    ensures |r| >= |KeyPrefix| && r[..|KeyPrefix|] == KeyPrefix
    ensures Base58.Decode(r[|KeyPrefix|..]) == Some(KeyBytes(pk))
  {
    Base58.DecodeEncode(KeyBytes(pk));
    KeyPrefix + Base58.Encode(KeyBytes(pk))
  }

  // ---------------------------------------------------------------------
  // The DID syntax (did-resolver's `parse`)

  datatype Did = Did(methodName: string, id: string)

  predicate IsMethodChar(c: char) {
    'a' <= c <= 'z' || '0' <= c <= '9'
  }

  /** Characters that may appear unescaped in a method-specific id
      (letters, digits, '.', '_', '-'). */
  predicate IsIdChar(c: char) {
    'a' <= c <= 'z' || 'A' <= c <= 'Z' || '0' <= c <= '9' || c == '.' || c == '_' || c == '-'
  }

  /** Characters of a DID parameter name or value. */
  predicate IsParamChar(c: char) {
    IsIdChar(c) || c == ':' || c == '%'
  }

  /** Length of the longest prefix of method characters. */
  function MethodRun(s: string): (n: nat)
    ensures n <= |s|
    ensures forall k :: 0 <= k < n ==> IsMethodChar(s[k])
    ensures n < |s| ==> !IsMethodChar(s[n])
  {
    if s != [] && IsMethodChar(s[0]) then 1 + MethodRun(s[1..]) else 0
  }

  /** Length of the longest prefix made of id characters, colons and
      percent-escapes `%XX`. */
  function IdRun(s: string): (n: nat)
    ensures n <= |s|
  {
    if s == [] then 0
    else if IsIdChar(s[0]) || s[0] == ':' then 1 + IdRun(s[1..])
    else if s[0] == '%' && |s| >= 3 && IsHexDigit(s[1]) && IsHexDigit(s[2]) then 3 + IdRun(s[3..])
    else 0
  }

  /** Length of the longest prefix of parameter characters. */
  function ParamRun(s: string): (n: nat)
    ensures n <= |s|
    ensures forall k :: 0 <= k < n ==> IsParamChar(s[k])
    ensures n < |s| ==> !IsParamChar(s[n])
  {
    if s != [] && IsParamChar(s[0]) then 1 + ParamRun(s[1..]) else 0
  }

  /** Length of a run of parameters `;name=value`; None when a ';' does not
      start a well-formed parameter. */
  function ParamsRun(s: string): (r: Option<nat>)
    ensures r.Some? ==> r.value <= |s|
    ensures r.Some? && r.value < |s| ==> s[r.value] != ';'
  {
    if s == [] || s[0] != ';' then Some(0)
    else
      var name := ParamRun(s[1..]);
      if name == 0 || 1 + name == |s| || s[1 + name] != '=' then None
      else
        var value := ParamRun(s[2 + name..]);
        match ParamsRun(s[2 + name + value..])
        case None => None
        case Some(more) => Some(2 + name + value + more)
  }

  /** What may follow the parameters: nothing, or a path, query or fragment. */
  predicate IsTail(s: string) {
    s == [] || s[0] == '/' || s[0] == '?' || s[0] == '#'
  }

  /** did-resolver's `parse`: `did:<method>:<id>` followed by optional
      parameters, path, query and fragment; None where the library returns
      null. */
  function ParseDid(did: string): (r: Option<Did>)
    ensures r.Some? ==> |did| >= 4 + |r.value.methodName| + 1 + |r.value.id|
    ensures r.Some? ==> did[..4 + |r.value.methodName| + 1 + |r.value.id|]
                        == "did:" + r.value.methodName + ":" + r.value.id
    ensures r.Some? ==> r.value.methodName != [] && r.value.id != [] && r.value.id[|r.value.id| - 1] != ':'
  {
    if |did| < 4 || did[..4] != "did:" then None
    else
      var rest := did[4..];
      var m := MethodRun(rest);
      if m == 0 || m == |rest| || rest[m] != ':' then None
      else
        var tail := rest[m + 1..];
        var n := IdRun(tail);
        if n == 0 || tail[n - 1] == ':' then None
        else
          match ParamsRun(tail[n..])
          case None => None
          case Some(p) =>
            if IsTail(tail[n + p..]) then
              DidPrefix(did, m, n);
              Some(Did(rest[..m], tail[..n]))
            else None
  }

  /** The text in front of the parameters of a parsed DID. */
  lemma DidPrefix(did: string, m: nat, n: nat)
    requires |did| >= 4 + m + 1 + n && did[..4] == "did:" && did[4 + m] == ':'
    ensures var d := Did(did[4..][..m], did[4..][m + 1..][..n]);
            |did| >= 4 + |d.methodName| + 1 + |d.id| &&
            did[..4 + |d.methodName| + 1 + |d.id|] == "did:" + d.methodName + ":" + d.id
  {
    var rest := did[4..];
    assert did[..4 + m + 1 + n] == did[..4] + rest[..m] + [did[4 + m]] + rest[m + 1..][..n];
  }

  // ---------------------------------------------------------------------
  // fromString

  datatype DidError = InvalidDid | InvalidBase58 | InvalidKey

  /** `Uint8Array.slice(2)`: drops two bytes, or everything when shorter. */
  function DropTwo(bytes: seq<uint8>): (r: seq<uint8>)
    ensures |bytes| >= 2 ==> r == bytes[2..]
    ensures |bytes| < 2 ==> r == []
  {
    if |bytes| < 2 then [] else bytes[2..]
  }

  /** `BlsDID.fromString`: parse the DID, drop the first character of its id
      (the multibase letter, not checked), base58btc-decode the rest, drop
      the first two bytes (the multicodec, not checked) and accept the rest
      if `isKey` holds for it (`PublicKey.fromBytes`). Each of the steps that
      throws in the library is an error here. */
  function FromString(did: string, isKey: seq<uint8> -> bool): (r: Result<seq<uint8>, DidError>)
    ensures r.Ok? ==> isKey(r.value)
    ensures r == Err(InvalidDid) <==> ParseDid(did).None?
  {
    match ParseDid(did)
    case None => Err(InvalidDid)
    case Some(d) =>
      match Base58.Decode(d.id[1..])
      case None => Err(InvalidBase58)
      case Some(bytes) =>
        var pk := DropTwo(bytes);
        if isKey(pk) then Ok(pk) else Err(InvalidKey)
  }

  // ---------------------------------------------------------------------
  // Lemmas

  lemma {:induction false} MethodRunOf(m: string, t: string)
    requires forall k :: 0 <= k < |m| ==> IsMethodChar(m[k])
    requires t != [] && !IsMethodChar(t[0])
    ensures MethodRun(m + t) == |m|
  {
    if m != [] {
      assert (m + t)[1..] == m[1..] + t;
      MethodRunOf(m[1..], t);
    }
  }

  lemma {:induction false} IdRunOf(s: string)
    requires forall k :: 0 <= k < |s| ==> IsIdChar(s[k])
    ensures IdRun(s) == |s|
  {
    if s != [] {
      IdRunOf(s[1..]);
    }
  }

  /** Base58 text is made of id characters. */
  lemma Base58TextIsId(s: string)
    requires forall k :: 0 <= k < |s| ==> Base58.DigitValue(s[k]).Some?
    ensures forall k :: 0 <= k < |s| ==> IsIdChar(s[k])
  {
  }

  /** A `did:<method>:<id>` with a plain id and nothing after it parses to
      that method and id. */
  lemma ParsePlainDid(methodName: string, id: string)
    requires methodName != [] && forall k :: 0 <= k < |methodName| ==> IsMethodChar(methodName[k])
    requires id != [] && forall k :: 0 <= k < |id| ==> IsIdChar(id[k])
    ensures ParseDid("did:" + methodName + ":" + id) == Some(Did(methodName, id))
  {
    var did := "did:" + methodName + ":" + id;
    assert did[..4] == "did:";
    var rest := did[4..];
    assert rest == methodName + (":" + id);
    MethodRunOf(methodName, ":" + id);
    assert rest[|methodName|] == ':';
    var tail := rest[|methodName| + 1..];
    assert tail == id;
    IdRunOf(id);
    assert tail[|id| - 1] != ':';
    assert tail[|id|..] == [];
    assert ParamsRun([]) == Some(0);
    assert rest[..|methodName|] == methodName && tail[..|id|] == id;
  }

  /** The identifier of a key parses as method "key" with id 'z' followed by
      the base58btc text of the key bytes. */
  lemma ParseId(pk: seq<uint8>)
    ensures ParseDid(Id(pk)) == Some(Did("key", "z" + Base58.Encode(KeyBytes(pk))))
  {
    var text := Base58.Encode(KeyBytes(pk));
    Base58.EncodeInAlphabet(KeyBytes(pk));
    Base58TextIsId(text);
    var id := "z" + text;
    assert forall k :: 1 <= k < |id| ==> id[k] == text[k - 1];
    assert Id(pk) == "did:" + "key" + ":" + id;
    ParsePlainDid("key", id);
  }

  /** Round trip: `fromString(new BlsDID({pubKey}).id)` gives back the key's
      bytes, provided the bytes are a valid key at all. */
  lemma FromStringId(pk: seq<uint8>, isKey: seq<uint8> -> bool)
    ensures FromString(Id(pk), isKey) == if isKey(pk) then Ok(pk) else Err(InvalidKey)
  {
    ParseId(pk);
    var text := Base58.Encode(KeyBytes(pk));
    assert ("z" + text)[1..] == text;
    Base58.DecodeEncode(KeyBytes(pk));
  }

  /** Different keys have different identifiers. */
  lemma IdInjective(a: seq<uint8>, b: seq<uint8>)
    requires Id(a) == Id(b)
    ensures a == b
  {
    var ea, eb := Base58.Encode(KeyBytes(a)), Base58.Encode(KeyBytes(b));
    assert ea == Id(a)[|KeyPrefix|..] && eb == Id(b)[|KeyPrefix|..];
    Base58.EncodeInjective(KeyBytes(a), KeyBytes(b));
    assert a == KeyBytes(a)[2..];
  }

  /** fromString does not check the multibase letter or the multicodec:
      any prefix character and any two leading bytes are accepted. */
  lemma FromStringIgnoresPrefixes(letter: char, codec: seq<uint8>, pk: seq<uint8>, isKey: seq<uint8> -> bool)
    requires IsIdChar(letter) && |codec| == 2 && isKey(pk)
    ensures FromString("did:key:" + [letter] + Base58.Encode(codec + pk), isKey) == Ok(pk)
  {
    var text := Base58.Encode(codec + pk);
    Base58.EncodeInAlphabet(codec + pk);
    Base58TextIsId(text);
    var id := [letter] + text;
    assert forall k :: 1 <= k < |id| ==> id[k] == text[k - 1];
    assert "did:key:" + [letter] + text == "did:" + "key" + ":" + id;
    ParsePlainDid("key", id);
    assert id[1..] == text;
    Base58.DecodeEncode(codec + pk);
    assert (codec + pk)[2..] == pk;
  }
}
