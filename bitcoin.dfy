/** Bitcoin transaction and header byte parsing of the contract runtime
    (assembly/bitcoin.ts): VarInt parsing, walking the input vector, header field
    slicing, the header-work check, the header-bucket key and the transaction-id
    preimage buffer. Byte arrays the source only reads are sequences here; the
    operations that write into arrays keep them. */
module Bitcoin {
  import opened Wrappers
  import opened Arrays

  /** What the parsing functions throw or return as an error. */
  datatype Error =
    | IndexOutOfRange   // reading b[0] of an empty array: the runtime's bounds check
    | VarIntOverrun     // RangeError 'Read overrun during VarInt parsing'
    | ReadOverrun       // Error 'Read overrun'
    | VinReadOverrun    // the returned error 'Vin read overrun'

  // ------------------------------------------------------------------ VarInt

  /** `determineVarIntDataLength`: how many data bytes follow a VarInt flag. */
  function VarIntDataLength(flag: nat): (r: nat)
    ensures r == 8 <==> flag == 0xff
    ensures r == 4 <==> flag == 0xfe
    ensures r == 2 <==> flag == 0xfd
    ensures r == 0 <==> flag < 0xfd || flag > 0xff
  {
    if flag == 0xff then 8
    else if flag == 0xfe then 4
    else if flag == 0xfd then 2
    else 0
  }

  /** The data length and the number a VarInt denotes. */
  datatype VarInt = VarInt(dataLength: nat, number: nat)

  /** `parseVarInt`. A flag below 0xfd is the number itself; otherwise the data
      bytes that follow are read with `bytesToUint`, i.e. BIG-endian. */
  function ParseVarInt(b: seq<uint8>): (r: Result<VarInt, Error>)
    ensures b == [] <==> r == Err(IndexOutOfRange)
    ensures r == Err(VarIntOverrun) <==> b != [] && |b| < 1 + VarIntDataLength(b[0])
    ensures r.Ok? ==> r.value.dataLength == VarIntDataLength(b[0]) && 1 + r.value.dataLength <= |b|
    ensures r.Ok? && r.value.dataLength == 0 ==> r.value.number == b[0] < 0xfd
    ensures r.Ok? && r.value.dataLength > 0 ==> r.value.number < Pow256(r.value.dataLength)
  {
    if b == [] then Err(IndexOutOfRange)
    else
      var dataLength := VarIntDataLength(b[0]);
      if dataLength == 0 then Ok(VarInt(dataLength, b[0]))
      else if |b| < 1 + dataLength then Err(VarIntOverrun)
      else
        BigEndianBound(b[1..1 + dataLength]);
        Ok(VarInt(dataLength, BigEndian(b[1..1 + dataLength])))
  }

  const MaxVarInt: nat := 0x1_0000_0000_0000_0000

  lemma Pow256Values()
    ensures Pow256(2) == 0x1_0000
    ensures Pow256(4) == 0x1_0000_0000
    ensures Pow256(8) == MaxVarInt
  {
    calc {
      Pow256(8);
      256 * Pow256(7);
      256 * (256 * Pow256(6));
      256 * (256 * (256 * Pow256(5)));
      256 * (256 * (256 * (256 * Pow256(4))));
    }
    calc {
      Pow256(4);
      256 * Pow256(3);
      256 * (256 * Pow256(2));
      256 * (256 * (256 * Pow256(1)));
    }
  }

  /** The shortest VarInt that ParseVarInt reads back as `n`: the number itself
      below 0xfd, otherwise a flag and 2, 4 or 8 big-endian data bytes. */
  function VarIntBytes(n: nat): (b: seq<uint8>)
    requires n < MaxVarInt
    ensures 1 <= |b| <= 9
  {
    if n < 0xfd then [n]
    else if n < 0x1_0000 then [0xfd] + ToBigEndian(n, 2)
    else if n < 0x1_0000_0000 then [0xfe] + ToBigEndian(n, 4)
    else [0xff] + ToBigEndian(n, 8)
  }

  /** Round trip: parsing an encoded VarInt, whatever follows it, gives back the
      number and consumes exactly its bytes. */
  lemma VarIntRoundTrip(n: nat, rest: seq<uint8>)
    requires n < MaxVarInt
    ensures ParseVarInt(VarIntBytes(n) + rest) == Ok(VarInt(|VarIntBytes(n)| - 1, n))
  {
    Pow256Values();
    if n < 0xfd {
      assert (VarIntBytes(n) + rest)[0] == n as uint8;
    } else if n < 0x1_0000 {
      WideVarInt(n, 0xfd, 2, rest);
    } else if n < 0x1_0000_0000 {
      WideVarInt(n, 0xfe, 4, rest);
    } else {
      WideVarInt(n, 0xff, 8, rest);
    }
  }

  /** A flag byte followed by the number in `width` big-endian bytes. */
  lemma WideVarInt(n: nat, flag: uint8, width: nat, rest: seq<uint8>)
    requires VarIntDataLength(flag) == width > 0 && n < Pow256(width)
    ensures ParseVarInt([flag] + ToBigEndian(n, width) + rest) == Ok(VarInt(width, n))
  {
    var b := [flag] + ToBigEndian(n, width) + rest;
    assert b[0] == flag;
    assert b[1..1 + width] == ToBigEndian(n, width);
    BigEndianOfToBigEndian(n, width);
  }

  // ------------------------------------------------------------------ slices

  /** `Uint8Array.prototype.slice(start, end)` for non-negative bounds: both are
      clamped to the length, and an end before the start gives an empty slice. */
  function Slice(s: seq<uint8>, start: nat, end: nat): (r: seq<uint8>)
    ensures |r| <= |s|
    ensures start <= end <= |s| ==> r == s[start..end]
    ensures |s| <= start ==> r == []
  {
    var from := if start < |s| then start else |s|;
    var to := if end < from then from else if end < |s| then end else |s|;
    s[from..to]
  }

  // ------------------------------------------------------------------ inputs

  /** `extractScriptSigLen`: the VarInt at byte 36 of an input (after the
      36-byte outpoint). Its result carries the data length and the script length. */
  function ExtractScriptSigLen(input: seq<uint8>): (r: Result<VarInt, Error>)
    ensures |input| < 37 ==> r == Err(ReadOverrun)
    ensures |input| >= 37 ==> r == ParseVarInt(input[36..])
    ensures r.Ok? ==> 37 + r.value.dataLength <= |input|
  {
    if |input| < 37 then Err(ReadOverrun) else ParseVarInt(input[36..])
  }

  /** `determineInputLength`: outpoint (36) + flag byte (1) + VarInt data +
      script + sequence (4). */
  function DetermineInputLength(input: seq<uint8>): (r: Result<nat, Error>)
    ensures r.Err? <==> ExtractScriptSigLen(input).Err?
    ensures r.Err? ==> r.error == ExtractScriptSigLen(input).error
    ensures r.Ok? ==> var v := ExtractScriptSigLen(input).value;
                      r.value == 41 + v.dataLength + v.number && 41 + v.dataLength <= r.value
  {
    var v :- ExtractScriptSigLen(input);
    Ok(41 + v.dataLength + v.number)
  }

  /** The offset reached from `offset` after stepping over `count` inputs of
      `vin`, each measured by `measure` on the rest of the vin. It is stated for
      any measuring function so that the layout lemmas below need not look
      inside `determineInputLength`. */
  function Walk(measure: seq<uint8> -> Result<nat, Error>, vin: seq<uint8>, offset: nat, count: nat): Result<nat, Error>
    decreases count
  {
    if count == 0 then Ok(offset)
    else
      var len :- measure(Slice(vin, offset, |vin|));
      Walk(measure, vin, offset + len, count - 1)
  }

  /** The offset reached from `offset` after walking over `count` inputs of `vin`. */
  function SkipInputs(vin: seq<uint8>, offset: nat, count: nat): Result<nat, Error> {
    Walk(DetermineInputLength, vin, offset, count)
  }

  /** What `extractInputAtIndex` gives for a vin and an index: the error when the
      index is not below the input count, otherwise the bytes of that input,
      found by walking the inputs before it. */
  function InputAt(vin: seq<uint8>, index: int): (r: Result<seq<uint8>, Error>)
    ensures ParseVarInt(vin).Err? ==> r == Err(ParseVarInt(vin).error)
    ensures ParseVarInt(vin).Ok? && index >= ParseVarInt(vin).value.number ==> r == Err(VinReadOverrun)
    ensures ParseVarInt(vin).Ok? && index < 0 ==> r == Ok([])
    ensures r.Ok? ==> |r.value| <= |vin|
  {
    var count :- ParseVarInt(vin);
    if index >= count.number then Err(VinReadOverrun)
    else if index < 0 then Ok([])
    else
      var at :- SkipThenMeasure(vin, 1 + count.dataLength, index);
      Ok(Slice(vin, at.0, at.0 + at.1))
  }

  /** The offset of input `index` when the walk starts at `start`, and its length. */
  function SkipThenMeasure(vin: seq<uint8>, start: nat, index: nat): Result<(nat, nat), Error> {
    var offset :- SkipInputs(vin, start, index);
    var len :- DetermineInputLength(Slice(vin, offset, |vin|));
    Ok((offset, len))
  }

  /** One step of the walk: measure the input at `offset`, then go on after it. */
  lemma SkipOne(vin: seq<uint8>, offset: nat, count: nat, len: nat)
    requires count > 0
    requires DetermineInputLength(Slice(vin, offset, |vin|)) == Ok(len)
    ensures SkipInputs(vin, offset, count) == SkipInputs(vin, offset + len, count - 1)
  {
  }

  /** A walk that cannot measure the input at `offset` fails with that error. */
  lemma SkipStuck(vin: seq<uint8>, offset: nat, count: nat, e: Error)
    requires count > 0
    requires DetermineInputLength(Slice(vin, offset, |vin|)) == Err(e)
    ensures SkipInputs(vin, offset, count) == Err(e)
  {
  }

  /** `extractInputAtIndex`: the loop measures every input up to `index`,
      advancing the offset past all but the last. */
  method ExtractInputAtIndex(vin: seq<uint8>, index: int) returns (r: Result<seq<uint8>, Error>)
    ensures r == InputAt(vin, index)
  {
    var count := ParseVarInt(vin);
    if count.Err? {
      return Err(count.error);
    }
    if index >= count.value.number {
      return Err(VinReadOverrun);
    }
    var offset: nat := 1 + count.value.dataLength;
    if index < 0 {
      // the loop does not run: the slice is taken with length 0
      return Ok(Slice(vin, offset, offset));
    }
    var at := MeasureInputAt(vin, offset, index);
    if at.Err? {
      return Err(at.error);
    }
    r := Ok(Slice(vin, at.value.0, at.value.0 + at.value.1));
  }

  /** The loop of `extractInputAtIndex`: every input up to `index` is measured,
      and the offset is advanced past all but the last. The result is the offset
      of input `index` and its length. */
  method MeasureInputAt(vin: seq<uint8>, start: nat, index: nat) returns (r: Result<(nat, nat), Error>)
    ensures r.Err? ==> SkipThenMeasure(vin, start, index).Err? && r.error == SkipThenMeasure(vin, start, index).error
    ensures r.Ok? ==> SkipThenMeasure(vin, start, index) == Ok(r.value)
  {
    var offset: nat := start;
    var len: nat := 0;
    ghost var walk := SkipInputs(vin, start, index);
    var i: nat := 0;
    while i <= index
      invariant i <= index + 1
      invariant i <= index ==> walk == SkipInputs(vin, offset, index - i)
      invariant i == index + 1 ==> walk == Ok(offset) && DetermineInputLength(Slice(vin, offset, |vin|)) == Ok(len)
      decreases index + 1 - i
    {
      var measured := DetermineInputLength(Slice(vin, offset, |vin|));
      if measured.Err? {
        if i < index {
          SkipStuck(vin, offset, index - i, measured.error);
        }
        return Err(measured.error);
      }
      len := measured.value;
      if i != index {
        ghost var left := index - i;
        SkipOne(vin, offset, left, len);
        offset := offset + len;
        assert walk == SkipInputs(vin, offset, left - 1);
        assert left - 1 == index - (i + 1);
      }
      i := i + 1;
    }
    r := Ok((offset, len));
  }

  /** A transaction input: 36-byte outpoint, script, 4-byte sequence number. */
  datatype TxIn = TxIn(outpoint: seq<uint8>, scriptSig: seq<uint8>, sequence: seq<uint8>)

  predicate WellFormedInput(tx: TxIn) {
    |tx.outpoint| == 36 && |tx.sequence| == 4 && |tx.scriptSig| < MaxVarInt
  }

  /** An input as it is laid out in a vin, its script length written as a VarInt. */
  function InputBytes(tx: TxIn): seq<uint8>
    requires WellFormedInput(tx)
  {
    tx.outpoint + VarIntBytes(|tx.scriptSig|) + tx.scriptSig + tx.sequence
  }

  predicate AllWellFormed(ins: seq<TxIn>) {
    forall k :: 0 <= k < |ins| ==> WellFormedInput(ins[k])
  }

  /** The laid-out inputs of a list, one byte string each. */
  function InputParts(ins: seq<TxIn>): (parts: seq<seq<uint8>>)
    requires AllWellFormed(ins)
    ensures |parts| == |ins|
    ensures forall k :: 0 <= k < |ins| ==> parts[k] == InputBytes(ins[k])
  {
    seq(|ins|, k requires 0 <= k < |ins| => InputBytes(ins[k]))
  }

  /** Byte strings back to back. */
  function Flatten(parts: seq<seq<uint8>>): seq<uint8> {
    if parts == [] then [] else parts[0] + Flatten(parts[1..])
  }

  /** A vin: the input count as a VarInt, then the inputs back to back. */
  function VinBytes(ins: seq<TxIn>): seq<uint8>
    requires AllWellFormed(ins) && |ins| < MaxVarInt
  {
    VarIntBytes(|ins|) + Flatten(InputParts(ins))
  }

  /** The length `determineInputLength` computes for a laid-out input is exactly
      the number of bytes it occupies, whatever follows it. */
  lemma InputLengthOfInputBytes(tx: TxIn, rest: seq<uint8>)
    requires WellFormedInput(tx)
    ensures DetermineInputLength(InputBytes(tx) + rest) == Ok(|InputBytes(tx)|)
  {
    var n := |tx.scriptSig|;
    var b := InputBytes(tx) + rest;
    assert b[36..] == VarIntBytes(n) + (tx.scriptSig + tx.sequence + rest);
    VarIntRoundTrip(n, tx.scriptSig + tx.sequence + rest);
  }

  /** A byte string that `measure` measures as exactly its own length,
      whatever follows it. */
  ghost predicate SelfDelimiting(measure: seq<uint8> -> Result<nat, Error>, part: seq<uint8>) {
    forall rest :: measure(part + rest) == Ok(|part|)
  }

  lemma InputBytesSelfDelimiting(tx: TxIn)
    requires WellFormedInput(tx)
    ensures SelfDelimiting(DetermineInputLength, InputBytes(tx))
  {
    forall rest
      ensures DetermineInputLength(InputBytes(tx) + rest) == Ok(|InputBytes(tx)|)
    {
      InputLengthOfInputBytes(tx, rest);
    }
  }

  lemma {:induction false} FlattenSplit(parts: seq<seq<uint8>>, k: nat)
    requires k <= |parts|
    ensures Flatten(parts) == Flatten(parts[..k]) + Flatten(parts[k..])
  {
    if k > 0 {
      FlattenSplit(parts[1..], k - 1);
      assert parts[1..][..k - 1] == parts[..k][1..];
      assert parts[1..][k - 1..] == parts[k..];
    } else {
      assert parts[..0] == [];
      assert parts[0..] == parts;
    }
  }

  lemma SliceAfter(a: seq<uint8>, b: seq<uint8>)
    ensures Slice(a + b, |a|, |a + b|) == b
  {
    assert (a + b)[|a|..] == b;
  }

  lemma SliceBetween(a: seq<uint8>, b: seq<uint8>, c: seq<uint8>)
    ensures Slice(a + (b + c), |a|, |a| + |b|) == b
  {
    assert (a + (b + c))[|a|..|a| + |b|] == b;
  }

  lemma SliceOfSuffix(vin: seq<uint8>, pre: seq<uint8>, suffix: seq<uint8>)
    requires vin == pre + suffix
    ensures Slice(vin, |pre|, |vin|) == suffix
  {
    assert vin[|pre|..] == suffix;
  }

  /** The walk steps over a self-delimiting part in one go. */
  lemma WalkOverPart(measure: seq<uint8> -> Result<nat, Error>, vin: seq<uint8>, offset: nat,
                     part: seq<uint8>, more: seq<uint8>, n: nat)
    requires SelfDelimiting(measure, part) && n > 0 && Slice(vin, offset, |vin|) == part + more
    ensures Walk(measure, vin, offset, n) == Walk(measure, vin, offset + |part|, n - 1)
  {
    assert measure(part + more) == Ok(|part|);
  }

  /** Walking over self-delimiting parts, whatever surrounds them, advances the
      offset by exactly their total size. */
  lemma {:induction false} WalkParts(measure: seq<uint8> -> Result<nat, Error>, vin: seq<uint8>,
                                     pre: seq<uint8>, parts: seq<seq<uint8>>, post: seq<uint8>)
    requires forall k :: 0 <= k < |parts| ==> SelfDelimiting(measure, parts[k])
    requires vin == pre + Flatten(parts) + post
    ensures Walk(measure, vin, |pre|, |parts|) == Ok(|pre| + |Flatten(parts)|)
    decreases |parts|
  {
    if parts != [] {
      var rest := Flatten(parts[1..]);
      assert vin == pre + (parts[0] + (rest + post)) && vin == (pre + parts[0]) + rest + post;
      SliceOfSuffix(vin, pre, parts[0] + (rest + post));
      WalkOverPart(measure, vin, |pre|, parts[0], rest + post, |parts|);
      WalkParts(measure, vin, pre + parts[0], parts[1..], post);
    }
  }

  /** Part i of a layout after any prefix is found by walking over i parts and
      measuring the next one. */
  lemma PartAt(measure: seq<uint8> -> Result<nat, Error>, pre: seq<uint8>, parts: seq<seq<uint8>>, index: nat)
    returns (offset: nat)
    requires forall k :: 0 <= k < |parts| ==> SelfDelimiting(measure, parts[k])
    requires index < |parts|
    ensures Walk(measure, pre + Flatten(parts), |pre|, index) == Ok(offset)
    ensures measure(Slice(pre + Flatten(parts), offset, |pre + Flatten(parts)|)) == Ok(|parts[index]|)
    ensures Slice(pre + Flatten(parts), offset, offset + |parts[index]|) == parts[index]
  {
    var vin := pre + Flatten(parts);
    var before := parts[..index];
    var head := pre + Flatten(before);
    var item := parts[index];
    var tail := Flatten(parts[index + 1..]);
    offset := |head|;
    FlattenSplit(parts, index);
    assert parts[index..][1..] == parts[index + 1..];
    assert Flatten(parts[index..]) == item + tail;
    assert vin == pre + Flatten(before) + (item + tail);
    WalkParts(measure, vin, pre, before, item + tail);
    assert vin == head + (item + tail);
    SliceAfter(head, item + tail);
    assert measure(item + tail) == Ok(|item|);
    SliceBetween(head, item, tail);
  }

  /** Once the count is read and the walk has found input `index`, the
      extracted bytes are the slice at that offset. */
  lemma InputAtFound(vin: seq<uint8>, dataLength: nat, count: nat, index: nat, offset: nat, part: seq<uint8>)
    requires ParseVarInt(vin) == Ok(VarInt(dataLength, count)) && index < count
    requires Walk(DetermineInputLength, vin, 1 + dataLength, index) == Ok(offset)
    requires DetermineInputLength(Slice(vin, offset, |vin|)) == Ok(|part|)
    requires Slice(vin, offset, offset + |part|) == part
    ensures InputAt(vin, index) == Ok(part)
  {
    assert SkipThenMeasure(vin, 1 + dataLength, index) == Ok((offset, |part|));
  }

  /** Where the walk over a vin finds input i. */
  lemma InputOffset(ins: seq<TxIn>, index: nat) returns (offset: nat)
    requires AllWellFormed(ins) && |ins| < MaxVarInt && index < |ins|
    ensures var pre, parts := VarIntBytes(|ins|), InputParts(ins); var vin := pre + Flatten(parts);
            Walk(DetermineInputLength, vin, |pre|, index) == Ok(offset) &&
            DetermineInputLength(Slice(vin, offset, |vin|)) == Ok(|parts[index]|) &&
            Slice(vin, offset, offset + |parts[index]|) == parts[index]
  {
    var parts := InputParts(ins);
    forall k | 0 <= k < |parts|
      ensures SelfDelimiting(DetermineInputLength, parts[k])
    {
      InputBytesSelfDelimiting(ins[k]);
    }
    offset := PartAt(DetermineInputLength, VarIntBytes(|ins|), parts, index);
  }

  /** Round trip of input extraction: in a vin laid out from a list of inputs,
      index i yields exactly the bytes of input i, and an index at or past the
      count yields 'Vin read overrun'. */
  lemma InputAtVin(ins: seq<TxIn>, index: int)
    requires AllWellFormed(ins) && |ins| < MaxVarInt
    ensures 0 <= index < |ins| ==> InputAt(VinBytes(ins), index) == Ok(InputBytes(ins[index]))
    ensures index >= |ins| ==> InputAt(VinBytes(ins), index) == Err(VinReadOverrun)
  {
    var pre := VarIntBytes(|ins|);
    var parts := InputParts(ins);
    var vin := pre + Flatten(parts);
    assert VinBytes(ins) == vin;
    assert ParseVarInt(vin) == Ok(VarInt(|pre| - 1, |ins|)) by {
      VarIntRoundTrip(|ins|, Flatten(parts));
    }
    if 0 <= index < |ins| {
      var offset := InputOffset(ins, index);
      InputAtFound(vin, |pre| - 1, |ins|, index, offset, parts[index]);
    }
  }

  // ------------------------------------------------------------------ headers

  /** `extractPrevBlockLE`: header bytes 4 to 36. */
  function ExtractPrevBlockLE(header: seq<uint8>): (r: seq<uint8>)
    ensures |header| >= 36 ==> r == header[4..36] && |r| == 32
    ensures |r| <= 32
  {
    Slice(header, 4, 36)
  }

  /** `extractMerkleRootLE`: header bytes 36 to 68. */
  function ExtractMerkleRootLE(header: seq<uint8>): (r: seq<uint8>)
    ensures |header| >= 68 ==> r == header[36..68] && |r| == 32
    ensures |r| <= 32
  {
    Slice(header, 36, 68)
  }

  /** An 80-byte block header, field by field. */
  datatype BlockHeader = BlockHeader(version: seq<uint8>, prevBlock: seq<uint8>, merkleRoot: seq<uint8>,
                                     timestamp: seq<uint8>, bits: seq<uint8>, nonce: seq<uint8>)

  predicate WellFormedHeader(h: BlockHeader) {
    |h.version| == 4 && |h.prevBlock| == 32 && |h.merkleRoot| == 32 &&
    |h.timestamp| == 4 && |h.bits| == 4 && |h.nonce| == 4
  }

  function HeaderBytes(h: BlockHeader): seq<uint8> {
    h.version + h.prevBlock + h.merkleRoot + h.timestamp + h.bits + h.nonce
  }

  /** The two slicing functions recover the previous-block hash and the Merkle
      root of a laid-out header. */
  lemma HeaderFieldsRoundTrip(h: BlockHeader)
    requires WellFormedHeader(h)
    ensures |HeaderBytes(h)| == 80
    ensures ExtractPrevBlockLE(HeaderBytes(h)) == h.prevBlock
    ensures ExtractMerkleRootLE(HeaderBytes(h)) == h.merkleRoot
  {
    var b := HeaderBytes(h);
    assert b == h.version + h.prevBlock + h.merkleRoot + (h.timestamp + h.bits + h.nonce);
    assert b[4..36] == h.prevBlock;
    assert b[36..68] == h.merkleRoot;
  }

  // -------------------------------------------------------------- header work

  function Zeros(n: nat): (z: seq<uint8>)
    ensures |z| == n && forall k :: 0 <= k < n ==> z[k] == 0
  {
    seq(n, _ => 0)
  }

  /** `validateHeaderWork`. An all-zero 32-byte digest fails at once and is left
      alone. Any other digest is REVERSED IN PLACE (through `reverseEndianness`),
      and passes when its reversed big-endian value (its little-endian value) is
      below the target's big-endian value; the target is read after the
      reversal, so a target that is the digest itself is read reversed. */
  method ValidateHeaderWork(digest: array<uint8>, target: array<uint8>) returns (r: bool)
    modifies digest
    ensures old(digest[..]) == Zeros(32) ==> !r && digest[..] == old(digest[..])
    ensures old(digest[..]) != Zeros(32) ==>
              digest[..] == Reversed(old(digest[..])) &&
              (r <==> LittleEndian(old(digest[..])) < BigEndian(target[..]))
  {
    var zero := new uint8[32](_ => 0);
    assert zero[..] == Zeros(32);
    var isZero := TypedArraysAreEqual(digest, zero);
    if isZero {
      return false;
    }
    var reversed := ReverseEndianness(digest);
    var work := BytesToUint(reversed);
    var limit := BytesToUint(target);
    BigEndianOfReversed(old(digest[..]));
    r := work < limit;
  }

  // ------------------------------------------------------------------- calcKey

  type i32 = x: int | -0x8000_0000 <= x < 0x8000_0000

  /** Two's-complement wrap-around of a 32-bit addition. */
  function Wrap32(x: int): i32 {
    (x + 0x8000_0000) % 0x1_0000_0000 - 0x8000_0000
  }

  /** Integer division truncating toward zero, as `i32` division does. */
  function TruncDiv(a: int, b: nat): int
    requires b > 0
  {
    if a >= 0 then a / b else -((-a) / b)
  }

  function DigitChar(d: nat): char
    requires d < 10
  {
    ('0' as int + d) as char
  }

  /** Decimal text of a natural number, no leading zeros. */
  function DecimalDigits(n: nat): (s: string)
    ensures |s| > 0 && forall k :: 0 <= k < |s| ==> '0' <= s[k] <= '9'
  {
    if n < 10 then [DigitChar(n)] else DecimalDigits(n / 10) + [DigitChar(n % 10)]
  }

  /** `i32.toString()`. */
  function IntToString(x: int): string {
    if x < 0 then "-" + DecimalDigits(-x) else DecimalDigits(x)
  }

  const BucketSize: nat := 100

  /** `calcKey`: the name of the hundred-block bucket of header heights that a
      height is stored in. The division truncates and the `+ 100` wraps, as i32
      arithmetic does. */
  function CalcKey(height: i32): (r: string)
    ensures 0 <= height < 0x8000_0000 - BucketSize ==> r == BucketKey(height / 100)
  {
    var keyA := TruncDiv(height, BucketSize) * BucketSize;
    assert -0x8000_0000 <= keyA < 0x8000_0000 by {
      var h: int := height;
      if h < 0 {
        assert (-h) / 100 * 100 <= -h;
      }
    }
    IntToString(keyA) + "-" + IntToString(Wrap32(keyA + BucketSize))
  }

  /** The value of a run of decimal digits. */
  function DecimalValue(s: string): nat
    requires forall k :: 0 <= k < |s| ==> '0' <= s[k] <= '9'
  {
    if s == [] then 0 else DecimalValue(s[..|s| - 1]) * 10 + (s[|s| - 1] as int - '0' as int)
  }

  lemma {:induction false} DecimalValueOfDigits(n: nat)
    ensures DecimalValue(DecimalDigits(n)) == n
  {
    if n >= 10 {
      DecimalValueOfDigits(n / 10);
      var s := DecimalDigits(n);
      assert s[..|s| - 1] == DecimalDigits(n / 10);
    }
  }

  /** The text before the first '-'. */
  function BeforeDash(s: string): string {
    if s == [] || s[0] == '-' then [] else [s[0]] + BeforeDash(s[1..])
  }

  lemma {:induction false} BeforeDashOfDigits(d: string, rest: string)
    requires forall k :: 0 <= k < |d| ==> '0' <= d[k] <= '9'
    ensures BeforeDash(d + "-" + rest) == d
  {
    if d != [] {
      assert (d + "-" + rest)[1..] == d[1..] + "-" + rest;
      BeforeDashOfDigits(d[1..], rest);
    }
  }

  /** The key of the bucket holding heights `100·b` to `100·b + 99`. */
  function BucketKey(b: nat): string {
    DecimalDigits(b * 100) + "-" + DecimalDigits(b * 100 + 100)
  }

  /** For the heights that occur (non-negative, below the wrap-around), the key
      names the bucket `height / 100`: "k-(k+100)" for k the height rounded down
      to a multiple of 100. */
  lemma CalcKeyOfHeight(height: i32)
    requires 0 <= height < 0x8000_0000 - BucketSize
    ensures CalcKey(height) == BucketKey(height / 100)
    ensures height / 100 * 100 <= height < height / 100 * 100 + 100
  {
    var k := TruncDiv(height, BucketSize) * BucketSize;
    assert k == height / 100 * 100;
    assert Wrap32(k + BucketSize) == k + 100;
  }

  /** Distinct buckets have distinct keys: the text before the dash is the
      bucket's first height. */
  lemma BucketKeyInjective(b1: nat, b2: nat)
    requires BucketKey(b1) == BucketKey(b2)
    ensures b1 == b2
  {
    BeforeDashOfDigits(DecimalDigits(b1 * 100), DecimalDigits(b1 * 100 + 100));
    BeforeDashOfDigits(DecimalDigits(b2 * 100), DecimalDigits(b2 * 100 + 100));
    DecimalValueOfDigits(b1 * 100);
    DecimalValueOfDigits(b2 * 100);
  }

  /** Two heights share a key exactly when they lie in the same hundred-block
      bucket. */
  lemma CalcKeySameBucket(h1: i32, h2: i32)
    requires 0 <= h1 < 0x8000_0000 - BucketSize
    requires 0 <= h2 < 0x8000_0000 - BucketSize
    ensures CalcKey(h1) == CalcKey(h2) <==> h1 / 100 == h2 / 100
  {
    CalcKeyOfHeight(h1);
    CalcKeyOfHeight(h2);
    if CalcKey(h1) == CalcKey(h2) {
      BucketKeyInjective(h1 / 100, h2 / 100);
    }
  }

  lemma DigitsOf592900()
    ensures DecimalDigits(592900) == "592900"
  {
    assert DecimalDigits(5) == "5";
    assert DecimalDigits(59) == "59";
    assert DecimalDigits(592) == "592";
    assert DecimalDigits(5929) == "5929";
    assert DecimalDigits(59290) == "59290";
  }

  lemma DigitsOf593000()
    ensures DecimalDigits(593000) == "593000"
  {
    assert DecimalDigits(5) == "5";
    assert DecimalDigits(59) == "59";
    assert DecimalDigits(593) == "593";
    assert DecimalDigits(5930) == "5930";
    assert DecimalDigits(59300) == "59300";
  }

  /** The height used in the header-store test data lands in "592900-593000". */
  lemma CalcKeyExample(height: i32)
    requires height == 592920
    ensures CalcKey(height) == "592900-593000"
  {
    CalcKeyOfHeight(height);
    BucketKeyExample(height / 100);
  }

  lemma BucketKeyExample(b: nat)
    requires b == 5929
    ensures BucketKey(b) == "592900-593000"
  {
    DigitsOf592900();
    DigitsOf593000();
    assert b * 100 == 592900 && b * 100 + 100 == 593000;
  }

  // ---------------------------------------------------------- calculateTxId

  /** `Uint8Array.prototype.set(src, offset)`: copies `src` into `dst` from `offset`. */
  method SetAt(dst: array<uint8>, src: array<uint8>, offset: nat)
    requires offset + src.Length <= dst.Length
    requires dst != src
    modifies dst
    ensures dst[..] == old(dst[..offset]) + src[..] + old(dst[offset + src.Length..])
  {
    for k := 0 to src.Length
      invariant dst[..offset] == old(dst[..offset])
      invariant dst[offset + src.Length..] == old(dst[offset + src.Length..])
      invariant forall j :: 0 <= j < k ==> dst[offset + j] == src[j]
    {
      dst[offset + k] := src[k];
    }
    assert dst[offset..offset + src.Length] == src[..];
    assert dst[..] == dst[..offset] + dst[offset..offset + src.Length] + dst[offset + src.Length..];
  }

  /** `part` written over the front of `base`. */
  function Overlay(base: seq<uint8>, part: seq<uint8>): (r: seq<uint8>)
    requires |part| <= |base|
    ensures |r| == |base|
  {
    part + base[|part|..]
  }

  /** Byte j of an overlay comes from the part when the part reaches j, and
      from the base otherwise. */
  lemma OverlayAt(base: seq<uint8>, part: seq<uint8>, j: nat)
    requires |part| <= |base| && j < |base|
    ensures Overlay(base, part)[j] == if j < |part| then part[j] else base[j]
  {
  }

  /** A copy to offset 0 is an overlay. */
  lemma CopyToFront(before: seq<uint8>, part: seq<uint8>)
    requires |part| <= |before|
    ensures before[..0] + part + before[|part|..] == Overlay(before, part)
  {
    assert before[..0] == [];
  }

  /** The buffer `calculateTxId` returns as written: a zeroed buffer as long as
      the four parts together, each part copied to offset 0 in turn. */
  function TxIdBuffer(version: seq<uint8>, vin: seq<uint8>, vout: seq<uint8>, locktime: seq<uint8>): seq<uint8> {
    var total := |version| + |vin| + |vout| + |locktime|;
    Overlay(Overlay(Overlay(Overlay(Zeros(total), version), vin), vout), locktime)
  }

  /** The buffer built one overlay at a time. */
  lemma TxIdBufferSteps(version: seq<uint8>, vin: seq<uint8>, vout: seq<uint8>, locktime: seq<uint8>,
                        b1: seq<uint8>, b2: seq<uint8>, b3: seq<uint8>, b4: seq<uint8>)
    requires |version| + |vin| + |vout| + |locktime| == |b1| == |b2| == |b3|
    requires b1 == Overlay(Zeros(|b1|), version)
    requires b2 == Overlay(b1, vin) && b3 == Overlay(b2, vout) && b4 == Overlay(b3, locktime)
    ensures b4 == TxIdBuffer(version, vin, vout, locktime)
  {
  }

  /** `calculateTxId` as written: every `set` targets `arr.byteOffset`, which is 0. */
  method CalculateTxId(version: array<uint8>, vin: array<uint8>, vout: array<uint8>, locktime: array<uint8>)
    returns (arr: array<uint8>)
    ensures arr[..] == TxIdBuffer(version[..], vin[..], vout[..], locktime[..])
  {
    ghost var v0, v1, v2, v3 := version[..], vin[..], vout[..], locktime[..];
    arr := new uint8[version.Length + vin.Length + vout.Length + locktime.Length](_ => 0);
    ghost var b0 := arr[..];
    assert b0 == Zeros(|v0| + |v1| + |v2| + |v3|);
    SetAt(arr, version, 0);
    assert version[..] == v0;
    CopyToFront(b0, v0);
    assert arr[..] == Overlay(b0, v0);
    ghost var b1 := arr[..];
    SetAt(arr, vin, 0);
    assert vin[..] == v1;
    CopyToFront(b1, v1);
    assert arr[..] == Overlay(b1, v1);
    ghost var b2 := arr[..];
    SetAt(arr, vout, 0);
    assert vout[..] == v2;
    CopyToFront(b2, v2);
    assert arr[..] == Overlay(b2, v2);
    ghost var b3 := arr[..];
    SetAt(arr, locktime, 0);
    assert locktime[..] == v3;
    CopyToFront(b3, v3);
    assert arr[..] == Overlay(b3, v3);
    TxIdBufferSteps(v0, v1, v2, v3, b1, b2, b3, arr[..]);
  }

  /** What the buffer holds: as long as all four parts, it begins with the
      locktime, and each earlier part survives only beyond the later ones. */
  lemma TxIdBufferContents(version: seq<uint8>, vin: seq<uint8>, vout: seq<uint8>, locktime: seq<uint8>, j: nat)
    requires j < |version| + |vin| + |vout| + |locktime|
    ensures |TxIdBuffer(version, vin, vout, locktime)| == |version| + |vin| + |vout| + |locktime|
    ensures TxIdBuffer(version, vin, vout, locktime)[j] ==
              if j < |locktime| then locktime[j]
              else if j < |vout| then vout[j]
              else if j < |vin| then vin[j]
              else if j < |version| then version[j]
              else 0
  {
    var total := |version| + |vin| + |vout| + |locktime|;
    var b0 := Zeros(total);
    var b1 := Overlay(b0, version);
    var b2 := Overlay(b1, vin);
    var b3 := Overlay(b2, vout);
    OverlayAt(b0, version, j);
    OverlayAt(b1, vin, j);
    OverlayAt(b2, vout, j);
    OverlayAt(b3, locktime, j);
  }

  /** The discrepancy: with a one-byte version and a one-byte locktime the
      buffer is [locktime, 0], not the concatenation [version, locktime]. */
  lemma TxIdBufferIsNotConcatenation()
    ensures TxIdBuffer([1], [], [], [2]) == [2, 0]
    ensures TxIdBuffer([1], [], [], [2]) != [1] + [] + [] + [2]
  {
    TxIdBufferContents([1], [], [], [2], 0);
    TxIdBufferContents([1], [], [], [2], 1);
    assert TxIdBuffer([1], [], [], [2])[0] == 2;
  }

  /** `calculateTxId` as evidently intended: each part copied after the ones
      before it, giving the serialised transaction that is to be hashed. */
  method CalculateTxIdPreimage(version: array<uint8>, vin: array<uint8>, vout: array<uint8>, locktime: array<uint8>)
    returns (arr: array<uint8>)
    ensures arr[..] == version[..] + vin[..] + vout[..] + locktime[..]
  {
    arr := new uint8[version.Length + vin.Length + vout.Length + locktime.Length](_ => 0);
    SetAt(arr, version, 0);
    SetAt(arr, vin, version.Length);
    assert arr[..version.Length + vin.Length] == version[..] + vin[..];
    SetAt(arr, vout, version.Length + vin.Length);
    assert arr[..version.Length + vin.Length + vout.Length] == version[..] + vin[..] + vout[..];
    SetAt(arr, locktime, version.Length + vin.Length + vout.Length);
  }
}
