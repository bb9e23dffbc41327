/** Byte-array helpers of the contract runtime: equality, hexadecimal text,
    big-endian decoding and byte reversal (assembly/common/arrays.ts).
    Each method works on arrays the way the runtime does and is specified by a
    function on the array's contents; the lemmas state what those functions mean. */
module Arrays {

  type uint8 = x: int | 0 <= x < 256

  // ------------------------------------------------------------------ equality

  /** `Arrays.equal`: two absent arrays are equal, an absent array equals no
      present one, and two present arrays are equal when their lengths and all
      their elements agree. */
  method Equal(first: array?<uint8>, second: array?<uint8>) returns (r: bool)
    ensures first == null && second == null ==> r
    ensures (first == null) != (second == null) ==> !r
    ensures first != null && second != null ==>
              (r <==> first.Length == second.Length &&
                      forall k :: 0 <= k < first.Length ==> first[k] == second[k])
  {
    if first == null && second == null {
      return true;
    }
    if first == null && second != null {
      return false;
    }
    if first != null && second == null {
      return false;
    }
    if first.Length != second.Length {
      return false;
    }
    var i := 0;
    while i < first.Length
      invariant 0 <= i <= first.Length
      invariant forall k :: 0 <= k < i ==> first[k] == second[k]
    {
      if first[i] != second[i] {
        return false;
      }
      i := i + 1;
    }
    return true;
  }

  /** `typedArraysAreEqual`: equal byte lengths and equal bytes at every index.
      (The run-time type test on the arguments is enforced here by their type.) */
  method TypedArraysAreEqual(a: array<uint8>, b: array<uint8>) returns (r: bool)
    ensures r <==> a[..] == b[..]
  {
    if a.Length != b.Length {
      return false;
    }
    for i := 0 to a.Length
      invariant a[..i] == b[..i]
    {
      if a[i] != b[i] {
        assert a[..][i] != b[..][i];
        return false;
      }
      assert a[..i + 1] == a[..i] + [a[i]] && b[..i + 1] == b[..i] + [b[i]];
    }
    assert a[..] == a[..a.Length] && b[..] == b[..b.Length];
    return true;
  }

  // ---------------------------------------------------------------- hex text

  /** The lower-case hexadecimal digit of a nibble. */
  function HexDigit(n: nat): char
    requires n < 16
  {
    if n < 10 then ('0' as int + n) as char else ('a' as int + n - 10) as char
  }

  predicate IsLowerHexDigit(c: char) {
    '0' <= c <= '9' || 'a' <= c <= 'f'
  }

  /** The characters `U8.parseInt(_, 16)` reads as digits, in either case. */
  predicate IsHexDigit(c: char) {
    '0' <= c <= '9' || 'a' <= c <= 'f' || 'A' <= c <= 'F'
  }

  function HexValue(c: char): (v: nat)
    requires IsHexDigit(c)
    ensures v < 16
  {
    if '0' <= c <= '9' then c as int - '0' as int
    else if 'a' <= c <= 'f' then c as int - 'a' as int + 10
    else c as int - 'A' as int + 10
  }

  /** Two digits per byte, zero padded, as `0${b.toString(16)}`.slice(-2) gives. */
  function ByteHex(b: uint8): string {
    [HexDigit(b / 16), HexDigit(b % 16)]
  }

  /** The digits that `toHexString` emits for a byte sequence, prefix excluded. */
  function HexOf(bytes: seq<uint8>): string {
    if bytes == [] then "" else HexOf(bytes[..|bytes| - 1]) + ByteHex(bytes[|bytes| - 1])
  }

  function HexPrefix(prepend0x: bool): string {
    if prepend0x then "0x" else ""
  }

  /** `Arrays.toHexString`. */
  method ToHexString(buffer: array<uint8>, prepend0x: bool) returns (output: string)
    ensures output == HexPrefix(prepend0x) + HexOf(buffer[..])
  {
    output := "";
    if prepend0x {
      output := output + "0x";
    }
    for i := 0 to buffer.Length
      invariant output == HexPrefix(prepend0x) + HexOf(buffer[..i])
    {
      assert buffer[..i + 1][..i] == buffer[..i];
      output := output + ByteHex(buffer[i]);
    }
    assert buffer[..] == buffer[..buffer.Length];
  }

  /** Every byte becomes exactly two lower-case hexadecimal digits. */
  lemma {:induction false} HexOfShape(bytes: seq<uint8>)
    ensures |HexOf(bytes)| == 2 * |bytes|
    ensures forall k :: 0 <= k < |HexOf(bytes)| ==> IsLowerHexDigit(HexOf(bytes)[k])
  {
    if bytes != [] {
      HexOfShape(bytes[..|bytes| - 1]);
    }
  }

  /** `toHexString(b, p)` has length `2·|b|`, plus two when the prefix is asked for,
      and starts with "0x" exactly when it is asked for. */
  lemma ToHexStringShape(bytes: seq<uint8>, prepend0x: bool)
    ensures |HexPrefix(prepend0x) + HexOf(bytes)| == 2 * |bytes| + (if prepend0x then 2 else 0)
    ensures var s := HexPrefix(prepend0x) + HexOf(bytes);
            prepend0x <==> |s| >= 2 && s[..2] == "0x"
  {
    HexOfShape(bytes);
    var s := HexPrefix(prepend0x) + HexOf(bytes);
    if !prepend0x && |s| >= 2 {
      assert IsLowerHexDigit(HexOf(bytes)[1]);
      assert s[1] != 'x';
    }
  }

  /** The text `fromHexString` leaves after dropping one optional "0x" prefix. */
  function StripHexPrefix(hex: string): string {
    if |hex| >= 2 && hex[0] == '0' && hex[1] == 'x' then hex[2..] else hex
  }

  /** What `fromHexString` demands of its caller (its documented contract; the
      even-length check in the source is disabled): an even number of digits. */
  predicate IsHexText(h: string) {
    |h| % 2 == 0 && forall k :: 0 <= k < |h| ==> IsHexDigit(h[k])
  }

  /** The bytes denoted by a run of digit pairs: byte i is digits 2i and 2i+1. */
  function HexDecode(h: string): (bytes: seq<uint8>)
    requires IsHexText(h)
    ensures |bytes| == |h| / 2
  {
    if h == [] then []
    else HexDecode(h[..|h| - 2]) + [HexValue(h[|h| - 2]) * 16 + HexValue(h[|h| - 1])]
  }

  /** `Arrays.fromHexString`. */
  method FromHexString(hex: string) returns (output: array<uint8>)
    requires IsHexText(StripHexPrefix(hex))
    ensures output[..] == HexDecode(StripHexPrefix(hex))
  {
    var h := StripHexPrefix(hex);
    output := new uint8[|h| / 2];
    var i := 0;
    while i < |h|
      invariant 0 <= i <= |h| && i % 2 == 0
      invariant output[..i / 2] == HexDecode(h[..i])
    {
      assert h[..i + 2][..i] == h[..i];
      output[i / 2] := HexValue(h[i]) * 16 + HexValue(h[i + 1]);
      assert output[..(i + 2) / 2] == output[..i / 2] + [output[i / 2]];
      i := i + 2;
    }
    assert h[..i] == h;
  }

  lemma {:induction false} DecodeHexOf(bytes: seq<uint8>)
    ensures IsHexText(HexOf(bytes))
    ensures HexDecode(HexOf(bytes)) == bytes
  {
    HexOfShape(bytes);
    if bytes != [] {
      var init, last := bytes[..|bytes| - 1], bytes[|bytes| - 1];
      DecodeHexOf(init);
      var h := HexOf(bytes);
      assert h == HexOf(init) + ByteHex(last);
      assert h[..|h| - 2] == HexOf(init);
      assert h[|h| - 2..] == ByteHex(last);
      ByteHexValue(last);
      assert bytes == init + [last];
    }
  }

  /** The two digits of a byte read back as the byte. */
  lemma ByteHexValue(b: uint8)
    ensures IsHexDigit(ByteHex(b)[0]) && IsHexDigit(ByteHex(b)[1])
    ensures HexValue(ByteHex(b)[0]) * 16 + HexValue(ByteHex(b)[1]) == b as int
  {
    var high, low := b / 16, b % 16;
    assert HexValue(HexDigit(high as nat)) == high as nat;
    assert HexValue(HexDigit(low as nat)) == low as nat;
  }

  /** Round trip: `fromHexString(toHexString(b, p)) == b` for both values of `p`;
      the text produced always meets `fromHexString`'s demand. */
  lemma HexRoundTrip(bytes: seq<uint8>, prepend0x: bool)
    ensures IsHexText(StripHexPrefix(HexPrefix(prepend0x) + HexOf(bytes)))
    ensures HexDecode(StripHexPrefix(HexPrefix(prepend0x) + HexOf(bytes))) == bytes
  {
    DecodeHexOf(bytes);
    HexOfShape(bytes);
    var h := HexOf(bytes);
    var s := HexPrefix(prepend0x) + h;
    if prepend0x {
      assert s[2..] == h;
    } else if |s| >= 2 {
      assert IsLowerHexDigit(h[1]);
    }
    assert StripHexPrefix(s) == h;
  }

  // --------------------------------------------------------- big-endian value

  function Pow256(n: nat): (p: nat)
    ensures p > 0
  {
    if n == 0 then 1 else 256 * Pow256(n - 1)
  }

  /** The unsigned integer a byte sequence denotes when its first byte is the
      most significant. */
  function BigEndian(bytes: seq<uint8>): nat {
    if bytes == [] then 0 else BigEndian(bytes[..|bytes| - 1]) * 256 + bytes[|bytes| - 1]
  }

  /** `bytesToUint`: sums each byte shifted left by eight times its distance from
      the end. */
  method BytesToUint(a: array<uint8>) returns (total: nat)
    ensures total == BigEndian(a[..])
  {
    total := 0;
    var n := a.Length;
    for i := 0 to n
      invariant total == BigEndian(a[..i]) * Pow256(n - i)
    {
      assert a[..i + 1][..i] == a[..i];
      var rest := Pow256(n - i - 1);
      calc {
        total + a[i] * rest;
        BigEndian(a[..i]) * (256 * rest) + a[i] * rest;
        (BigEndian(a[..i]) * 256 + a[i]) * rest;
        BigEndian(a[..i + 1]) * rest;
      }
      total := total + a[i] * rest;
    }
    assert a[..] == a[..n];
  }

  lemma {:induction false} BigEndianBound(bytes: seq<uint8>)
    ensures BigEndian(bytes) < Pow256(|bytes|)
  {
    if bytes != [] {
      BigEndianBound(bytes[..|bytes| - 1]);
    }
  }

  /** The first byte is the most significant: it weighs `256^(n-1)`. */
  lemma {:induction false} BigEndianFirst(bytes: seq<uint8>)
    requires bytes != []
    ensures BigEndian(bytes) == bytes[0] * Pow256(|bytes| - 1) + BigEndian(bytes[1..])
  {
    var n := |bytes|;
    if n > 1 {
      var init := bytes[..n - 1];
      BigEndianFirst(init);
      assert init[1..] == bytes[1..][..n - 2];
      calc {
        BigEndian(bytes);
        BigEndian(init) * 256 + bytes[n - 1];
        (bytes[0] * Pow256(n - 2) + BigEndian(init[1..])) * 256 + bytes[n - 1];
        bytes[0] * (Pow256(n - 2) * 256) + (BigEndian(init[1..]) * 256 + bytes[n - 1]);
        bytes[0] * Pow256(n - 1) + BigEndian(bytes[1..]);
      }
    } else {
      assert bytes[..0] == [];
    }
  }

  /** The `width`-byte big-endian encoding of `n` (the inverse of BigEndian). */
  function ToBigEndian(n: nat, width: nat): (bytes: seq<uint8>)
    ensures |bytes| == width
  {
    if width == 0 then [] else ToBigEndian(n / 256, width - 1) + [n % 256]
  }

  lemma {:induction false} BigEndianOfToBigEndian(n: nat, width: nat)
    requires n < Pow256(width)
    ensures BigEndian(ToBigEndian(n, width)) == n
  {
    if width > 0 {
      var bytes := ToBigEndian(n, width);
      var q, r := n / 256, n % 256;
      assert n == q * 256 + r;
      assert q < Pow256(width - 1) by {
        assert Pow256(width) == 256 * Pow256(width - 1);
      }
      assert bytes[..width - 1] == ToBigEndian(q, width - 1) && bytes[width - 1] == r;
      BigEndianOfToBigEndian(q, width - 1);
    }
  }

  lemma {:induction false} ToBigEndianOfBigEndian(bytes: seq<uint8>)
    ensures ToBigEndian(BigEndian(bytes), |bytes|) == bytes
  {
    if bytes != [] {
      var init := bytes[..|bytes| - 1];
      ToBigEndianOfBigEndian(init);
      assert bytes == init + [bytes[|bytes| - 1]];
    }
  }

  // --------------------------------------------------------------- reversal

  function Reversed(s: seq<uint8>): (r: seq<uint8>)
    ensures |r| == |s|
  {
    if s == [] then [] else Reversed(s[1..]) + [s[0]]
  }

  lemma {:induction false} ReversedAt(s: seq<uint8>, k: nat)
    requires k < |s|
    ensures Reversed(s)[k] == s[|s| - 1 - k]
  {
    if k < |s| - 1 {
      ReversedAt(s[1..], k);
    }
  }

  /** The value of a byte sequence read with its first byte least significant. */
  function LittleEndian(bytes: seq<uint8>): nat {
    if bytes == [] then 0 else bytes[0] + 256 * LittleEndian(bytes[1..])
  }

  /** Reading the reversed bytes big-endian is reading the bytes little-endian. */
  lemma {:induction false} BigEndianOfReversed(bytes: seq<uint8>)
    ensures BigEndian(Reversed(bytes)) == LittleEndian(bytes)
  {
    if bytes != [] {
      BigEndianOfReversed(bytes[1..]);
      var r := Reversed(bytes);
      assert r[..|r| - 1] == Reversed(bytes[1..]);
    }
  }

  /** `reverseEndianness`: reverses its argument IN PLACE (the source calls
      `uint8Arr.reverse()`) and returns a fresh copy of the reversed bytes. */
  method ReverseEndianness(a: array<uint8>) returns (buf: array<uint8>)
    modifies a
    ensures a[..] == Reversed(old(a[..]))
    ensures fresh(buf) && buf[..] == a[..]
  {
    var n := a.Length;
    for i := 0 to n / 2
      invariant forall k :: 0 <= k < i ==> a[k] == old(a[n - 1 - k]) && a[n - 1 - k] == old(a[k])
      invariant forall k :: i <= k < n - i ==> a[k] == old(a[k])
    {
      a[i], a[n - 1 - i] := a[n - 1 - i], a[i];
    }
    ghost var before := old(a[..]);
    forall k | 0 <= k < n
      ensures a[..][k] == Reversed(before)[k]
    {
      ReversedAt(before, k);
    }
    assert a[..] == Reversed(before);
    buf := new uint8[n];
    for i := 0 to n
      modifies buf
      invariant forall k :: 0 <= k < i ==> buf[k] == a[k]
    {
      buf[i] := a[i];
    }
  }
}
