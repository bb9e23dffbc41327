/** The base58btc text encoding of byte strings used for `did:key` identifiers:
    each leading zero byte becomes the digit '1', and the remaining bytes, read
    as one big-endian number, are written in base 58 with the Bitcoin alphabet
    (the digits 1-9 and the letters without 0, O, I and l). */
module Base58 {
  import opened Wrappers
  import opened Arrays

  /** Digit `d` of the Bitcoin alphabet
      "123456789ABCDEFGHJKLMNPQRSTUVWXYZabcdefghijkmnopqrstuvwxyz". */
  function Digit(d: nat): (c: char)
    requires d < 58
    ensures c == '1' <==> d == 0
  {
    if d < 9 then ('1' as int + d) as char
    else if d < 17 then ('A' as int + (d - 9)) as char
    else if d < 22 then ('J' as int + (d - 17)) as char
    else if d < 33 then ('P' as int + (d - 22)) as char
    else if d < 44 then ('a' as int + (d - 33)) as char
    else ('m' as int + (d - 44)) as char
  }

  /** The value of an alphabet character; None for any other character. */
  function DigitValue(c: char): (r: Option<nat>)
    ensures r.Some? ==> r.value < 58
  {
    if '1' <= c <= '9' then Some(c as int - '1' as int)
    else if 'A' <= c <= 'H' then Some(c as int - 'A' as int + 9)
    else if 'J' <= c <= 'N' then Some(c as int - 'J' as int + 17)
    else if 'P' <= c <= 'Z' then Some(c as int - 'P' as int + 22)
    else if 'a' <= c <= 'k' then Some(c as int - 'a' as int + 33)
    else if 'm' <= c <= 'z' then Some(c as int - 'm' as int + 44)
    else None
  }

  /** Every digit reads back as its value, so the digit map is one-to-one. */
  lemma DigitValueOfDigit(d: nat)
    requires d < 58
    ensures DigitValue(Digit(d)) == Some(d)
  {
  }

  /** Base-58 digits of `n`, most significant first, without leading zero
      digits (so 0 has no digits at all). */
  function Digits(n: nat): (s: string)
    ensures n > 0 ==> s != [] && s[0] != '1'
  {
    if n == 0 then [] else Digits(n / 58) + [Digit(n % 58)]
  }

  /** The value of a run of base-58 digits; None when a character is not in
      the alphabet. */
  function DigitsValue(s: string): Option<nat> {
    if s == [] then Some(0)
    else
      match DigitsValue(s[..|s| - 1])
      case None => None
      case Some(high) =>
        match DigitValue(s[|s| - 1])
        case None => None
        case Some(low) => Some(high * 58 + low)
  }

  lemma {:induction false} DigitsValueOfDigits(n: nat)
    ensures DigitsValue(Digits(n)) == Some(n)
  {
    if n > 0 {
      var s := Digits(n);
      assert s[..|s| - 1] == Digits(n / 58);
      DigitsValueOfDigits(n / 58);
      DigitValueOfDigit(n % 58);
    }
  }

  /** The big-endian bytes of `n` without leading zero bytes. */
  function MinimalBigEndian(n: nat): (b: seq<uint8>)
    ensures n > 0 ==> b != [] && b[0] != 0
  {
    if n == 0 then [] else MinimalBigEndian(n / 256) + [n % 256]
  }

  /** A byte string with a non-zero first byte is the minimal encoding of its
      own big-endian value. */
  lemma {:induction false} MinimalOfBigEndian(b: seq<uint8>)
    requires b != [] && b[0] != 0
    ensures BigEndian(b) > 0
    ensures MinimalBigEndian(BigEndian(b)) == b
  {
    var init, last := b[..|b| - 1], b[|b| - 1];
    if init != [] {
      assert init[0] == b[0];
      MinimalOfBigEndian(init);
    }
    var high := BigEndian(init);
    assert BigEndian(b) == high * 256 + last;
    assert b == init + [last];
    MinimalStep(high, last);
  }

  /** One step of the minimal encoding: appending a low byte to a number. */
  lemma MinimalStep(high: nat, low: uint8)
    requires high > 0 || low > 0
    ensures MinimalBigEndian(high * 256 + low) == MinimalBigEndian(high) + [low]
  {
    var n := high * 256 + low;
    assert n / 256 == high && n % 256 == low;
  }

  /** `toString(bytes, "base58btc")`. */
  function Encode(b: seq<uint8>): (s: string)
    ensures |s| >= (if b != [] && b[0] == 0 then 1 else 0)
  {
    if b == [] then []
    else if b[0] == 0 then ['1'] + Encode(b[1..])
    else Digits(BigEndian(b))
  }

  /** `fromString(text, "base58btc")`: None when a character is not in the
      alphabet, which the library reports by throwing. */
  function Decode(s: string): Option<seq<uint8>> {
    if s == [] then Some([])
    else if s[0] == '1' then
      match Decode(s[1..])
      case None => None
      case Some(rest) => Some([0] + rest)
    else
      match DigitsValue(s)
      case None => None
      case Some(n) => Some(MinimalBigEndian(n))
  }

  /** Round trip: decoding the encoding of any byte string gives it back. */
  lemma {:induction false} DecodeEncode(b: seq<uint8>)
    ensures Decode(Encode(b)) == Some(b)
  {
    if b != [] {
      if b[0] == 0 {
        DecodeEncode(b[1..]);
        assert [0 as uint8] + b[1..] == b;
      } else {
        MinimalOfBigEndian(b);
        DigitsValueOfDigits(BigEndian(b));
      }
    }
  }

  /** The encoding is one-to-one. */
  lemma EncodeInjective(a: seq<uint8>, b: seq<uint8>)
    requires Encode(a) == Encode(b)
    ensures a == b
  {
    DecodeEncode(a);
    DecodeEncode(b);
  }

  /** The encoding uses only alphabet characters. */
  lemma {:induction false} EncodeInAlphabet(b: seq<uint8>)
    ensures forall k :: 0 <= k < |Encode(b)| ==> DigitValue(Encode(b)[k]).Some?
  {
    if b != [] {
      if b[0] == 0 {
        EncodeInAlphabet(b[1..]);
        assert forall k :: 1 <= k < |Encode(b)| ==> Encode(b)[k] == Encode(b[1..])[k - 1];
      } else {
        DigitsInAlphabet(BigEndian(b));
      }
    }
  }

  lemma {:induction false} DigitsInAlphabet(n: nat)
    ensures forall k :: 0 <= k < |Digits(n)| ==> DigitValue(Digits(n)[k]).Some?
  {
    if n > 0 {
      DigitsInAlphabet(n / 58);
      DigitValueOfDigit(n % 58);
    }
  }
}
