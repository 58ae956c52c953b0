/**
 The hexadecimal form of an idempotency key.
 */
module Hex {
  import opened Wrappers

  type byte = b: nat | b < 256

  const HEX_LEN: nat := 64

  const DIGITS := "0123456789abcdef"

  /** `decode_hex_nibble`: either case is accepted. */
  function Nibble(c: char): (r: Option<nat>)
    ensures r.Some? ==> r.value < 16
  {
    if '0' <= c <= '9' then Some(c as int - '0' as int)
    else if 'a' <= c <= 'f' then Some(c as int - 'a' as int + 10)
    else if 'A' <= c <= 'F' then Some(c as int - 'A' as int + 10)
    else None
  }

  /** A digit's value is its place among the sixteen, in either case, and nothing else is
      a digit. */
  lemma NibbleExactly(c: char, n: nat)
    requires n < 16
    ensures Nibble(c) == Some(n) <==> c == "0123456789abcdef"[n] || c == "0123456789ABCDEF"[n]
  {}

  predicate IsHexDigit(c: char) {
    Nibble(c).Some?
  }

  function Lower(c: char): char {
    if 'A' <= c <= 'Z' then (c as int + 32) as char else c
  }

  predicate HexText(text: string) {
    |text| == HEX_LEN && forall i :: 0 <= i < |text| ==> IsHexDigit(text[i])
  }

  function DigitAt(bytes: seq<byte>, i: nat): char
    requires i / 2 < |bytes|
  {
    if i % 2 == 0 then DIGITS[bytes[i / 2] / 16] else DIGITS[bytes[i / 2] % 16]
  }

  function Encoded(bytes: seq<byte>): string {
    seq(2 * |bytes|, i requires 0 <= i < 2 * |bytes| => DigitAt(bytes, i))
  }

  function ByteAt(text: string, i: nat): byte
    requires HexText(text) && i < 32
  {
    Nibble(text[2 * i]).value * 16 + Nibble(text[2 * i + 1]).value
  }

  function Decoded(text: string): Option<seq<byte>> {
    if HexText(text) then Some(seq(32, i requires 0 <= i < 32 => ByteAt(text, i))) else None
  }

  /** `to_hex`: two lowercase digits per byte, high nibble first. */
  method ToHex(bytes: seq<byte>) returns (text: string)
    ensures text == Encoded(bytes)
  {
    text := "";
    for i := 0 to |bytes|
      invariant |text| == 2 * i
      invariant forall j :: 0 <= j < 2 * i ==> text[j] == DigitAt(bytes, j)
    {
      text := text + [DIGITS[bytes[i] / 16]] + [DIGITS[bytes[i] % 16]];
    }
  }

  /** `from_hex`: exactly the 64-digit strings decode, to 32 bytes. */
  method FromHex(text: string) returns (r: Option<seq<byte>>)
    ensures r == Decoded(text)
  {
    if |text| != HEX_LEN {
      return None;
    }
    var bytes: seq<byte> := [];
    for i := 0 to 32
      invariant |bytes| == i
      invariant forall j :: 0 <= j < 2 * i ==> IsHexDigit(text[j])
      invariant forall j :: 0 <= j < i ==> bytes[j] == Nibble(text[2 * j]).value * 16 + Nibble(text[2 * j + 1]).value
    {
      var high, low := Nibble(text[2 * i]), Nibble(text[2 * i + 1]);
      if high.None? || low.None? {
        return None;
      }
      bytes := bytes + [high.value * 16 + low.value];
    }
    assert bytes == Decoded(text).value;
    return Some(bytes);
  }

  lemma DigitNibble(n: nat)
    requires n < 16
    ensures Nibble(DIGITS[n]) == Some(n)
  {}

  lemma NibbleDigit(c: char)
    requires IsHexDigit(c)
    ensures DIGITS[Nibble(c).value] == Lower(c)
  {}

  /** Every key survives the trip through its text. */
  lemma DecodeEncode(bytes: seq<byte>)
    requires |bytes| == 32
    ensures Decoded(Encoded(bytes)) == Some(bytes)
  {
    var text := Encoded(bytes);
    EncodedIsHex(bytes);
    forall i | 0 <= i < 32 ensures ByteAt(text, i) == bytes[i] {
      DigitNibble(bytes[i] / 16);
      DigitNibble(bytes[i] % 16);
      assert text[2 * i] == DigitAt(bytes, 2 * i) && text[2 * i + 1] == DigitAt(bytes, 2 * i + 1);
    }
    assert Decoded(text).value == bytes;
  }

  lemma EncodedIsHex(bytes: seq<byte>)
    requires |bytes| == 32
    ensures HexText(Encoded(bytes))
  {
    forall i | 0 <= i < 64 ensures IsHexDigit(DigitAt(bytes, i)) {
      DigitNibble(bytes[i / 2] / 16);
      DigitNibble(bytes[i / 2] % 16);
    }
  }

  /** Every accepted text comes back in lowercase. */
  lemma EncodeDecode(text: string)
    requires HexText(text)
    ensures |Encoded(Decoded(text).value)| == |text|
    ensures forall i :: 0 <= i < |text| ==> Encoded(Decoded(text).value)[i] == Lower(text[i])
  {
    var bytes := Decoded(text).value;
    forall i | 0 <= i < |text| ensures DigitAt(bytes, i) == Lower(text[i]) {
      var k := i / 2;
      NibbleDigit(text[2 * k]);
      NibbleDigit(text[2 * k + 1]);
      assert bytes[k] / 16 == Nibble(text[2 * k]).value && bytes[k] % 16 == Nibble(text[2 * k + 1]).value;
    }
  }
}
