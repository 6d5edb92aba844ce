/** Identifiers and digests as lowercase hexadecimal text. */
module Hex {
  import opened Values
  import Encoding

  function HexDigit(n: nat): (digit: Byte)
    requires n < 16
  {
    if n < 10 then 48 + n else 87 + n
  }

  /** Either case is read. */
  function DigitValue(digit: Byte): (value: Option<nat>)
    ensures value.Some? ==> value.value < 16
  {
    if 48 <= digit <= 57 then Some(digit - 48)
    else if 97 <= digit <= 102 then Some(digit - 87)
    else if 65 <= digit <= 70 then Some(digit - 55)
    else None
  }

  predicate IsUpper(b: Byte) {
    65 <= b <= 90
  }

  predicate IsLowercase(text: Text) {
    forall i | 0 <= i < |text| :: !IsUpper(text[i])
  }

  function Encode(bytes: Encoding.Bytes): (text: Text)
    ensures |text| == 2 * |bytes|
  {
    if bytes == [] then [] else [HexDigit(bytes[0] / 16), HexDigit(bytes[0] % 16)] + Encode(bytes[1..])
  }

  function Decode(text: Text): (bytes: Option<Encoding.Bytes>)
    ensures bytes.Some? ==> |text| == 2 * |bytes.value|
  {
    if text == [] then Some([])
    else if |text| == 1 then None
    else
      var high, low, rest := DigitValue(text[0]), DigitValue(text[1]), Decode(text[2..]);
      if high.None? || low.None? || rest.None? then None
      else Some([16 * high.value + low.value] + rest.value)
  }

  lemma {:induction false} DigitRoundTrip(n: nat)
    requires n < 16
    ensures DigitValue(HexDigit(n)) == Some(n) && !IsUpper(HexDigit(n))
  {
  }

  /** Two digits in front are one byte in front. */
  lemma {:induction false} DecodeOfPair(high: Byte, low: Byte, rest: Text)
    requires DigitValue(high).Some? && DigitValue(low).Some? && Decode(rest).Some?
    ensures Decode([high, low] + rest) ==
            Some([16 * DigitValue(high).value + DigitValue(low).value] + Decode(rest).value)
  {
    assert ([high, low] + rest)[2..] == rest;
  }

  lemma {:induction false} LowercaseOfPair(high: Byte, low: Byte, rest: Text)
    requires !IsUpper(high) && !IsUpper(low) && IsLowercase(rest)
    ensures IsLowercase([high, low] + rest)
  {
  }

  lemma {:induction false} DecodeOfEncode(bytes: Encoding.Bytes)
    ensures Decode(Encode(bytes)) == Some(bytes) && IsLowercase(Encode(bytes))
  {
    if bytes != [] {
      DigitRoundTrip(bytes[0] / 16);
      DigitRoundTrip(bytes[0] % 16);
      DecodeOfEncode(bytes[1..]);
      DecodeOfPair(HexDigit(bytes[0] / 16), HexDigit(bytes[0] % 16), Encode(bytes[1..]));
      LowercaseOfPair(HexDigit(bytes[0] / 16), HexDigit(bytes[0] % 16), Encode(bytes[1..]));
      assert bytes == [bytes[0]] + bytes[1..];
    }
  }

  lemma {:induction false} EncodeOfDecode(text: Text)
    requires IsLowercase(text) && Decode(text).Some?
    ensures Encode(Decode(text).value) == text
  {
    if text != [] {
      var bytes := Decode(text).value;
      EncodeOfDecode(text[2..]);
      assert bytes[1..] == Decode(text[2..]).value;
      assert bytes[0] / 16 == DigitValue(text[0]).value && bytes[0] % 16 == DigitValue(text[1]).value;
      assert !IsUpper(text[0]) && !IsUpper(text[1]);
      assert text == [text[0], text[1]] + text[2..];
    }
  }

  // ---------- numbers and their bytes ----------

  function FromBytes(bytes: Encoding.Bytes): (n: nat) {
    if bytes == [] then 0 else 256 * FromBytes(bytes[..|bytes| - 1]) + bytes[|bytes| - 1]
  }

  lemma {:induction false} BytesOfNumber(n: nat, width: nat)
    requires n < Encoding.Power(width)
    ensures FromBytes(Encoding.BigEndian(n, width)) == n
  {
    if width > 0 {
      BytesOfNumber(n / 256, width - 1);
      assert Encoding.BigEndian(n, width)[..width - 1] == Encoding.BigEndian(n / 256, width - 1);
    }
  }

  lemma {:induction false} NumberOfBytes(bytes: Encoding.Bytes)
    ensures FromBytes(bytes) < Encoding.Power(|bytes|) && Encoding.BigEndian(FromBytes(bytes), |bytes|) == bytes
  {
    if bytes != [] {
      NumberOfBytes(bytes[..|bytes| - 1]);
      assert bytes == bytes[..|bytes| - 1] + [bytes[|bytes| - 1]];
    }
  }

  // ---------- digests ----------

  /** The bytes of "sha256:". */
  const ALGORITHM: Text := [115, 104, 97, 50, 53, 54, 58]

  function DigestString(d: Digest): Text {
    ALGORITHM + Encode(Encoding.DigestBytes(d))
  }

  lemma {:induction false} PowerOfIdentifier()
    ensures Encoding.Power(16) == 0x1_0000_0000_0000_0000_0000_0000_0000_0000
  {
    assert Encoding.Power(4) == 0x1_0000_0000;
    Encoding.PowerAdds(4, 4);
    Encoding.PowerAdds(8, 8);
  }

  lemma {:induction false} PowerOfDigest()
    ensures Encoding.Power(32) == 0x1_0000_0000_0000_0000_0000_0000_0000_0000_0000_0000_0000_0000_0000_0000_0000_0000
  {
    PowerOfIdentifier();
    Encoding.PowerAdds(16, 16);
  }

  function ParseDigest(value: Text): Option<Digest> {
    if !(ALGORITHM <= value) then None
    else
      var encoded := value[|ALGORITHM|..];
      if |encoded| != 64 || !IsLowercase(encoded) then None
      else
        var bytes := Decode(encoded);
        if bytes.None? then None
        else
          NumberOfBytes(bytes.value);
          PowerOfDigest();
          Some(FromBytes(bytes.value))
  }

  /** Printing and parsing are inverse: each digest has one text and each accepted text one digest. */
  lemma {:induction false} DigestTextIsExact(value: Text, d: Digest)
    ensures ParseDigest(value) == Some(d) <==> value == DigestString(d)
  {
    if value == DigestString(d) {
      ParseOfDigestString(d);
    }
    if ParseDigest(value) == Some(d) {
      PowerOfDigest();
      var encoded := value[|ALGORITHM|..];
      EncodeOfDecode(encoded);
      NumberOfBytes(Decode(encoded).value);
      assert value == ALGORITHM + encoded;
    }
  }

  lemma {:induction false} ParseOfDigestString(d: Digest)
    ensures ParseDigest(DigestString(d)) == Some(d)
  {
    PowerOfDigest();
    DecodeOfEncode(Encoding.DigestBytes(d));
    BytesOfNumber(d, 32);
    assert DigestString(d)[|ALGORITHM|..] == Encode(Encoding.DigestBytes(d));
  }

  // ---------- identifiers ----------

  /** A 128-bit identity, read as the big-endian number of its 16 bytes. */
  type Identifier = n: nat | n < 0x1_0000_0000_0000_0000_0000_0000_0000_0000

  const NO_IDENTIFIER: Identifier := 0

  function IdentifierString(n: Identifier): Text {
    Encode(Encoding.BigEndian(n, 16))
  }

  function ParseIdentifier(value: Text): Option<Identifier> {
    if |value| != 32 || !IsLowercase(value) then None
    else
      var bytes := Decode(value);
      if bytes.None? then None
      else
        NumberOfBytes(bytes.value);
        PowerOfIdentifier();
        var n := FromBytes(bytes.value);
        if n == NO_IDENTIFIER then None else Some(n)
  }

  /** The same for identifiers, except that zero has no accepted text. */
  lemma {:induction false} IdentifierTextIsExact(value: Text, n: Identifier)
    ensures ParseIdentifier(value) == Some(n) <==> n != NO_IDENTIFIER && value == IdentifierString(n)
  {
    PowerOfIdentifier();
    if value == IdentifierString(n) {
      DecodeOfEncode(Encoding.BigEndian(n, 16));
      BytesOfNumber(n, 16);
    }
    if ParseIdentifier(value) == Some(n) {
      EncodeOfDecode(value);
      NumberOfBytes(Decode(value).value);
    }
  }
}
