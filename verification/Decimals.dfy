/** Decimal numbers in text, as Go's strconv and strings packages read and print them. */
module Decimals {
  import opened Values

  const POINT: Byte := 46
  const ZERO: Byte := 48

  predicate IsDigit(b: Byte) {
    48 <= b <= 57
  }

  predicate AllDigits(text: Text) {
    forall i | 0 <= i < |text| :: IsDigit(text[i])
  }

  function Number(digits: Text): nat
    requires AllDigits(digits)
  {
    if digits == [] then 0 else 10 * Number(digits[..|digits| - 1]) + (digits[|digits| - 1] - 48)
  }

  function Pow10(n: nat): (power: nat)
    ensures power > 0
  {
    if n == 0 then 1 else 10 * Pow10(n - 1)
  }

  /** strconv.ParseUint in base ten: digits only, at least one, and the value has to fit. */
  function ParseUint(text: Text, limit: nat): Option<nat> {
    if text != [] && AllDigits(text) && Number(text) < limit then Some(Number(text)) else None
  }

  const LIMIT63: nat := 0x8000_0000_0000_0000
  const LIMIT32: nat := 0x1_0000_0000

  /** strconv.FormatInt in base ten for a number that is not negative. */
  function Format(n: nat): (digits: Text)
    ensures digits != [] && AllDigits(digits) && Number(digits) == n
  {
    if n < 10 then [48 + n] else
      var shorter := Format(n / 10);
      assert (shorter + [48 + n % 10])[..|shorter|] == shorter;
      shorter + [48 + n % 10]
  }

  /** strings.Cut at the first separator. */
  function Cut(text: Text, separator: Byte): (parts: (Text, Text, bool))
    ensures parts.2 ==> text == parts.0 + [separator] + parts.1 && separator !in parts.0
    ensures !parts.2 ==> parts.0 == text && parts.1 == [] && separator !in text
  {
    if text == [] then ([], [], false)
    else if text[0] == separator then ([], text[1..], true)
    else
      var rest := Cut(text[1..], separator);
      ([text[0]] + rest.0, rest.1, rest.2)
  }

  function Zeros(n: nat): (text: Text)
    ensures |text| == n && AllDigits(text)
  {
    if n == 0 then [] else Zeros(n - 1) + [ZERO]
  }

  function TrimZeros(text: Text): (trimmed: Text)
    ensures |trimmed| <= |text| && text == trimmed + Zeros(|text| - |trimmed|)
    ensures trimmed != [] ==> trimmed[|trimmed| - 1] != ZERO
  {
    if text != [] && text[|text| - 1] == ZERO then
      var trimmed := TrimZeros(text[..|text| - 1]);
      assert text == text[..|text| - 1] + [ZERO];
      trimmed
    else text
  }

  predicate Signed(integer: Text) {
    integer != [] && (integer[0] == 43 || integer[0] == 45)
  }

  lemma {:induction false} TenMore(a: nat, power: nat)
    ensures 10 * (a * power) == a * (10 * power)
  {
  }

  lemma {:induction false} DigitBehind(text: Text, digit: Byte)
    requires AllDigits(text) && IsDigit(digit)
    ensures AllDigits(text + [digit]) && Number(text + [digit]) == 10 * Number(text) + (digit - 48)
  {
    assert (text + [digit])[..|text|] == text;
  }

  lemma {:induction false} PaddedNumber(text: Text, n: nat)
    requires AllDigits(text)
    ensures AllDigits(text + Zeros(n)) && Number(text + Zeros(n)) == Number(text) * Pow10(n)
  {
    if n == 0 {
      assert text + Zeros(0) == text;
    } else {
      PaddedNumber(text, n - 1);
      assert text + Zeros(n) == text + Zeros(n - 1) + [ZERO];
      DigitBehind(text + Zeros(n - 1), ZERO);
      TenMore(Number(text), Pow10(n - 1));
    }
  }

  lemma {:induction false} NumberIsBounded(text: Text)
    requires AllDigits(text)
    ensures Number(text) < Pow10(|text|)
  {
    if text != [] {
      NumberIsBounded(text[..|text| - 1]);
    }
  }

  lemma {:induction false} FormatLength(n: nat, width: nat)
    requires width > 0 && Pow10(width - 1) <= n < Pow10(width)
    ensures |Format(n)| == width
  {
    if n >= 10 {
      assert width > 1;
      FormatLength(n / 10, width - 1);
    }
  }

  lemma {:induction false} PointIsNoDigit(text: Text)
    requires AllDigits(text)
    ensures POINT !in text
  {
  }

  lemma {:induction false} CutsNothing(text: Text, separator: Byte)
    requires separator !in text
    ensures Cut(text, separator) == (text, [], false)
  {
    if text != [] {
      CutsNothing(text[1..], separator);
    }
  }

  lemma {:induction false} CutsAt(before: Text, separator: Byte, after: Text)
    requires separator !in before
    ensures Cut(before + [separator] + after, separator) == (before, after, true)
  {
    var text := before + [separator] + after;
    if before != [] {
      assert text[1..] == before[1..] + [separator] + after;
      CutsAt(before[1..], separator, after);
      assert before == [before[0]] + before[1..];
    } else {
      assert text == [separator] + after;
    }
  }

  lemma {:induction false} TenTimes(digit: int, power: int, middle: int, last: int)
    ensures 10 * (digit * power + middle) + last == digit * (10 * power) + (10 * middle + last)
  {
  }

  lemma {:induction false} HeadDigit(text: Text)
    requires text != [] && AllDigits(text)
    ensures AllDigits(text[1..])
    ensures Number(text) == (text[0] - 48) * Pow10(|text| - 1) + Number(text[1..])
  {
    if |text| > 1 {
      var n := |text| - 1;
      var shorter := text[..n];
      HeadDigit(shorter);
      assert shorter[1..] == text[1..][..n - 1];
      TenTimes(text[0] - 48, Pow10(n - 1), Number(shorter[1..]), text[n] - 48);
    }
  }
}
