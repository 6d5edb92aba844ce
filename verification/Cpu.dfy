/** Decimal CPU counts: what the Docker, Podman and containerd adapters read and print. */
module Cpu {
  import opened Decimals
  import opened Values

  const MAX_INT64: nat := 0x7FFF_FFFF_FFFF_FFFF
  const NANOS: nat := 1_000_000_000
  const PERIOD: nat := 100_000
  const DIGITS: nat := 9

  // ---------- unsigned arithmetic of 64 bits ----------

  const LIMIT64: nat := 0x1_0000_0000_0000_0000

  /** What is left of a number in 64 bits. */
  function Wrapped(value: nat): nat {
    value % LIMIT64
  }

  /** The guards before it keep every product and sum within 64 bits, so that nothing wraps. */
  function NanosOf(whole: nat, partial: nat): (nanos: nat)
    requires whole <= MAX_INT64 / NANOS && partial < LIMIT32
    ensures nanos == whole * NANOS + partial < LIMIT64
  {
    Wrapped(Wrapped(whole * NANOS) + partial)
  }

  /** The same for a quota. */
  function QuotaOf(whole: nat, partial: nat): (quota: nat)
    requires whole <= MAX_INT64 / PERIOD && partial < LIMIT32
    ensures quota == whole * PERIOD + partial * PERIOD / NANOS < LIMIT64 && partial * PERIOD < LIMIT64
  {
    Wrapped(Wrapped(whole * PERIOD) + Wrapped(partial * PERIOD) / NANOS)
  }

  // ---------- the adapters ----------

  /** The Docker adapter: CPUs to billionths, 0 for an absent limit. */
  function DockerNanoCPUs(value: Text): Option<nat> {
    if value == [] then Some(0)
    else
      var (integer, fraction, found) := Cut(value, POINT);
      if integer == [] || |fraction| > DIGITS || Signed(integer) then None
      else
        var whole := ParseUint(integer, LIMIT63);
        if whole.None? || whole.value > MAX_INT64 / NANOS then None
        else
          var padded := fraction + Zeros(DIGITS - |fraction|);
          var partial := ParseUint(padded, LIMIT32);
          if partial.None? then None
          else
            var result := NanosOf(whole.value, partial.value);
            if result == 0 || result > MAX_INT64 then None else Some(result)
  }

  /** The Podman adapter: the same, but only whole microseconds of a period. */
  function PodmanNanoCPUs(value: Text): Option<nat> {
    if value == [] then Some(0)
    else
      var (integer, fraction, found) := Cut(value, POINT);
      if integer == [] || |fraction| > DIGITS || Signed(integer) then None
      else
        var whole := ParseUint(integer, LIMIT63);
        if whole.None? || whole.value > MAX_INT64 / NANOS then None
        else
          var padded := fraction + Zeros(DIGITS - |fraction|);
          var partial := ParseUint(padded, LIMIT32);
          if partial.None? then None
          else
            var result := NanosOf(whole.value, partial.value);
            if result == 0 || result > MAX_INT64 || result % (NANOS / PERIOD) != 0 then None else Some(result)
  }

  /** The containerd adapter: CPUs to microseconds of a period, rounded down. */
  function ContainerdQuota(value: Text): Option<nat> {
    if value == [] then Some(0)
    else
      var (integer, fraction, found) := Cut(value, POINT);
      if integer == [] || Signed(integer) || |fraction| > DIGITS then None
      else
        var whole := ParseUint(integer, LIMIT63);
        if whole.None? || whole.value > MAX_INT64 / PERIOD then None
        else
          var padded := fraction + Zeros(DIGITS - |fraction|);
          var partial := ParseUint(padded, LIMIT32);
          if partial.None? then None
          else
            var quota := QuotaOf(whole.value, partial.value);
            if quota == 0 || quota > MAX_INT64 then None else Some(quota)
  }

  function CPUString(value: nat): Text {
    if value == 0 then []
    else
      var integer := value / NANOS;
      var fraction := TrimZeros(Format(value % NANOS + NANOS)[1..]);
      if fraction == [] then Format(integer) else Format(integer) + [POINT] + fraction
  }

  /** The quota that the Podman adapter asks for; None inside when there is no limit. */
  function CreateCPUs(value: Text): Option<Option<nat>> {
    match PodmanNanoCPUs(value)
    case None => None
    case Some(nanos) => Some(if nanos == 0 then None else Some(nanos / (NANOS / PERIOD)))
  }

  function ObservedCPUs(nanos: int, period: nat, quota: int): Option<Text> {
    if nanos == 0 && period == 0 && quota == 0 then Some([])
    else if nanos <= 0 || period != PERIOD || quota <= 0 || quota > MAX_INT64 / (NANOS / PERIOD) ||
            nanos != quota * (NANOS / PERIOD) then None
    else Some(CPUString(nanos))
  }

  // ---------- what a decimal means ----------

  /** An unsigned decimal with at most nine digits behind an optional point. */
  predicate IsDecimal(value: Text) {
    var (integer, fraction, found) := Cut(value, POINT);
    integer != [] && AllDigits(integer) && AllDigits(fraction) && |fraction| <= DIGITS
  }

  /** Its value in billionths. */
  function Billionths(value: Text): nat
    requires IsDecimal(value)
  {
    var (integer, fraction, found) := Cut(value, POINT);
    Number(integer) * NANOS + Number(fraction) * Pow10(DIGITS - |fraction|)
  }

  lemma {:induction false} NineDigits(text: Text)
    requires AllDigits(text) && |text| == DIGITS
    ensures Number(text) < NANOS
  {
    NumberIsBounded(text);
    assert Pow10(3) == 1000 && Pow10(6) == 1_000_000;
  }

  lemma {:induction false} DigitsAreUnsigned(integer: Text)
    requires integer != [] && AllDigits(integer)
    ensures !Signed(integer)
  {
    assert IsDigit(integer[0]);
  }

  /** The padded fraction is read as the billionths behind the point. */
  lemma {:induction false} FractionIsRead(fraction: Text)
    requires |fraction| <= DIGITS
    ensures ParseUint(fraction + Zeros(DIGITS - |fraction|), LIMIT32) ==
            if AllDigits(fraction) then Some(Number(fraction) * Pow10(DIGITS - |fraction|)) else None
    ensures AllDigits(fraction) ==> Number(fraction) * Pow10(DIGITS - |fraction|) < NANOS
  {
    var padded := fraction + Zeros(DIGITS - |fraction|);
    if AllDigits(fraction) {
      PaddedNumber(fraction, DIGITS - |fraction|);
      NineDigits(padded);
    } else {
      var i :| 0 <= i < |fraction| && !IsDigit(fraction[i]);
      assert padded[i] == fraction[i];
    }
  }

  /** What the guard on the whole part turns away is too large anyhow. */
  lemma {:induction false} GuardIsExact(integer: nat)
    ensures integer > MAX_INT64 / NANOS ==> integer * NANOS > MAX_INT64
  {
  }

  /** Docker's reading accepts exactly the decimals from a billionth up to what 64 bits can count. */
  lemma {:induction false} DockerReads(value: Text)
    requires value != []
    ensures DockerNanoCPUs(value) ==
            if IsDecimal(value) && 1 <= Billionths(value) <= MAX_INT64 then Some(Billionths(value)) else None
  {
    var (integer, fraction, found) := Cut(value, POINT);
    if |fraction| <= DIGITS {
      FractionIsRead(fraction);
    }
    if integer != [] && AllDigits(integer) {
      DigitsAreUnsigned(integer);
      GuardIsExact(Number(integer));
    }
  }

  /** Podman's accepts exactly those of them that are whole multiples of ten thousand billionths. */
  lemma {:induction false} PodmanReads(value: Text)
    requires value != []
    ensures PodmanNanoCPUs(value) ==
            if IsDecimal(value) && 1 <= Billionths(value) <= MAX_INT64 && Billionths(value) % 10_000 == 0
            then Some(Billionths(value)) else None
  {
    var (integer, fraction, found) := Cut(value, POINT);
    if |fraction| <= DIGITS {
      FractionIsRead(fraction);
    }
    if integer != [] && AllDigits(integer) {
      DigitsAreUnsigned(integer);
      GuardIsExact(Number(integer));
    }
  }

  lemma {:induction false} QuotaRoundsDown(whole: nat, partial: nat)
    requires partial < NANOS
    ensures whole * PERIOD + partial * PERIOD / NANOS == (whole * NANOS + partial) / 10_000
  {
    assert partial * PERIOD / NANOS == partial / 10_000;
  }

  /** containerd's accepts exactly the decimals whose quota, rounded down, is between one and 64 bits. */
  lemma {:induction false} ContainerdReads(value: Text)
    requires value != []
    ensures ContainerdQuota(value) ==
            if IsDecimal(value) && 1 <= Billionths(value) / 10_000 <= MAX_INT64
            then Some(Billionths(value) / 10_000) else None
  {
    var (integer, fraction, found) := Cut(value, POINT);
    if |fraction| <= DIGITS {
      FractionIsRead(fraction);
    }
    if integer != [] && AllDigits(integer) {
      DigitsAreUnsigned(integer);
      if |fraction| <= DIGITS && AllDigits(fraction) {
        QuotaOfParts(integer, fraction);
      }
    }
  }

  lemma {:induction false} QuotaOfParts(integer: Text, fraction: Text)
    requires AllDigits(integer) && AllDigits(fraction) && |fraction| <= DIGITS
    ensures
      var partial := Number(fraction) * Pow10(DIGITS - |fraction|);
      Number(integer) * PERIOD + partial * PERIOD / NANOS == (Number(integer) * NANOS + partial) / 10_000
  {
    FractionIsRead(fraction);
    QuotaRoundsDown(Number(integer), Number(fraction) * Pow10(DIGITS - |fraction|));
  }

  /** The three readings of one text never contradict each other. */
  lemma {:induction false} AdaptersAgree(value: Text)
    ensures PodmanNanoCPUs(value).Some? <==>
            DockerNanoCPUs(value).Some? && DockerNanoCPUs(value).value % 10_000 == 0
    ensures PodmanNanoCPUs(value).Some? ==>
              PodmanNanoCPUs(value) == DockerNanoCPUs(value) &&
              ContainerdQuota(value) == Some(PodmanNanoCPUs(value).value / 10_000)
    ensures DockerNanoCPUs(value).Some? && DockerNanoCPUs(value).value >= 10_000 ==>
              ContainerdQuota(value) == Some(DockerNanoCPUs(value).value / 10_000)
  {
    if value != [] {
      DockerReads(value);
      PodmanReads(value);
      ContainerdReads(value);
    }
  }

  // ---------- printing ----------

  lemma {:induction false} PowersOfTen()
    ensures Pow10(9) == NANOS && Pow10(10) == 10 * NANOS
  {
    assert Pow10(3) == 1000 && Pow10(6) == 1_000_000;
  }

  lemma {:induction false} LeadIsOne(lead: int, rest: nat, partial: nat)
    requires lead * NANOS + rest == partial + NANOS && rest < NANOS && partial < NANOS
    ensures rest == partial
  {
  }

  /** The nine digits behind a leading one are the billionths. */
  lemma {:induction false} NineDigitsOf(partial: nat) returns (digits: Text)
    requires partial < NANOS
    ensures digits == Format(partial + NANOS)[1..] && |digits| == DIGITS
    ensures AllDigits(digits) && Number(digits) == partial
  {
    PowersOfTen();
    FormatLength(partial + NANOS, 10);
    var text := Format(partial + NANOS);
    HeadDigit(text);
    digits := text[1..];
    NineDigits(digits);
    LeadIsOne(text[0] - 48, Number(digits), partial);
  }

  /** The nine digits of the billionths, without the zeros at their end. */
  lemma {:induction false} FractionOf(partial: nat) returns (fraction: Text)
    requires partial < NANOS
    ensures fraction == TrimZeros(Format(partial + NANOS)[1..]) && |fraction| <= DIGITS
    ensures AllDigits(fraction) && Number(fraction) * Pow10(DIGITS - |fraction|) == partial
  {
    var digits := NineDigitsOf(partial);
    fraction := TrimZeros(digits);
    assert forall i | 0 <= i < |fraction| :: fraction[i] == digits[i];
    PaddedNumber(fraction, DIGITS - |fraction|);
  }

  lemma {:induction false} CutMeans(value: Text, integer: Text, fraction: Text, found: bool)
    requires Cut(value, POINT) == (integer, fraction, found) && integer != []
    requires AllDigits(integer) && AllDigits(fraction) && |fraction| <= DIGITS
    ensures IsDecimal(value)
    ensures Billionths(value) == Number(integer) * NANOS + Number(fraction) * Pow10(DIGITS - |fraction|)
  {
  }

  /** What is printed is a decimal that means the printed number. */
  lemma {:induction false} PrintedMeans(value: nat)
    requires value > 0
    ensures CPUString(value) != [] && IsDecimal(CPUString(value)) && Billionths(CPUString(value)) == value
  {
    var integer, partial := value / NANOS, value % NANOS;
    var fraction := FractionOf(partial);
    PointIsNoDigit(Format(integer));
    if fraction == [] {
      CutsNothing(Format(integer), POINT);
      CutMeans(Format(integer), Format(integer), fraction, false);
    } else {
      CutsAt(Format(integer), POINT, fraction);
      CutMeans(Format(integer) + [POINT] + fraction, Format(integer), fraction, true);
    }
  }

  /** Reading back what was printed gives the number again. */
  lemma {:induction false} DockerReadsBack(value: nat)
    requires value <= MAX_INT64
    ensures DockerNanoCPUs(CPUString(value)) == Some(value)
  {
    if value > 0 {
      PrintedMeans(value);
      DockerReads(CPUString(value));
    }
  }

  lemma {:induction false} ObservedPrints(quota: nat)
    requires 0 < quota * 10_000 <= MAX_INT64
    ensures ObservedCPUs(quota * 10_000, PERIOD, quota) == Some(CPUString(quota * 10_000))
  {
  }

  lemma {:induction false} PodmanReadsPrinted(nanos: nat)
    requires 0 < nanos <= MAX_INT64 && nanos % 10_000 == 0
    ensures PodmanNanoCPUs(CPUString(nanos)) == Some(nanos) && DockerNanoCPUs(CPUString(nanos)) == Some(nanos)
  {
    PrintedMeans(nanos);
    DockerReads(CPUString(nanos));
    PodmanReads(CPUString(nanos));
  }

  /** What Podman is asked for and reports is printed as the same number, which reads back to it. */
  lemma {:induction false} PodmanReadsBack(value: Text)
    requires CreateCPUs(value).Some? && CreateCPUs(value).value.Some?
    ensures
      var quota := CreateCPUs(value).value.value;
      var observed := ObservedCPUs(quota * 10_000, PERIOD, quota);
      observed.Some? && CreateCPUs(observed.value) == CreateCPUs(value) &&
      DockerNanoCPUs(observed.value) == DockerNanoCPUs(value)
  {
    PodmanReads(value);
    AdaptersAgree(value);
    var nanos := PodmanNanoCPUs(value).value;
    var quota := nanos / 10_000;
    assert quota * 10_000 == nanos;
    ObservedPrints(quota);
    PodmanReadsPrinted(nanos);
  }
}
