/** How much space a backup publication needs, and when a filesystem can spare it. Every number is an
    unsigned 64-bit one; products and sums that would not fit are refused, never wrapped. */
module Capacity {
  import opened Values

  const LIMIT: nat := 0x1_0000_0000_0000_0000
  const WORKSPACE: nat := 0x10_0000
  const MINIMUM_FREE: nat := 0x4000_0000
  const MINIMUM_PERCENT: nat := 10

  type U64 = n: nat | n < LIMIT

  /** The smallest multiple of the fragment size that holds `size` bytes. */
  ghost predicate RoundsUp(size: nat, fragment: nat, rounded: nat) {
    size <= rounded && (exists k: nat :: rounded == k * fragment) &&
    forall k: nat :: k * fragment >= size ==> rounded <= k * fragment
  }

  function Rounded(size: nat, fragment: nat): nat
    requires fragment > 0
  {
    ((size + fragment - 1) / fragment) * fragment
  }

  lemma {:induction false} QuotientBounds(a: nat, b: nat)
    requires b > 0
    ensures (a / b) * b <= a < (a / b) * b + b
  {
  }

  lemma {:induction false} FewerFit(k: nat, n: nat, fragment: nat)
    requires fragment > 0 && k < n
    ensures k * fragment <= n * fragment - fragment
  {
    assert n * fragment == (n - 1) * fragment + fragment;
    if k < n - 1 {
      FewerFit(k, n - 1, fragment);
    }
  }

  lemma {:induction false} RoundedRoundsUp(size: nat, fragment: nat)
    requires fragment > 0
    ensures RoundsUp(size, fragment, Rounded(size, fragment))
  {
    var n := (size + fragment - 1) / fragment;
    QuotientBounds(size + fragment - 1, fragment);
    forall k: nat | k * fragment >= size
      ensures n * fragment <= k * fragment
    {
      if k < n {
        FewerFit(k, n, fragment);
      }
    }
  }

  function CapacityProduct(count: U64, size: U64): (product: Option<U64>)
    ensures product == if count * size < LIMIT then Some(count * size) else None
  {
    if size != 0 && count > (LIMIT - 1) / size then
      FewerThanQuotient(count, size);
      None
    else
      AtMostQuotient(count, size);
      Some(count * size)
  }

  lemma {:induction false} FewerThanQuotient(count: nat, size: nat)
    requires size != 0 && count > (LIMIT - 1) / size
    ensures count * size >= LIMIT
  {
    QuotientBounds(LIMIT - 1, size);
    FewerFit((LIMIT - 1) / size, count, size);
  }

  lemma {:induction false} AtMostQuotient(count: nat, size: nat)
    requires size == 0 || count <= (LIMIT - 1) / size
    ensures count * size < LIMIT
  {
    if size != 0 {
      QuotientBounds(LIMIT - 1, size);
      if count < (LIMIT - 1) / size {
        FewerFit(count, (LIMIT - 1) / size, size);
      }
    }
  }

  lemma {:induction false} CeilingByRemainder(size: nat, fragment: nat)
    requires fragment > 0
    ensures (size + fragment - 1) / fragment == size / fragment + (if size % fragment != 0 then 1 else 0)
  {
    var q, r := size / fragment, size % fragment;
    assert size == q * fragment + r;
    var target := q + if r != 0 then 1 else 0;
    assert target * fragment <= size + fragment - 1 < target * fragment + fragment by {
      assert (q + 1) * fragment == q * fragment + fragment;
    }
    QuotientIs(size + fragment - 1, fragment, target);
  }

  lemma {:induction false} QuotientIs(a: nat, b: nat, q: nat)
    requires b > 0 && q * b <= a < q * b + b
    ensures a / b == q
  {
    QuotientBounds(a, b);
    if a / b < q {
      FewerFit(a / b, q, b);
    } else if q < a / b {
      FewerFit(q, a / b, b);
    }
  }

  function AllocatedBytes(size: U64, fragment: U64): (bytes: Option<U64>)
    ensures bytes ==
            if fragment != 0 && Rounded(size, fragment) < LIMIT then Some(Rounded(size, fragment)) else None
  {
    if fragment == 0 then None
    else
      var fragments := size / fragment;
      CeilingByRemainder(size, fragment);
      if size % fragment != 0 then
        SmallerQuotient(size, fragment);
        CapacityProduct(fragments + 1, fragment)
      else CapacityProduct(fragments, fragment)
  }

  lemma {:induction false} AtMost(a: nat, b: nat, c: nat)
    requires b <= c
    ensures a * b <= a * c
    decreases c
  {
    if b < c {
      AtMost(a, b, c - 1);
      assert a * c == a * (c - 1) + a;
    }
  }

  lemma {:induction false} SmallerQuotient(size: U64, fragment: U64)
    requires fragment != 0 && size % fragment != 0
    ensures size / fragment + 1 < LIMIT
  {
    QuotientBounds(size, fragment);
    TwoLeaveHalf(size / fragment, fragment, size);
  }

  lemma {:induction false} TwoLeaveHalf(quotient: nat, fragment: nat, size: nat)
    requires fragment >= 2 && quotient * fragment <= size
    ensures quotient * 2 <= size
  {
    AtMost(quotient, 2, fragment);
  }

  /** What one publication occupies: the workspace, every archive and the manifest, each rounded up. */
  function Occupied(archives: seq<int>, manifestBytes: int, fragment: nat): nat
    requires fragment > 0 && manifestBytes >= 0 && forall i | 0 <= i < |archives| :: archives[i] >= 0
  {
    Rounded(WORKSPACE, fragment) + Archived(archives, fragment) + Rounded(manifestBytes, fragment)
  }

  function Archived(archives: seq<int>, fragment: nat): nat
    requires fragment > 0 && forall i | 0 <= i < |archives| :: archives[i] >= 0
  {
    if archives == [] then 0
    else Archived(archives[..|archives| - 1], fragment) + Rounded(archives[|archives| - 1], fragment)
  }

  lemma {:induction false} ArchivedGrows(archives: seq<int>, fragment: nat, n: nat)
    requires fragment > 0 && n <= |archives| && forall i | 0 <= i < |archives| :: archives[i] >= 0
    ensures Archived(archives[..n], fragment) <= Archived(archives, fragment)
    decreases |archives| - n
  {
    if n == |archives| {
      assert archives[..n] == archives;
    } else {
      assert archives[..n + 1][..n] == archives[..n];
      ArchivedGrows(archives, fragment, n + 1);
    }
  }

  /** Succeeds exactly when the inputs make sense and the true sum fits, and then returns that sum. */
  method PublicationBytes(archives: seq<int>, manifestBytes: int, fragment: U64) returns (required: Option<U64>)
    requires manifestBytes < LIMIT && forall i | 0 <= i < |archives| :: archives[i] < LIMIT
    ensures required ==
            if fragment > 0 && manifestBytes >= 0 && (forall i | 0 <= i < |archives| :: archives[i] >= 0) &&
               Occupied(archives, manifestBytes, fragment) < LIMIT
            then Some(Occupied(archives, manifestBytes, fragment)) else None
  {
    var workspace := AllocatedBytes(WORKSPACE, fragment);
    if workspace.None? {
      return None;
    }
    var sum: U64 := workspace.value;
    for i := 0 to |archives|
      invariant forall j | 0 <= j < i :: archives[j] >= 0
      invariant sum == Rounded(WORKSPACE, fragment) + Archived(archives[..i], fragment)
    {
      if archives[i] < 0 {
        return None;
      }
      var archive := AllocatedBytes(archives[i], fragment);
      assert archives[..i + 1][..i] == archives[..i];
      if archive.None? || sum > LIMIT - 1 - archive.value {
        if forall j | 0 <= j < |archives| :: archives[j] >= 0 {
          ArchivedGrows(archives, fragment, i + 1);
        }
        return None;
      }
      sum := sum + archive.value;
    }
    assert archives[..|archives|] == archives;
    if manifestBytes < 0 {
      return None;
    }
    var manifest := AllocatedBytes(manifestBytes, fragment);
    if manifest.None? || sum > LIMIT - 1 - manifest.value {
      return None;
    }
    return Some(sum + manifest.value);
  }

  // ---------- the reserve ----------

  function Ceiling(a: nat, b: nat): nat
    requires b > 0
  {
    (a + b - 1) / b
  }

  /** Computed on quotient and remainder so that nothing overflows, as 64-bit arithmetic would wrap. */
  function PercentageCeiling(value: U64, percent: U64): nat {
    Combined((value / 100) * percent, (value % 100) * percent, value % 100)
  }

  function Combined(whole: nat, rest: nat, remainder: nat): nat {
    var result := whole % LIMIT;
    if remainder != 0 then (result + ((rest % LIMIT + 99) % LIMIT) / 100) % LIMIT else result
  }

  lemma {:induction false} CeilingOfSum(whole: nat, rest: nat)
    ensures Ceiling(whole * 100 + rest, 100) == whole + (rest + 99) / 100
  {
  }

  lemma {:induction false} Distributes(quotient: nat, remainder: nat, percent: nat)
    ensures (quotient * 100 + remainder) * percent == (quotient * percent) * 100 + remainder * percent
  {
  }

  /** With at most a hundred percent nothing wraps, and the result is the exact ceiling. */
  lemma {:induction false} PercentageIsExact(value: U64, percent: U64)
    requires percent <= 100
    ensures PercentageCeiling(value, percent) == Ceiling(value * percent, 100) <= value
  {
    AtMost(value / 100, percent, 100);
    AtMost(value % 100, percent, 100);
    CeilingOfProduct(value, value / 100, value % 100, percent);
    CombinedIsExact((value / 100) * percent, (value % 100) * percent, value);
  }

  lemma {:induction false} CombinedIsExact(whole: nat, rest: nat, value: U64)
    requires whole <= (value / 100) * 100 && rest <= (value % 100) * 100
    ensures Combined(whole, rest, value % 100) == whole + (rest + 99) / 100 <= value
  {
    PercentageFits(whole, rest, value, value % 100);
  }

  lemma {:induction false} CeilingOfProduct(value: nat, quotient: nat, remainder: nat, percent: nat)
    requires value == quotient * 100 + remainder
    ensures Ceiling(value * percent, 100) == quotient * percent + (remainder * percent + 99) / 100
  {
    Distributes(quotient, remainder, percent);
    CeilingOfSum(quotient * percent, remainder * percent);
  }

  lemma {:induction false} RestFits(rest: nat, remainder: nat)
    requires rest <= remainder * 100 && remainder < 100
    ensures (rest + 99) / 100 <= remainder
    ensures rest % LIMIT == rest && (rest + 99) % LIMIT == rest + 99
  {
    QuotientBounds(rest + 99, 100);
  }

  lemma {:induction false} PercentageFits(whole: nat, rest: nat, value: U64, remainder: nat)
    requires remainder == value % 100 && whole <= (value / 100) * 100 && rest <= remainder * 100
    ensures whole + (rest + 99) / 100 <= value
    ensures whole % LIMIT == whole && ((rest % LIMIT + 99) % LIMIT) / 100 == (rest + 99) / 100
    ensures remainder == 0 ==> (rest + 99) / 100 == 0
  {
    RestFits(rest, remainder);
    QuotientBounds(value, 100);
  }

  datatype Filesystem = Filesystem(totalBytes: U64, availableBytes: U64, availableInodes: U64)

  /** The bytes that must stay free: one gibibyte or a tenth of the filesystem, whichever is more. */
  function Reserve(totalBytes: nat): nat {
    if Ceiling(totalBytes * 10, 100) > MINIMUM_FREE then Ceiling(totalBytes * 10, 100) else MINIMUM_FREE
  }

  /** Accepts exactly when the publication fits beside the reserve. */
  function CapacityAvailable(observed: Filesystem, requiredBytes: U64, requiredInodes: U64): (available: bool)
    ensures available <==>
            requiredBytes + Reserve(observed.totalBytes) <= observed.availableBytes &&
            requiredInodes <= observed.availableInodes
  {
    PercentageIsExact(observed.totalBytes, MINIMUM_PERCENT);
    if observed.availableBytes < requiredBytes || observed.availableInodes < requiredInodes then false
    else
      var remaining := observed.availableBytes - requiredBytes;
      var percentage := PercentageCeiling(observed.totalBytes, MINIMUM_PERCENT);
      var reserve := if percentage > MINIMUM_FREE then percentage else MINIMUM_FREE;
      remaining >= reserve
  }

  /** A publication that was let through leaves the reserve free and fits without overflow. */
  lemma {:induction false} PublicationLeavesReserve(
      observed: Filesystem, archives: seq<int>, manifestBytes: int, fragment: U64, requiredBytes: U64, inodes: U64)
    requires fragment > 0 && manifestBytes >= 0 && forall i | 0 <= i < |archives| :: archives[i] >= 0
    requires requiredBytes == Occupied(archives, manifestBytes, fragment)
    requires CapacityAvailable(observed, requiredBytes, inodes)
    ensures
      var left := observed.availableBytes - Occupied(archives, manifestBytes, fragment);
      left >= MINIMUM_FREE && left * 100 >= observed.totalBytes * 10
  {
  }
}
