/** The digest that binds desired mounts to the persistent sources a runtime reports. */
module StorageDigest {
  import opened Encoding
  import opened Specs
  import opened Values
  import Ordering
  import Sorting
  import WorkloadDigest

  // ---------- what is accepted ----------

  /** The reported source satisfies the policy of the desired mount. */
  predicate Agrees(value: RuntimeMount, expected: Mount) {
    value.kind == expected.kind && value.readOnly == expected.readOnly && value.source != [] &&
    if value.kind == MOUNT_BIND then value.name == [] && value.source == expected.source
    else value.kind == MOUNT_VOLUME && value.name != [] && expected.source == [] && !expected.readOnly
  }

  predicate DistinctMounts(mounts: seq<Mount>) {
    (forall i | 0 <= i < |mounts| :: mounts[i].target != []) &&
    forall i, j | 0 <= i < j < |mounts| :: mounts[i].target != mounts[j].target
  }

  predicate Wanted(mounts: seq<Mount>, value: RuntimeMount) {
    exists j | 0 <= j < |mounts| :: mounts[j].target == value.target && Agrees(value, mounts[j])
  }

  predicate Provided(observed: seq<RuntimeMount>, expected: Mount) {
    exists i | 0 <= i < |observed| :: observed[i].target == expected.target
  }

  /** Source and targets identify the mounts, and each side has a partner on the other. */
  predicate Accepted(source: Digest, mounts: seq<Mount>, observed: seq<RuntimeMount>) {
    source != ZERO_DIGEST && DistinctMounts(mounts) && Sorting.DistinctKeys(observed, TargetOf) &&
    (forall i | 0 <= i < |observed| :: Wanted(mounts, observed[i])) &&
    (forall j | 0 <= j < |mounts| :: Provided(observed, mounts[j]))
  }

  // ---------- permutations ----------

  function TargetOf(value: RuntimeMount): Text {
    value.target
  }

  lemma {:induction false} MountsPermute(left: seq<Mount>, right: seq<Mount>)
    requires multiset(left) == multiset(right) && DistinctMounts(left)
    ensures DistinctMounts(right)
  {
    forall i | 0 <= i < |right|
      ensures right[i].target != []
    {
      assert right[i] in multiset(right);
      var k := Sorting.IndexIn(left, right[i]);
    }
    forall i, j | 0 <= i < j < |right|
      ensures right[i].target != right[j].target
    {
      if right[i] == right[j] {
        Sorting.TwiceIsTwoIndices(right, i, j);
        var k, l := Sorting.TwoIndices(left, right[i]);
      } else {
        assert right[i] in multiset(right) && right[j] in multiset(right);
        var k := Sorting.IndexIn(left, right[i]);
        var l := Sorting.IndexIn(left, right[j]);
      }
    }
  }

  lemma {:induction false} WantedPermutes(mounts: seq<Mount>, mounts': seq<Mount>, value: RuntimeMount)
    requires multiset(mounts) == multiset(mounts') && Wanted(mounts, value)
    ensures Wanted(mounts', value)
  {
    var j :| 0 <= j < |mounts| && mounts[j].target == value.target && Agrees(value, mounts[j]);
    assert mounts[j] in multiset(mounts);
    var k := Sorting.IndexIn(mounts', mounts[j]);
  }

  lemma {:induction false} ProvidedPermutes(observed: seq<RuntimeMount>, observed': seq<RuntimeMount>, expected: Mount)
    requires multiset(observed) == multiset(observed') && Provided(observed, expected)
    ensures Provided(observed', expected)
  {
    var i :| 0 <= i < |observed| && observed[i].target == expected.target;
    assert observed[i] in multiset(observed);
    var k := Sorting.IndexIn(observed', observed[i]);
  }

  lemma {:induction false} AcceptedPermutes(
      source: Digest, mounts: seq<Mount>, observed: seq<RuntimeMount>,
      mounts': seq<Mount>, observed': seq<RuntimeMount>)
    requires multiset(mounts) == multiset(mounts') && multiset(observed) == multiset(observed')
    requires Accepted(source, mounts, observed)
    ensures Accepted(source, mounts', observed')
  {
    MountsPermute(mounts, mounts');
    Sorting.DistinctPermutes(observed, observed', TargetOf);
    forall i | 0 <= i < |observed'|
      ensures Wanted(mounts', observed'[i])
    {
      assert observed'[i] in multiset(observed');
      var k := Sorting.IndexIn(observed, observed'[i]);
      WantedPermutes(mounts, mounts', observed[k]);
    }
    forall j | 0 <= j < |mounts'|
      ensures Provided(observed', mounts'[j])
    {
      assert mounts'[j] in multiset(mounts');
      var k := Sorting.IndexIn(mounts, mounts'[j]);
      ProvidedPermutes(observed, observed', mounts[k]);
    }
  }

  // ---------- the digest ----------

  function RuntimeMountBytes(v: RuntimeMount): Bytes {
    (Octet(v.kind) + (TextBytes(v.name) + TextBytes(v.source))) + (TextBytes(v.target) + Flag(v.readOnly))
  }

  lemma {:induction false} RuntimeMountSplits(
      octet: Byte -> Bytes, text: Text -> Bytes, flag: bool -> Bytes, x: RuntimeMount, y: RuntimeMount, r: Bytes,
      s: Bytes)
    requires Unique(octet) && Unique(text) && Unique(flag)
    requires
      (octet(x.kind) + (text(x.name) + text(x.source))) + (text(x.target) + flag(x.readOnly)) + r ==
      (octet(y.kind) + (text(y.name) + text(y.source))) + (text(y.target) + flag(y.readOnly)) + s
    ensures x == y && r == s
  {
    var head, head' := octet(x.kind) + (text(x.name) + text(x.source)), octet(y.kind) + (text(y.name) + text(y.source));
    var tail, tail' := text(x.target) + flag(x.readOnly), text(y.target) + flag(y.readOnly);
    assert head + tail + r == head + (tail + r);
    assert head' + tail' + s == head' + (tail' + s);
    WorkloadDigest.TripleSplits(octet, text, text, x.kind, x.name, x.source, y.kind, y.name, y.source, tail + r,
                                tail' + s);
    WorkloadDigest.PairSplits(text, flag, x.target, x.readOnly, y.target, y.readOnly, r, s);
  }

  lemma {:induction false} RuntimeMountIsUnique()
    ensures Unique(RuntimeMountBytes)
  {
    OneByteCodesAreUnique();
    TextIsUnique();
    forall x: RuntimeMount, y: RuntimeMount, r: Bytes, s: Bytes | RuntimeMountBytes(x) + r == RuntimeMountBytes(y) + s
      ensures x == y && r == s
    {
      RuntimeMountSplits(Octet, TextBytes, Flag, x, y, r, s);
    }
  }

  /** The digest is computed over the source and the mounts in the order of their targets. */
  function StoragePreimage(source: Digest, observed: seq<RuntimeMount>): Bytes {
    [1] + DigestBytes(source) + Listed(Sorting.Ordered(observed, TargetOf), RuntimeMountBytes)
  }

  method AppendRuntimeMount(encoded: Bytes, value: RuntimeMount) returns (longer: Bytes)
    ensures longer == encoded + RuntimeMountBytes(value)
  {
    longer := encoded + [value.kind];
    longer := AppendString(longer, value.name);
    longer := AppendString(longer, value.source);
    ghost var place := longer;
    longer := AppendString(longer, value.target);
    longer := AppendBool(longer, value.readOnly);
    JoinThree(encoded, Octet(value.kind), TextBytes(value.name), TextBytes(value.source));
  }

  /** The desired mounts by target; None when a target is empty or repeated. */
  method DesiredByTarget(mounts: seq<Mount>) returns (desired: Option<map<Text, Mount>>)
    ensures desired.Some? <==> DistinctMounts(mounts)
    ensures desired.Some? ==> Indexes(desired.value, mounts)
  {
    var table: map<Text, Mount> := map[];
    for i := 0 to |mounts|
      invariant DistinctMounts(mounts[..i]) && Indexes(table, mounts[..i])
    {
      var value := mounts[i];
      if value.target == [] {
        return None;
      }
      if value.target in table {
        return None;
      }
      table := table[value.target := value];
    }
    assert mounts[..|mounts|] == mounts;
    return Some(table);
  }

  predicate Indexes(table: map<Text, Mount>, mounts: seq<Mount>) {
    (forall j | 0 <= j < |mounts| :: mounts[j].target in table && table[mounts[j].target] == mounts[j]) &&
    forall target | target in table :: exists j | 0 <= j < |mounts| :: mounts[j].target == target
  }

  lemma {:induction false} IndexedIsWanted(table: map<Text, Mount>, mounts: seq<Mount>, value: RuntimeMount)
    requires Indexes(table, mounts)
    ensures Wanted(mounts, value) <==> value.target in table && Agrees(value, table[value.target])
  {
    if value.target in table {
      var j :| 0 <= j < |mounts| && mounts[j].target == value.target;
    }
  }

  /** What is left of the desired mounts once the first n reported ones have been matched. */
  ghost predicate Unmatched(left: map<Text, Mount>, desired: map<Text, Mount>, ordered: seq<RuntimeMount>, n: nat)
    requires n <= |ordered|
  {
    forall target: Text ::
      (target in left <==> target in desired && forall k | 0 <= k < n :: ordered[k].target != target) &&
      (target in left ==> left[target] == desired[target])
  }

  /** A target that no match has used up comes after all that have been matched. */
  lemma {:induction false} NextTarget(ordered: seq<RuntimeMount>, i: nat)
    requires Sorting.InOrder(ordered, TargetOf) && i < |ordered| && Sorting.KeysIncrease(ordered[..i], TargetOf)
    requires i > 0 ==> ordered[i - 1].target != ordered[i].target
    ensures Sorting.KeysIncrease(ordered[..i + 1], TargetOf)
    ensures forall k | 0 <= k < i :: ordered[k].target != ordered[i].target
  {
    forall k | 0 <= k < i
      ensures Ordering.Less(ordered[k].target, ordered[i].target)
    {
      Ordering.LessIsTotal(ordered[i - 1].target, ordered[i].target);
      if k < i - 1 {
        assert Ordering.Less(ordered[..i][k].target, ordered[..i][i - 1].target);
        Ordering.LessIsTransitive(ordered[k].target, ordered[i - 1].target, ordered[i].target);
      }
      Ordering.LessIsTotal(ordered[k].target, ordered[i].target);
    }
  }

  /** The sorted sources match the desired mounts one to one. */
  predicate Pairs(mounts: seq<Mount>, ordered: seq<RuntimeMount>) {
    Sorting.KeysIncrease(ordered, TargetOf) && (forall i | 0 <= i < |ordered| :: Wanted(mounts, ordered[i])) &&
    forall j | 0 <= j < |mounts| :: Provided(ordered, mounts[j])
  }

  lemma {:induction false} PairsIsAccepted(
      source: Digest, mounts: seq<Mount>, ordered: seq<RuntimeMount>, observed: seq<RuntimeMount>)
    requires source != ZERO_DIGEST && DistinctMounts(mounts) && Sorting.Sorts(ordered, observed, TargetOf)
    ensures Pairs(mounts, ordered) <==> Accepted(source, mounts, observed)
  {
    if Pairs(mounts, ordered) {
      forall i, j | 0 <= i < j < |ordered|
        ensures ordered[i].target != ordered[j].target
      {
        Ordering.LessIsTotal(ordered[i].target, ordered[j].target);
      }
      AcceptedPermutes(source, mounts, ordered, mounts, observed);
    }
    if Accepted(source, mounts, observed) {
      AcceptedPermutes(source, mounts, observed, mounts, ordered);
      Sorting.DistinctIncrease(ordered, TargetOf);
    }
  }

  lemma {:induction false} NothingIsLeft(
      left: map<Text, Mount>, desired: map<Text, Mount>, mounts: seq<Mount>, ordered: seq<RuntimeMount>)
    requires Indexes(desired, mounts) && Unmatched(left, desired, ordered, |ordered|)
    ensures left == map[] <==> forall j | 0 <= j < |mounts| :: Provided(ordered, mounts[j])
  {
    if left == map[] {
      forall j | 0 <= j < |mounts|
        ensures Provided(ordered, mounts[j])
      {
        assert mounts[j].target in desired;
      }
    } else {
      var target :| target in left;
      var j :| 0 <= j < |mounts| && mounts[j].target == target;
      assert !Provided(ordered, mounts[j]);
    }
  }

  /** The first n sources have been matched with what is no longer left. */
  ghost predicate Crossed(
    left: map<Text, Mount>, desired: map<Text, Mount>, mounts: seq<Mount>, ordered: seq<RuntimeMount>, n: nat)
  {
    n <= |ordered| && Indexes(desired, mounts) && Sorting.InOrder(ordered, TargetOf) &&
    Sorting.KeysIncrease(ordered[..n], TargetOf) &&
    Unmatched(left, desired, ordered, n) && forall k | 0 <= k < n :: Wanted(mounts, ordered[k])
  }

  lemma {:induction false} CrossOff(
      left: map<Text, Mount>, desired: map<Text, Mount>, mounts: seq<Mount>, ordered: seq<RuntimeMount>, n: nat)
    requires Crossed(left, desired, mounts, ordered, n) && n < |ordered|
    requires n > 0 ==> ordered[n - 1].target != ordered[n].target
    ensures
      var target := ordered[n].target;
      if target in left && Agrees(ordered[n], left[target])
      then Crossed(left - {target}, desired, mounts, ordered, n + 1) else !Pairs(mounts, ordered)
  {
    NextTarget(ordered, n);
    IndexedIsWanted(desired, mounts, ordered[n]);
  }

  lemma {:induction false} RepeatedIsRefused(mounts: seq<Mount>, ordered: seq<RuntimeMount>, n: nat)
    requires 0 < n < |ordered| && ordered[n - 1].target == ordered[n].target
    ensures !Pairs(mounts, ordered)
  {
    Ordering.LessIsTotal(ordered[n].target, ordered[n].target);
  }

  lemma {:induction false} AllCrossed(
      left: map<Text, Mount>, desired: map<Text, Mount>, mounts: seq<Mount>, ordered: seq<RuntimeMount>)
    requires Crossed(left, desired, mounts, ordered, |ordered|)
    ensures left == map[] <==> Pairs(mounts, ordered)
  {
    assert ordered[..|ordered|] == ordered;
    NothingIsLeft(left, desired, mounts, ordered);
  }

  /** Walks the sorted sources and crosses off the desired mount of each. */
  method MatchMounts(encoded: Bytes, desired: map<Text, Mount>, ordered: seq<RuntimeMount>, ghost mounts: seq<Mount>)
    returns (longer: Option<Bytes>)
    requires Crossed(desired, desired, mounts, ordered, 0)
    ensures longer ==
            if Pairs(mounts, ordered) then Some(encoded + Each(ordered, RuntimeMountBytes)) else None
  {
    var left, bytes := desired, encoded;
    for index := 0 to |ordered|
      invariant Crossed(left, desired, mounts, ordered, index)
      invariant bytes == encoded + Each(ordered[..index], RuntimeMountBytes)
    {
      var value := ordered[index];
      if index > 0 && ordered[index - 1].target == value.target {
        RepeatedIsRefused(mounts, ordered, index);
        return None;
      }
      CrossOff(left, desired, mounts, ordered, index);
      if value.target !in left || !MatchesPolicy(value, left[value.target]) {
        return None;
      }
      left := left - {value.target};
      bytes := AppendRuntimeMount(bytes, value);
      JoinEach(encoded, ordered, RuntimeMountBytes, index);
    }
    EachAll(ordered, RuntimeMountBytes);
    AllCrossed(left, desired, mounts, ordered);
    return if left == map[] then Some(bytes) else None;
  }

  /** Accepts exactly the observations that match the desired mounts one to one. */
  method ComputeStorageDigest(source: Digest, mounts: seq<Mount>, observed: seq<RuntimeMount>)
    returns (preimage: Option<Bytes>)
    ensures preimage == if Accepted(source, mounts, observed) then Some(StoragePreimage(source, observed)) else None
  {
    if source == ZERO_DIGEST {
      return None;
    }
    var desired := DesiredByTarget(mounts);
    if desired.None? {
      return None;
    }
    var ordered := Sorting.SortByKey(observed, TargetOf);
    var encoded := [1] + DigestBytes(source);
    encoded := encoded + Uvarint(|ordered|);
    preimage := MatchMounts(encoded, desired.value, ordered, mounts);
    PairsIsAccepted(source, mounts, ordered, observed);
    if preimage.Some? {
      Sorting.SortedIsOrdered(ordered, observed, TargetOf);
      EachAll(ordered, RuntimeMountBytes);
      JoinList([1] + DigestBytes(source), ordered, RuntimeMountBytes);
    }
  }

  /** The checks on one reported source, in the order in which they are made. */
  predicate MatchesPolicy(value: RuntimeMount, expected: Mount)
    ensures MatchesPolicy(value, expected) <==> Agrees(value, expected)
  {
    if value.kind != expected.kind || value.readOnly != expected.readOnly || value.source == [] then false
    else if value.kind == MOUNT_BIND then !(value.name != [] || value.source != expected.source)
    else if value.kind == MOUNT_VOLUME then !(value.name == [] || expected.source != [] || expected.readOnly)
    else false
  }

  // ---------- what the digest depends on ----------

  /** The order in which either list is given changes neither the verdict nor the pre-image. */
  lemma {:induction false} OrderDoesNotMatter(
      source: Digest, mounts: seq<Mount>, observed: seq<RuntimeMount>,
      mounts': seq<Mount>, observed': seq<RuntimeMount>)
    requires multiset(mounts) == multiset(mounts') && multiset(observed) == multiset(observed')
    ensures Accepted(source, mounts, observed) <==> Accepted(source, mounts', observed')
    ensures Accepted(source, mounts, observed) ==>
              StoragePreimage(source, observed) == StoragePreimage(source, observed')
  {
    if Accepted(source, mounts, observed) {
      AcceptedPermutes(source, mounts, observed, mounts', observed');
      Sorting.OrderedPermutes(observed, observed', TargetOf);
    }
    if Accepted(source, mounts', observed') {
      AcceptedPermutes(source, mounts', observed', mounts, observed);
    }
  }

  lemma {:induction false} StorageSplits(
      digest: Digest -> Bytes, mount: RuntimeMount -> Bytes, x: Digest, y: Digest,
      left: seq<RuntimeMount>, right: seq<RuntimeMount>)
    requires Unique(digest) && Unique(mount)
    requires [1] + digest(x) + Listed(left, mount) == [1] + digest(y) + Listed(right, mount)
    ensures x == y && left == right
  {
    assert [1] + digest(x) + Listed(left, mount) == [1] + (digest(x) + Listed(left, mount));
    assert [1] + digest(y) + Listed(right, mount) == [1] + (digest(y) + Listed(right, mount));
    SplitsAt([1], [1], digest(x) + Listed(left, mount), digest(y) + Listed(right, mount));
    assert Listed(left, mount) + [] == Listed(right, mount) + [];
    ListedUnique(left, right, mount, [], []);
  }

  /** Equal pre-images mean the same source and the same reported mounts, up to their order. */
  lemma {:induction false} StorageDigestIdentifies(
      source: Digest, observed: seq<RuntimeMount>, source': Digest, observed': seq<RuntimeMount>)
    requires StoragePreimage(source, observed) == StoragePreimage(source', observed')
    ensures source == source' && multiset(observed) == multiset(observed')
  {
    DigestIsUnique();
    RuntimeMountIsUnique();
    StorageSplits(DigestBytes, RuntimeMountBytes, source, source', Sorting.Ordered(observed, TargetOf),
                  Sorting.Ordered(observed', TargetOf));
    Sorting.OrderedSorts(observed, TargetOf);
    Sorting.OrderedSorts(observed', TargetOf);
  }
}
