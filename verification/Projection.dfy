/** What containerd is asked for on behalf of an accepted configuration, said of the configuration itself. */
module Projection {
  import opened Containerd
  import opened Sorting
  import opened Specs
  import opened Values
  import Cpu
  import Decimals
  import Ordering
  import Paths

  // ---------- mounts ----------

  /** The bytes of "/dev/shm". */
  function SharedMemoryTarget(): Text {
    Ascii("/dev/shm")
  }

  /** A bind mount: recursive, private, and read-only exactly when that is asked for. */
  ghost predicate IsBind(m: Mount, e: OCIMount) {
    m.kind == MOUNT_BIND && e.destination == m.target && e.kind == Ascii("bind") && e.source == m.source &&
    |e.options| == 3 && e.options[0] == Ascii("rbind") && e.options[2] == Ascii("rprivate") &&
    if m.readOnly then e.options[1] == Ascii("ro") else e.options[1] == Ascii("rw")
  }

  ghost predicate IsTmpfs(t: Tmpfs, e: OCIMount) {
    e.destination == t.target && e.kind == Ascii("tmpfs") && e.source == Ascii("tmpfs") &&
    e.options == [Ascii("nosuid"), Ascii("nodev")] + Items(t.options)
  }

  /** Shared memory of the size asked for, or of 64 MiB, unless something is mounted over it. */
  ghost predicate IsSharedMemory(s: Spec, e: OCIMount) {
    (forall m | m in s.mounts :: m.target != SharedMemoryTarget()) &&
    (forall t | t in s.tmpfs :: t.target != SharedMemoryTarget()) &&
    e.destination == SharedMemoryTarget() && e.kind == Ascii("tmpfs") && e.source == Ascii("shm") &&
    e.options == SharedMemoryOptions(if s.sharedMemoryBytes > 0 then s.sharedMemoryBytes else 67108864)
  }

  function SharedMemoryOptions(size: nat): seq<Text> {
    [Ascii("nosuid"), Ascii("noexec"), Ascii("nodev"), Ascii("mode=1777"), Ascii("size=") + Decimals.Format(size)]
  }

  ghost predicate IsAsked(s: Spec, e: OCIMount) {
    (exists m | m in s.mounts :: IsBind(m, e)) || (exists t | t in s.tmpfs :: IsTmpfs(t, e)) || IsSharedMemory(s, e)
  }

  function Destination(e: OCIMount): Text { e.destination }

  /** Behind the defaults come exactly the mounts that the configuration asks for, each at a place of
      its own. */
  ghost predicate MountsMean(lib: Library, s: Spec, mounts: seq<OCIMount>) {
    |mounts| >= |lib.defaultMounts| && mounts[..|lib.defaultMounts|] == lib.defaultMounts &&
    var asked := mounts[|lib.defaultMounts|..];
    DistinctKeys(asked, Destination) && forall e: OCIMount :: e in asked <==> IsAsked(s, e)
  }

  // ---------- the process ----------

  predicate IsNumber(text: Text, n: nat) {
    text != [] && Decimals.AllDigits(text) && Decimals.Number(text) == n < Decimals.LIMIT32
  }

  /** Nobody named is root; one number names the user and the group, two name one each. */
  ghost predicate RunsAs(value: Text, user: User) {
    if value == [] then user == User(0, 0)
    else if 58 in value then
      exists i | 0 <= i < |value| ::
        value[i] == 58 && 58 !in value[..i] && IsNumber(value[..i], user.uid) && IsNumber(value[i + 1..], user.gid)
    else IsNumber(value, user.uid) && user.gid == user.uid
  }

  ghost predicate GroupsMean(s: Spec, groups: Option<seq<nat>>) {
    |Items(groups)| == |Items(s.groupAdd)| && (groups.None? <==> Items(s.groupAdd) == []) &&
    forall n: nat :: n in Items(groups) <==> exists t | t in Items(s.groupAdd) :: IsNumber(t, n)
  }

  /** A default is kept unless it, or all, is dropped; whatever is added is there. */
  ghost predicate Granted(lib: Library, s: Spec, name: Text) {
    (name in lib.defaultCapabilities && name !in NamesOf(lib, s.capDrop) && Ascii("ALL") !in NamesOf(lib, s.capDrop)) ||
    name in NamesOf(lib, s.capAdd)
  }

  ghost predicate CapabilitiesMean(lib: Library, s: Spec, names: Option<seq<Text>>) {
    names.Some? && KeysIncrease(names.value, TextKey) &&
    forall name: Text :: name in names.value <==> Granted(lib, s, name)
  }

  /** Minus one stands for no limit, all bits set. */
  predicate IsLimit(value: int, bits: nat) {
    if value == -1 then bits == 0xFFFF_FFFF_FFFF_FFFF else bits == value
  }

  ghost predicate IsRlimit(lib: Library, u: Ulimit, r: Rlimit) {
    r.kind == Ascii("RLIMIT_") + lib.upper(u.name) && IsLimit(u.soft, r.soft) && IsLimit(u.hard, r.hard)
  }

  ghost predicate RlimitsMean(lib: Library, s: Spec, limits: Option<seq<Rlimit>>) {
    |Items(limits)| == |s.ulimits| &&
    forall r: Rlimit :: r in Items(limits) <==> exists u | u in s.ulimits :: IsRlimit(lib, u, r)
  }

  ghost predicate ProcessMeans(lib: Library, s: Spec, p: Process) {
    (p.terminal <==> s.tty == Some(true)) && RunsAs(s.user, p.user.user) && GroupsMean(s, p.user.groups) &&
    p.args == Items(s.entrypoint) + Items(s.command) &&
    multiset(Items(p.env)) == multiset(Items(s.environment)) &&
    p.cwd == (if s.workingDirectory == [] then Ascii("/") else s.workingDirectory) &&
    CapabilitiesMean(lib, s, p.capabilities) && RlimitsMean(lib, s, p.rlimits) &&
    p.noNewPrivileges == s.noNewPrivileges && p.oomScoreAdj == s.oomScoreAdj
  }

  // ---------- resources and namespaces ----------

  /** No limit when none is asked for; else as many microseconds of every 100,000 as the text says. */
  predicate CpuMeans(cpus: Text, limit: Option<CPULimit>) {
    if cpus == [] then limit.None?
    else Cpu.IsDecimal(cpus) && limit == Some(CPULimit(100_000, Cpu.Billionths(cpus) / 10_000))
  }

  predicate ResourcesMean(s: Spec, r: Resources) {
    (r.memory.None? <==> s.memoryBytes == 0 && s.oomKillDisable.None?) &&
    (r.memory.Some? ==>
       r.memory.value.limit == (if s.memoryBytes == 0 then None else Some(s.memoryBytes)) &&
       r.memory.value.disableOOMKiller == s.oomKillDisable) &&
    r.pids == s.pidsLimit && r.weight == s.blkioWeight && CpuMeans(s.cpus, r.cpu)
  }

  ghost predicate LinuxMeans(lib: Library, s: Spec, l: Linux) {
    (if s.sysctls.Some? && s.sysctls.value != map[] then l.sysctl == s.sysctls else l.sysctl.None?) &&
    l.resources.Some? && ResourcesMean(s, l.resources.value) &&
    (forall n: Namespace :: n in l.namespaces <==> !n.CgroupNamespace? || s.cgroup == Ascii("private")) &&
    l.maskedPaths == lib.maskedPaths && l.readonlyPaths == lib.readonlyPaths
  }

  ghost predicate Means(lib: Library, s: Spec, oci: OCI) {
    oci.process.Some? && ProcessMeans(lib, s, oci.process.value) && oci.linux.Some? &&
    LinuxMeans(lib, s, oci.linux.value) && oci.rootReadonly == Some(s.readOnly == Some(true)) &&
    oci.hostname == s.hostname && MountsMean(lib, s, oci.mounts) && !oci.others
  }

  // ---------- the mounts of the projection ----------

  lemma {:induction false} OneBind(m: Mount, e: OCIMount)
    ensures e in BindMount(m) <==> IsBind(m, e)
    ensures IsBind(m, e) ==> (Ascii("ro") in e.options <==> m.readOnly)
  {
    assert Ascii("ro")[1] == 111 && Ascii("rw")[1] == 119 && Ascii("rbind")[1] == 98 && Ascii("rprivate")[1] == 112;
    if IsBind(m, e) {
      assert e.options == [e.options[0], e.options[1], e.options[2]];
    }
  }

  lemma {:induction false} BindsExactly(mounts: seq<Mount>, e: OCIMount)
    ensures e in BindMounts(mounts) <==> exists m | m in mounts :: IsBind(m, e)
  {
    if mounts != [] {
      var n := |mounts| - 1;
      BindsExactly(mounts[..n], e);
      OneBind(mounts[n], e);
      assert mounts == mounts[..n] + [mounts[n]];
    }
  }

  lemma {:induction false} TmpfsExactly(values: seq<Tmpfs>, e: OCIMount)
    ensures e in Mapped(values, TmpfsMount) <==> exists t | t in values :: IsTmpfs(t, e)
  {
    var mounts := Mapped(values, TmpfsMount);
    forall i | 0 <= i < |values|
      ensures mounts[i] == TmpfsMount(values[i]) && (mounts[i] == e <==> IsTmpfs(values[i], e))
    {
    }
    if e in mounts {
      var i :| 0 <= i < |mounts| && mounts[i] == e;
      assert values[i] in values && IsTmpfs(values[i], e);
    }
    if exists t | t in values :: IsTmpfs(t, e) {
      var t :| t in values && IsTmpfs(t, e);
      var i :| 0 <= i < |values| && values[i] == t;
      assert mounts[i] == e;
    }
  }

  lemma {:induction false} SharedMemoryExactly(s: Spec, e: OCIMount)
    ensures e in SharedMemory(s) <==> IsSharedMemory(s, e)
  {
  }

  // ---------- each at a place of its own ----------

  lemma {:induction false} DistinctJoin(left: seq<OCIMount>, right: seq<OCIMount>)
    requires DistinctKeys(left, Destination) && DistinctKeys(right, Destination)
    requires forall x, y | x in left && y in right :: Destination(x) != Destination(y)
    ensures DistinctKeys(left + right, Destination)
  {
    var all := left + right;
    forall i, j | 0 <= i < j < |all|
      ensures Destination(all[i]) != Destination(all[j])
    {
      if i < |left| <= j {
        assert all[i] in left && all[j] in right;
      }
    }
  }

  lemma {:induction false} BindsDiffer(mounts: seq<Mount>)
    requires DistinctKeys(mounts, MountKey)
    ensures DistinctKeys(BindMounts(mounts), Destination)
  {
    if mounts != [] {
      var n := |mounts| - 1;
      BindsDiffer(mounts[..n]);
      forall x, y | x in BindMounts(mounts[..n]) && y in BindMount(mounts[n])
        ensures Destination(x) != Destination(y)
      {
        BindsExactly(mounts[..n], x);
        OneBind(mounts[n], y);
        var m :| m in mounts[..n] && IsBind(m, x);
        var i :| 0 <= i < n && mounts[i] == m;
        assert MountKey(mounts[i]) != MountKey(mounts[n]);
      }
      DistinctJoin(BindMounts(mounts[..n]), BindMount(mounts[n]));
    }
  }

  lemma {:induction false} TmpfsDiffer(values: seq<Tmpfs>)
    requires DistinctKeys(values, TmpfsKey)
    ensures DistinctKeys(Mapped(values, TmpfsMount), Destination)
  {
    forall i, j | 0 <= i < j < |values|
      ensures Destination(Mapped(values, TmpfsMount)[i]) != Destination(Mapped(values, TmpfsMount)[j])
    {
      assert TmpfsKey(values[i]) != TmpfsKey(values[j]);
      assert Mapped(values, TmpfsMount)[i] == TmpfsMount(values[i]);
      assert Mapped(values, TmpfsMount)[j] == TmpfsMount(values[j]);
    }
  }

  /** Keys from two lists behind one another differ. */
  lemma {:induction false} JoinedKeysDiffer(a: seq<Text>, b: seq<Text>, c: seq<Text>, j: nat, i: nat)
    requires DistinctKeys(a + b + c, TextKey) && j < |b| && i < |c|
    ensures b[j] != c[i]
  {
    var all := a + b + c;
    assert all[|a| + j] == b[j] && all[|a| + |b| + i] == c[i];
    assert TextKey(all[|a| + j]) != TextKey(all[|a| + |b| + i]);
  }

  /** A mount and a tmpfs of a valid configuration have different targets. */
  lemma {:induction false} TargetsApart(s: Spec, m: Mount, t: Tmpfs)
    requires DistinctKeys(Targets(s), TextKey) && m in s.mounts && t in s.tmpfs
    ensures m.target != t.target
  {
    var i :| 0 <= i < |s.mounts| && s.mounts[i] == m;
    var j :| 0 <= j < |s.tmpfs| && s.tmpfs[j] == t;
    var devices, tmpfs, mounts := Mapped(s.devices, DeviceKey), Mapped(s.tmpfs, TmpfsKey), Mapped(s.mounts, MountKey);
    assert tmpfs[j] == TmpfsKey(t) && mounts[i] == MountKey(m);
    JoinedKeysDiffer(devices, tmpfs, mounts, j, i);
  }

  lemma {:induction false} BindsApart(s: Spec, x: OCIMount, y: OCIMount)
    requires DistinctKeys(Targets(s), TextKey) && x in BindMounts(s.mounts) && y in Mapped(s.tmpfs, TmpfsMount)
    ensures Destination(x) != Destination(y)
  {
    BindsExactly(s.mounts, x);
    TmpfsExactly(s.tmpfs, y);
    var m :| m in s.mounts && IsBind(m, x);
    var t :| t in s.tmpfs && IsTmpfs(t, y);
    TargetsApart(s, m, t);
  }

  lemma {:induction false} SharedMemoryApart(s: Spec, x: OCIMount, y: OCIMount)
    requires x in BindMounts(s.mounts) || x in Mapped(s.tmpfs, TmpfsMount)
    requires y in SharedMemory(s)
    ensures Destination(x) != Destination(y)
  {
    SharedMemoryExactly(s, y);
    BindsExactly(s.mounts, x);
    TmpfsExactly(s.tmpfs, x);
  }

  lemma {:induction false} SharedMemoryIsOne(s: Spec)
    ensures |SharedMemory(s)| <= 1
  {
  }

  lemma {:induction false} AllDiffer(binds: seq<OCIMount>, tmpfs: seq<OCIMount>, shared: seq<OCIMount>)
    requires DistinctKeys(binds, Destination) && DistinctKeys(tmpfs, Destination) && |shared| <= 1
    requires forall x, y | x in binds && y in tmpfs :: Destination(x) != Destination(y)
    requires forall x, y | x in binds + tmpfs && y in shared :: Destination(x) != Destination(y)
    ensures DistinctKeys(binds + tmpfs + shared, Destination)
  {
    DistinctJoin(binds, tmpfs);
    DistinctJoin(binds + tmpfs, shared);
  }

  lemma {:induction false} AskedDiffer(s: Spec)
    requires DistinctKeys(Targets(s), TextKey) && DistinctKeys(s.mounts, MountKey) && DistinctKeys(s.tmpfs, TmpfsKey)
    ensures DistinctKeys(BindMounts(s.mounts) + Mapped(s.tmpfs, TmpfsMount) + SharedMemory(s), Destination)
  {
    var binds, tmpfs, shared := BindMounts(s.mounts), Mapped(s.tmpfs, TmpfsMount), SharedMemory(s);
    BindsDiffer(s.mounts);
    TmpfsDiffer(s.tmpfs);
    SharedMemoryIsOne(s);
    forall x, y | x in binds && y in tmpfs
      ensures Destination(x) != Destination(y)
    {
      BindsApart(s, x, y);
    }
    forall x, y | x in binds + tmpfs && y in shared
      ensures Destination(x) != Destination(y)
    {
      SharedMemoryApart(s, x, y);
    }
    AllDiffer(binds, tmpfs, shared);
  }

  lemma {:induction false} AskedExactly(s: Spec, e: OCIMount)
    ensures e in BindMounts(s.mounts) + Mapped(s.tmpfs, TmpfsMount) + SharedMemory(s) <==> IsAsked(s, e)
  {
    BindsExactly(s.mounts, e);
    TmpfsExactly(s.tmpfs, e);
    SharedMemoryExactly(s, e);
  }

  /** The order of mounts and tmpfs does not matter to what is asked for. */
  lemma {:induction false} AskedPermutes(s: Spec, e: OCIMount)
    ensures IsAsked(Canonical(s), e) <==> IsAsked(s, e)
  {
    SameMembers(s.mounts, MountKey);
    SameMembers(s.tmpfs, TmpfsKey);
  }

  lemma {:induction false} SameMembers<T>(values: seq<T>, key: T -> Text)
    ensures |Ordered(values, key)| == |values| && forall v: T :: v in Ordered(values, key) <==> v in values
  {
    OrderedSorts(values, key);
    assert |multiset(Ordered(values, key))| == |multiset(values)|;
    forall v: T
      ensures v in Ordered(values, key) <==> v in values
    {
      assert v in Ordered(values, key) <==> v in multiset(Ordered(values, key));
    }
  }

  lemma {:induction false} RecordsDiffer(lib: Library, s: Spec)
    requires ValidRecordLists(lib, s)
    ensures DistinctKeys(Targets(s), TextKey) && DistinctKeys(s.mounts, MountKey) && DistinctKeys(s.tmpfs, TmpfsKey)
  {
  }

  lemma {:induction false} AskedBehind(lib: Library, s: Spec)
    ensures
      var asked := BindMounts(s.mounts) + Mapped(s.tmpfs, TmpfsMount) + SharedMemory(s);
      EncodedMounts(lib, s)[..|lib.defaultMounts|] == lib.defaultMounts &&
      EncodedMounts(lib, s)[|lib.defaultMounts|..] == asked
  {
    var asked := BindMounts(s.mounts) + Mapped(s.tmpfs, TmpfsMount) + SharedMemory(s);
    assert EncodedMounts(lib, s) == lib.defaultMounts + asked;
  }

  lemma {:induction false} MountsAreMeant(lib: Library, s: Spec)
    requires ValidRecordLists(lib, Canonical(s))
    ensures MountsMean(lib, s, EncodedMounts(lib, Canonical(s)))
  {
    RecordsDiffer(lib, Canonical(s));
    AskedDiffer(Canonical(s));
    AskedBehind(lib, Canonical(s));
    forall e: OCIMount
      ensures e in EncodedMounts(lib, Canonical(s))[|lib.defaultMounts|..] <==> IsAsked(s, e)
    {
      AskedExactly(Canonical(s), e);
      AskedPermutes(s, e);
    }
  }

  // ---------- the rest of the projection ----------

  lemma {:induction false} UserIsMeant(value: Text)
    requires ParsedUser(value).Some?
    ensures RunsAs(value, ParsedUser(value).value)
  {
    var (left, right, found) := Decimals.Cut(value, 58);
    if found {
      var i := |left|;
      assert value[i] == 58 && value[..i] == left && value[i + 1..] == right;
    }
  }

  lemma {:induction false} StringsAreSame(values: Option<seq<Text>>)
    ensures |Items(CanonicalStrings(values))| == |Items(values)|
    ensures forall v: Text :: v in Items(CanonicalStrings(values)) <==> v in Items(values)
    ensures CanonicalStrings(values).None? <==> Items(values) == []
  {
    SameMembers(Items(values), TextKey);
  }

  lemma {:induction false} GroupsAreMeant(s: Spec)
    requires EachValid(s.groupAdd, ValidGroup)
    ensures GroupsMean(s, ParsedGroups(CanonicalStrings(s.groupAdd)))
  {
    var values := CanonicalStrings(s.groupAdd);
    StringsAreSame(s.groupAdd);
    var groups := Items(ParsedGroups(values));
    forall i | 0 <= i < |Items(values)|
      ensures IsNumber(Items(values)[i], groups[i])
    {
      assert Items(values)[i] in Items(values);
      var j :| 0 <= j < |Items(s.groupAdd)| && Items(s.groupAdd)[j] == Items(values)[i];
      assert ValidGroup(Items(s.groupAdd)[j]);
    }
    forall n: nat
      ensures n in groups <==> exists t | t in Items(s.groupAdd) :: IsNumber(t, n)
    {
      if n in groups {
        var i :| 0 <= i < |groups| && groups[i] == n;
        assert Items(values)[i] in Items(s.groupAdd);
      }
      if exists t | t in Items(s.groupAdd) :: IsNumber(t, n) {
        var t :| t in Items(s.groupAdd) && IsNumber(t, n);
        var i :| 0 <= i < |Items(values)| && Items(values)[i] == t;
        assert groups[i] == n;
      }
    }
  }

  lemma {:induction false} NamesPermute(lib: Library, values: Option<seq<Text>>)
    ensures NamesOf(lib, CanonicalStrings(values)) == NamesOf(lib, values)
  {
    StringsAreSame(values);
  }

  lemma {:induction false} CapabilitiesAreMeant(lib: Library, s: Spec)
    ensures
      CapabilitiesMean(
        lib, s, Some(EffectiveCapabilities(lib, CanonicalStrings(s.capAdd), CanonicalStrings(s.capDrop))))
  {
    NamesPermute(lib, s.capAdd);
    NamesPermute(lib, s.capDrop);
    var names := EffectiveSet(lib, CanonicalStrings(s.capAdd), CanonicalStrings(s.capDrop));
    Ordering.AscendingIncreases(names);
  }

  lemma {:induction false} RlimitIsMeant(lib: Library, u: Ulimit, r: Rlimit)
    requires ValidUlimit(u)
    ensures EncodedRlimit(lib)(u) == r <==> IsRlimit(lib, u, r)
  {
    assert RLIMIT == Ascii("RLIMIT_");
  }

  lemma {:induction false} RlimitsAreMeant(lib: Library, s: Spec)
    requires forall u | u in s.ulimits :: ValidUlimit(u)
    ensures RlimitsMean(lib, s, Listed(Mapped(Ordered(s.ulimits, UlimitKey), EncodedRlimit(lib))))
  {
    var values := Ordered(s.ulimits, UlimitKey);
    var limits := Mapped(values, EncodedRlimit(lib));
    SameMembers(s.ulimits, UlimitKey);
    forall r: Rlimit
      ensures r in limits <==> exists u | u in s.ulimits :: IsRlimit(lib, u, r)
    {
      if r in limits {
        var i :| 0 <= i < |limits| && limits[i] == r;
        RlimitIsMeant(lib, values[i], r);
        assert values[i] in s.ulimits;
      }
      if exists u | u in s.ulimits :: IsRlimit(lib, u, r) {
        var u :| u in s.ulimits && IsRlimit(lib, u, r);
        var i :| 0 <= i < |values| && values[i] == u;
        RlimitIsMeant(lib, u, r);
        assert limits[i] == r;
      }
    }
  }

  lemma {:induction false} EnvironmentPermutes(s: Spec)
    ensures multiset(Items(CanonicalStrings(s.environment))) == multiset(Items(s.environment))
  {
    CanonicalStringsTwice(s.environment);
  }

  lemma {:induction false} ProcessIsMeant(lib: Library, s: Spec)
    requires ParsedUser(s.user).Some? && EachValid(s.groupAdd, ValidGroup)
    requires forall u | u in s.ulimits :: ValidUlimit(u)
    ensures ProcessMeans(lib, s, EncodeProcess(lib, Canonical(s)))
  {
    UserIsMeant(s.user);
    GroupsAreMeant(s);
    CapabilitiesAreMeant(lib, s);
    RlimitsAreMeant(lib, s);
    EnvironmentPermutes(s);
    assert Ascii("/") == [Paths.SLASH];
  }

  lemma {:induction false} ResourcesAreMeant(s: Spec)
    requires Cpu.ContainerdQuota(s.cpus).Some?
    ensures ResourcesMean(s, EncodedResources(s))
  {
    if s.cpus != [] {
      Cpu.ContainerdReads(s.cpus);
    }
  }

  lemma {:induction false} NamespacesAreMeant(cgroup: Text, n: Namespace)
    ensures n in EncodedNamespaces(cgroup) <==> !n.CgroupNamespace? || cgroup == Ascii("private")
  {
    var five := [PIDNamespace, IPCNamespace, UTSNamespace, MountNamespace, NetworkNamespace];
    assert five[0] == PIDNamespace && five[1] == IPCNamespace && five[2] == UTSNamespace &&
           five[3] == MountNamespace && five[4] == NetworkNamespace;
  }

  lemma {:induction false} ResourcesStay(s: Spec)
    ensures EncodedResources(Canonical(s)) == EncodedResources(s)
  {
  }

  /** The part of the projection that concerns the kernel. */
  function LinuxOf(lib: Library, s: Spec): Linux {
    Linux(Canonical(s).sysctls, Some(EncodedResources(s)), EncodedNamespaces(s.cgroup), lib.maskedPaths,
          lib.readonlyPaths)
  }

  lemma {:induction false} LinuxIsMeant(lib: Library, s: Spec)
    requires Cpu.ContainerdQuota(s.cpus).Some?
    ensures LinuxMeans(lib, s, LinuxOf(lib, s))
  {
    ResourcesAreMeant(s);
    forall n: Namespace
      ensures n in EncodedNamespaces(s.cgroup) <==> !n.CgroupNamespace? || s.cgroup == Ascii("private")
    {
      NamespacesAreMeant(s.cgroup, n);
    }
  }

  lemma {:induction false} OCIParts(lib: Library, s: Spec)
    ensures EncodeOCI(lib, Canonical(s)) ==
            OCI(Some(EncodeProcess(lib, Canonical(s))), Some(s.readOnly == Some(true)), s.hostname,
                EncodedMounts(lib, Canonical(s)), Some(LinuxOf(lib, s)), false)
  {
    ResourcesStay(s);
  }

  lemma {:induction false} PartsMean(lib: Library, s: Spec, p: Process, l: Linux, mounts: seq<OCIMount>)
    requires ProcessMeans(lib, s, p) && LinuxMeans(lib, s, l) && MountsMean(lib, s, mounts)
    ensures Means(lib, s, OCI(Some(p), Some(s.readOnly == Some(true)), s.hostname, mounts, Some(l), false))
  {
  }

  lemma {:induction false} AcceptedParts(lib: Library, s: Spec)
    requires CanonicalSpec(lib, s).Some?
    ensures ParsedUser(s.user).Some? && EachValid(s.groupAdd, ValidGroup) && Cpu.ContainerdQuota(s.cpus).Some?
    ensures (forall u | u in s.ulimits :: ValidUlimit(u)) && ValidRecordLists(lib, s)
  {
  }

  /** What is asked of containerd for an accepted configuration is what the configuration says. */
  lemma {:induction false} ProjectionMeans(lib: Library, s: Spec)
    requires Encode(lib, s).Some?
    ensures Means(lib, s, Encode(lib, s).value.oci)
  {
    AcceptedParts(lib, s);
    RecordListsStayValid(lib, s);
    ProcessIsMeant(lib, s);
    LinuxIsMeant(lib, s);
    MountsAreMeant(lib, s);
    OCIParts(lib, s);
    PartsMean(lib, s, EncodeProcess(lib, Canonical(s)), LinuxOf(lib, s), EncodedMounts(lib, Canonical(s)));
  }
}
