/** The containerd projection of a configuration, and its inverse. Case mapping, address parsing and
    the fixed parts of the projection are parameters. */
module Containerd {
  import opened Sorting
  import opened Specs
  import opened Values
  import Cpu
  import Decimals
  import Encoding
  import Ordering
  import Paths

  const MAXIMUM_TEXT: nat := 4096
  const UNLIMITED: nat := 0xFFFF_FFFF_FFFF_FFFF

  /** A mount of the OCI specification. */
  datatype OCIMount = OCIMount(destination: Text, kind: Text, source: Text, options: seq<Text>)

  /** What the adapter takes from its libraries, and the parts of the projection that never vary. */
  datatype Library = Library(
    upper: Text -> Text,
    lower: Text -> Text,
    validAddress: Text -> bool,
    supportedCapabilities: set<Text>,
    defaultCapabilities: set<Text>,
    defaultMounts: seq<OCIMount>,
    maskedPaths: seq<Text>,
    readonlyPaths: seq<Text>)

  // ---------- canonical form ----------

  function TextKey(value: Text): Text { value }

  function DeviceKey(value: Device): Text { value.target }

  function TmpfsKey(value: Tmpfs): Text { value.target }

  function UlimitKey(value: Ulimit): Text { value.name }

  function MountKey(value: Mount): Text { value.target }

  /** Ports are compared as numbers first, then by protocol. */
  function ExposedKey(value: ExposedPort): Text { Encoding.BigEndian(value.targetPort, 2) + value.protocol }

  function PortKey(value: PortBinding): Text { Encoding.BigEndian(value.targetPort, 2) + value.protocol }

  function CanonicalStrings(values: Option<seq<Text>>): Option<seq<Text>> {
    if Items(values) == [] then None else Some(Ordered(values.value, TextKey))
  }

  /** Lists whose order does not matter are sorted, and empty ones are absent. */
  function Canonical(s: Spec): Spec {
    s.(capAdd := CanonicalStrings(s.capAdd),
       capDrop := CanonicalStrings(s.capDrop),
       devices := Ordered(s.devices, DeviceKey),
       extraHosts := CanonicalStrings(s.extraHosts),
       groupAdd := CanonicalStrings(s.groupAdd),
       tmpfs := Ordered(s.tmpfs, TmpfsKey),
       ulimits := Ordered(s.ulimits, UlimitKey),
       environment := CanonicalStrings(s.environment),
       labels := CanonicalStrings(s.labels),
       exposedPorts := Ordered(s.exposedPorts, ExposedKey),
       ports := Ordered(s.ports, PortKey),
       mounts := Ordered(s.mounts, MountKey),
       sysctls := if s.sysctls == Some(map[]) then None else s.sysctls)
  }

  lemma {:induction false} CanonicalStringsTwice(values: Option<seq<Text>>)
    ensures CanonicalStrings(CanonicalStrings(values)) == CanonicalStrings(values)
    ensures multiset(Items(CanonicalStrings(values))) == multiset(Items(values))
  {
    if Items(values) != [] {
      OrderedTwice(values.value, TextKey);
      OrderedSorts(values.value, TextKey);
      assert |multiset(Ordered(values.value, TextKey))| == |multiset(values.value)|;
    }
  }

  /** The canonical form is its own. */
  lemma {:induction false} CanonicalTwice(s: Spec)
    ensures Canonical(Canonical(s)) == Canonical(s)
  {
    CanonicalStringsTwice(s.capAdd);
    CanonicalStringsTwice(s.capDrop);
    CanonicalStringsTwice(s.extraHosts);
    CanonicalStringsTwice(s.groupAdd);
    CanonicalStringsTwice(s.environment);
    CanonicalStringsTwice(s.labels);
    OrderedTwice(s.devices, DeviceKey);
    OrderedTwice(s.tmpfs, TmpfsKey);
    OrderedTwice(s.ulimits, UlimitKey);
    OrderedTwice(s.exposedPorts, ExposedKey);
    OrderedTwice(s.ports, PortKey);
    OrderedTwice(s.mounts, MountKey);
  }

  // ---------- validation ----------

  predicate ValidText(value: Text) {
    |value| <= MAXIMUM_TEXT && ValidUTF8(value) && 0 !in value
  }

  predicate NonEmptyText(value: Text) {
    value != [] && ValidText(value)
  }

  predicate Alphanumeric(b: Byte) {
    97 <= b <= 122 || 65 <= b <= 90 || 48 <= b <= 57
  }

  predicate ValidName(value: Text) {
    NonEmptyText(value) && Alphanumeric(value[0]) && Alphanumeric(value[|value| - 1]) &&
    forall i | 0 < i < |value| - 1 :: Alphanumeric(value[i]) || value[i] in [46, 45, 95]
  }

  predicate ValidAbsolute(value: Text) {
    Paths.Rooted(value) && Paths.Clean(value) == value
  }

  predicate ValidPlatform(value: Platform) {
    value.os == Ascii("linux") &&
    ((value.architecture == Ascii("amd64") && value.variant == []) ||
     (value.architecture == Ascii("arm64") && value.variant == Ascii("v8")))
  }

  datatype User = User(uid: nat, gid: nat)

  function ParsedUser(value: Text): Option<User> {
    if value == [] then Some(User(0, 0))
    else
      var (uidText, gidText, found) := Decimals.Cut(value, 58);
      var uid := Decimals.ParseUint(uidText, Decimals.LIMIT32);
      if uid.None? then None
      else if !found then Some(User(uid.value, uid.value))
      else
        var gid := Decimals.ParseUint(gidText, Decimals.LIMIT32);
        if gid.None? then None else Some(User(uid.value, gid.value))
  }

  predicate InRange(value: Option<int>, minimum: int, maximum: int) {
    value.Some? ==> minimum <= value.value <= maximum
  }

  predicate ValidRestart(value: Text) {
    value == [] || value == Ascii("no") || value == Ascii("always") || value == Ascii("unless-stopped") ||
    value == Ascii("on-failure") ||
    (Ascii("on-failure:") <= value &&
     var retries := Decimals.ParseUint(value[|Ascii("on-failure:")|..], 0x8000_0000);
     retries.Some? && retries.value > 0)
  }

  /** A healthcheck can only be switched off. */
  predicate ValidHealthcheck(value: Option<Healthcheck>) {
    value.Some? ==>
      value.value.disabled && Items(value.value.test) == [] && value.value.interval == [] &&
      value.value.timeout == [] && value.value.retries.None? && value.value.startPeriod == [] &&
      value.value.startInterval == []
  }

  /** The checks on what the canonical form leaves as it is. */
  predicate ValidScalars(lib: Library, s: Spec) {
    ValidName(s.serviceName) && ValidName(s.containerName) && ValidPlatform(s.platform) &&
    s.networkMode == Ascii("bridge") && EachValid(s.entrypoint, ValidText) && EachValid(s.command, ValidText) &&
    |Items(s.entrypoint)| + |Items(s.command)| != 0 && ValidText(s.hostname) &&
    ValidText(s.workingDirectory) && (s.workingDirectory == [] || ValidAbsolute(s.workingDirectory)) &&
    ValidText(s.stopSignal) && ParsedUser(s.user).Some? && s.memoryBytes >= 0 && s.sharedMemoryBytes >= 0 &&
    InRange(s.blkioWeight, 10, 1000) && InRange(s.oomScoreAdj, -1000, 1000) &&
    (s.pidsLimit.Some? ==> s.pidsLimit.value == -1 || s.pidsLimit.value > 0) &&
    (s.cgroup == [] || s.cgroup == Ascii("private")) && ValidText(s.cgroupParent) && ValidRestart(s.restart) &&
    (s.stopTimeout.Some? ==> s.stopTimeout.value > 0) && EachValid(s.dnsOptions, NonEmptyText) &&
    EachValid(s.dnsSearch, NonEmptyText) && EachValid(s.dns, lib.validAddress) &&
    (s.sysctls.Some? ==> forall key | key in s.sysctls.value :: NonEmptyText(key) && ValidText(s.sysctls.value[key])) &&
    ValidHealthcheck(s.healthcheck) && s.init != Some(true) && Cpu.ContainerdQuota(s.cpus).Some?
  }

  predicate EachValid(values: Option<seq<Text>>, valid: Text -> bool) {
    forall i | 0 <= i < |Items(values)| :: valid(Items(values)[i])
  }

  /** Every value is valid, and no key comes twice. */
  predicate UniqueAndValid<T>(values: seq<T>, valid: T -> bool, key: T -> Text) {
    (forall i | 0 <= i < |values| :: valid(values[i])) && DistinctKeys(values, key)
  }

  /** The loop of the list validators: a value that is not valid or whose key was seen is refused. */
  method CheckUnique<T>(values: seq<T>, valid: T -> bool, key: T -> Text) returns (ok: bool)
    ensures ok <==> UniqueAndValid(values, valid, key)
  {
    var seen: set<Text> := {};
    for i := 0 to |values|
      invariant seen == set j | 0 <= j < i :: key(values[j])
      invariant forall j | 0 <= j < i :: valid(values[j])
      invariant forall j, k | 0 <= j < k < i :: key(values[j]) != key(values[k])
    {
      if !valid(values[i]) {
        return false;
      }
      if key(values[i]) in seen {
        return false;
      }
      seen := seen + {key(values[i])};
    }
    return true;
  }

  /** The same list in another order is as valid. */
  lemma {:induction false} ValidPermutes<T>(values: seq<T>, others: seq<T>, valid: T -> bool, key: T -> Text)
    requires multiset(values) == multiset(others) && UniqueAndValid(values, valid, key)
    ensures UniqueAndValid(others, valid, key)
  {
    DistinctPermutes(values, others, key);
    forall i | 0 <= i < |others|
      ensures valid(others[i])
    {
      assert others[i] in multiset(others);
      var j := IndexIn(values, others[i]);
    }
  }

  function CapabilityName(lib: Library, value: Text): Text {
    var name := lib.upper(value);
    if name == Ascii("ALL") then name
    else if Ascii("CAP_") <= name then name
    else Ascii("CAP_") + name
  }

  function CapabilityNamer(lib: Library): Text -> Text {
    (value: Text) => CapabilityName(lib, value)
  }

  function AddedCapability(lib: Library): Text -> bool {
    (value: Text) => NonEmptyText(value) && CapabilityName(lib, value) in lib.supportedCapabilities
  }

  function DroppedCapability(lib: Library): Text -> bool {
    (value: Text) =>
      NonEmptyText(value) &&
      (CapabilityName(lib, value) in lib.supportedCapabilities || CapabilityName(lib, value) == Ascii("ALL"))
  }

  predicate ValidGroup(value: Text) {
    Decimals.ParseUint(value, Decimals.LIMIT32).Some?
  }

  function VariableName(value: Text): Text {
    Decimals.Cut(value, 61).0
  }

  predicate ValidVariable(value: Text) {
    Decimals.Cut(value, 61).2 && VariableName(value) != [] && ValidText(value)
  }

  predicate ValidLabel(value: Text) {
    VariableName(value) != [] && ValidText(value)
  }

  predicate ValidPermissions(value: Text) {
    value != [] && (forall i | 0 <= i < |value| :: value[i] in [114, 119, 109]) &&
    forall i, j | 0 <= i < j < |value| :: value[i] != value[j]
  }

  predicate ValidDevice(value: Device) {
    ValidAbsolute(value.source) && ValidAbsolute(value.target) && ValidPermissions(value.permissions)
  }

  predicate ValidTmpfs(value: Tmpfs) {
    ValidAbsolute(value.target) && EachValid(value.options, NonEmptyText)
  }

  predicate ValidUlimit(value: Ulimit) {
    NonEmptyText(value.name) && -1 <= value.soft <= Cpu.MAX_INT64 && -1 <= value.hard <= Cpu.MAX_INT64 &&
    !(value.soft == -1 && value.hard != -1) && !(value.hard != -1 && value.soft > value.hard)
  }

  predicate ValidMount(value: Mount) {
    ValidAbsolute(value.target) &&
    if value.kind == MOUNT_BIND then ValidAbsolute(value.source)
    else value.kind == MOUNT_VOLUME && value.source == [] && !value.readOnly
  }

  predicate ValidExposed(value: ExposedPort) {
    value.targetPort != 0 && value.protocol in [Ascii("tcp"), Ascii("udp"), Ascii("sctp")]
  }

  function PortValidator(lib: Library): PortBinding -> bool {
    (value: PortBinding) =>
      value.publishedPort != 0 && value.targetPort != 0 && value.protocol in [Ascii("tcp"), Ascii("udp")] &&
      (value.hostIP == [] || lib.validAddress(value.hostIP))
  }

  function SocketOf(port: nat, protocol: Text): Text {
    protocol + [Paths.SLASH] + Decimals.Format(port)
  }

  function ExposedSocket(value: ExposedPort): Text { SocketOf(value.targetPort, value.protocol) }

  function PortSocket(value: PortBinding): Text { SocketOf(value.targetPort, value.protocol) }

  /** Exposed and published ports share one namespace of sockets. */
  function Sockets(s: Spec): seq<Text> {
    Mapped(s.exposedPorts, ExposedSocket) + Mapped(s.ports, PortSocket)
  }

  /** Devices, tmpfs and mounts share one namespace of targets. */
  function Targets(s: Spec): seq<Text> {
    Mapped(s.devices, DeviceKey) + Mapped(s.tmpfs, TmpfsKey) + Mapped(s.mounts, MountKey)
  }

  /** Shared memory has a size only when nothing is mounted over it. */
  predicate ValidTargets(s: Spec) {
    DistinctKeys(Targets(s), TextKey) && (s.sharedMemoryBytes == 0 || Ascii("/dev/shm") !in multiset(Targets(s)))
  }

  predicate ValidTextLists(lib: Library, s: Spec) {
    UniqueAndValid(Items(s.capAdd), AddedCapability(lib), CapabilityNamer(lib)) &&
    UniqueAndValid(Items(s.capDrop), DroppedCapability(lib), CapabilityNamer(lib)) &&
    EachValid(s.extraHosts, NonEmptyText) && EachValid(s.groupAdd, ValidGroup) &&
    UniqueAndValid(Items(s.environment), ValidVariable, VariableName) &&
    UniqueAndValid(Items(s.labels), ValidLabel, VariableName)
  }

  predicate ValidRecordLists(lib: Library, s: Spec) {
    UniqueAndValid(s.devices, ValidDevice, DeviceKey) && UniqueAndValid(s.tmpfs, ValidTmpfs, TmpfsKey) &&
    UniqueAndValid(s.ulimits, ValidUlimit, UlimitKey) && UniqueAndValid(s.mounts, ValidMount, MountKey) &&
    (forall i | 0 <= i < |s.exposedPorts| :: ValidExposed(s.exposedPorts[i])) &&
    (forall i | 0 <= i < |s.ports| :: PortValidator(lib)(s.ports[i])) &&
    DistinctKeys(Sockets(s), TextKey) && ValidTargets(s)
  }

  predicate Valid(lib: Library, s: Spec) {
    ValidScalars(lib, s) && ValidTextLists(lib, s) && ValidRecordLists(lib, s)
  }

  function CanonicalSpec(lib: Library, s: Spec): Option<Spec> {
    if Valid(lib, s) then Some(Canonical(s)) else None
  }

  // ---------- the canonical form of a valid configuration is valid ----------

  lemma {:induction false} EachPermutes(values: Option<seq<Text>>, others: Option<seq<Text>>, valid: Text -> bool)
    requires multiset(Items(values)) == multiset(Items(others)) && EachValid(values, valid)
    ensures EachValid(others, valid)
  {
    forall i | 0 <= i < |Items(others)|
      ensures valid(Items(others)[i])
    {
      assert Items(others)[i] in multiset(Items(others));
      var j := IndexIn(Items(values), Items(others)[i]);
    }
  }

  lemma {:induction false} TextListsStayValid(lib: Library, s: Spec)
    requires ValidTextLists(lib, s)
    ensures ValidTextLists(lib, Canonical(s))
  {
    CanonicalStringsTwice(s.capAdd);
    CanonicalStringsTwice(s.capDrop);
    CanonicalStringsTwice(s.extraHosts);
    CanonicalStringsTwice(s.groupAdd);
    CanonicalStringsTwice(s.environment);
    CanonicalStringsTwice(s.labels);
    var c := Canonical(s);
    ValidPermutes(Items(s.capAdd), Items(c.capAdd), AddedCapability(lib), CapabilityNamer(lib));
    ValidPermutes(Items(s.capDrop), Items(c.capDrop), DroppedCapability(lib), CapabilityNamer(lib));
    EachPermutes(s.extraHosts, c.extraHosts, NonEmptyText);
    EachPermutes(s.groupAdd, c.groupAdd, ValidGroup);
    ValidPermutes(Items(s.environment), Items(c.environment), ValidVariable, VariableName);
    ValidPermutes(Items(s.labels), Items(c.labels), ValidLabel, VariableName);
  }

  lemma {:induction false} OrderedStaysValid<T>(values: seq<T>, valid: T -> bool, key: T -> Text)
    requires forall i | 0 <= i < |values| :: valid(values[i])
    ensures forall i | 0 <= i < |Ordered(values, key)| :: valid(Ordered(values, key)[i])
    ensures DistinctKeys(values, key) ==> DistinctKeys(Ordered(values, key), key)
  {
    OrderedSorts(values, key);
    if DistinctKeys(values, key) {
      DistinctPermutes(values, Ordered(values, key), key);
    }
    forall i | 0 <= i < |Ordered(values, key)|
      ensures valid(Ordered(values, key)[i])
    {
      assert Ordered(values, key)[i] in multiset(Ordered(values, key));
      var j := IndexIn(values, Ordered(values, key)[i]);
    }
  }

  lemma {:induction false} SharedNamesPermute(s: Spec)
    ensures multiset(Sockets(Canonical(s))) == multiset(Sockets(s))
    ensures multiset(Targets(Canonical(s))) == multiset(Targets(s))
  {
    OrderedMapped(s.exposedPorts, ExposedKey, ExposedSocket);
    OrderedMapped(s.ports, PortKey, PortSocket);
    OrderedMapped(s.devices, DeviceKey, DeviceKey);
    OrderedMapped(s.tmpfs, TmpfsKey, TmpfsKey);
    OrderedMapped(s.mounts, MountKey, MountKey);
  }

  lemma {:induction false} RecordListsStayValid(lib: Library, s: Spec)
    requires ValidRecordLists(lib, s)
    ensures ValidRecordLists(lib, Canonical(s))
  {
    OrderedStaysValid(s.devices, ValidDevice, DeviceKey);
    OrderedStaysValid(s.tmpfs, ValidTmpfs, TmpfsKey);
    OrderedStaysValid(s.ulimits, ValidUlimit, UlimitKey);
    OrderedStaysValid(s.mounts, ValidMount, MountKey);
    OrderedStaysValid(s.exposedPorts, ValidExposed, ExposedKey);
    OrderedStaysValid(s.ports, PortValidator(lib), PortKey);
    SharedNamesPermute(s);
    DistinctPermutes(Sockets(s), Sockets(Canonical(s)), TextKey);
    DistinctPermutes(Targets(s), Targets(Canonical(s)), TextKey);
  }

  lemma {:induction false} ScalarsStayValid(lib: Library, s: Spec)
    requires ValidScalars(lib, s)
    ensures ValidScalars(lib, Canonical(s))
  {
  }

  /** Validating and canonicalizing what was accepted changes nothing. */
  lemma {:induction false} CanonicalSpecTwice(lib: Library, s: Spec)
    requires CanonicalSpec(lib, s).Some?
    ensures CanonicalSpec(lib, CanonicalSpec(lib, s).value) == CanonicalSpec(lib, s)
  {
    ScalarsStayValid(lib, s);
    TextListsStayValid(lib, s);
    RecordListsStayValid(lib, s);
    CanonicalTwice(s);
  }

  // ---------- the projection ----------

  datatype ProcessUser = ProcessUser(user: User, groups: Option<seq<nat>>)

  datatype Rlimit = Rlimit(kind: Text, soft: nat, hard: nat)

  datatype Process = Process(
    terminal: bool,
    user: ProcessUser,
    args: seq<Text>,
    env: Option<seq<Text>>,
    cwd: Text,
    capabilities: Option<seq<Text>>,
    rlimits: Option<seq<Rlimit>>,
    noNewPrivileges: bool,
    oomScoreAdj: Option<int>)

  datatype Namespace = PIDNamespace | IPCNamespace | UTSNamespace | MountNamespace | NetworkNamespace | CgroupNamespace

  datatype Memory = Memory(limit: Option<int>, disableOOMKiller: Option<bool>)

  datatype CPULimit = CPULimit(period: nat, quota: nat)

  /** `pids` and `weight` are absent when their block or their value is. */
  datatype Resources = Resources(
    memory: Option<Memory>, pids: Option<int>, weight: Option<int>, cpu: Option<CPULimit>)

  datatype Linux = Linux(
    sysctl: Option<map<Text, Text>>,
    resources: Option<Resources>,
    namespaces: seq<Namespace>,
    maskedPaths: seq<Text>,
    readonlyPaths: seq<Text>)

  /** `others` says whether any field is set that the projection never sets. */
  datatype OCI = OCI(
    process: Option<Process>,
    rootReadonly: Option<bool>,
    hostname: Text,
    mounts: seq<OCIMount>,
    linux: Option<Linux>,
    others: bool)

  datatype Control = Control(
    serviceName: Text,
    containerName: Text,
    platform: Platform,
    entrypointLength: int,
    entrypointDefined: bool,
    commandDefined: bool,
    networkMode: Text,
    cgroupParent: Text,
    cpus: Text,
    restart: Text,
    sharedMemoryBytes: int,
    stopSignal: Text,
    stopTimeout: Option<int>,
    user: Text,
    workingDirectory: Text,
    capAdd: Option<seq<Text>>,
    capDrop: Option<seq<Text>>,
    dns: Option<seq<Text>>,
    dnsOptions: Option<seq<Text>>,
    dnsSearch: Option<seq<Text>>,
    devices: Option<seq<Device>>,
    extraHosts: Option<seq<Text>>,
    groupAdd: Option<seq<Text>>,
    labels: Option<seq<Text>>,
    exposedPorts: Option<seq<ExposedPort>>,
    ports: Option<seq<PortBinding>>,
    tmpfs: Option<seq<Tmpfs>>,
    mounts: Option<seq<Mount>>,
    init: Option<bool>,
    stdinOpen: Option<bool>,
    oomKillDisable: Option<bool>,
    readOnly: Option<bool>,
    tty: Option<bool>,
    healthcheck: Option<Healthcheck>)

  datatype Configuration = Configuration(oci: OCI, control: Control)

  function NamesOf(lib: Library, values: Option<seq<Text>>): set<Text> {
    set v | v in Items(values) :: CapabilityName(lib, v)
  }

  /** The capabilities that are left: the defaults without what is dropped, and what is added. */
  function EffectiveSet(lib: Library, add: Option<seq<Text>>, drop: Option<seq<Text>>): set<Text> {
    (if Ascii("ALL") in NamesOf(lib, drop) then {} else lib.defaultCapabilities - NamesOf(lib, drop)) +
    NamesOf(lib, add)
  }

  function EffectiveCapabilities(lib: Library, add: Option<seq<Text>>, drop: Option<seq<Text>>): seq<Text> {
    Ordering.Ascending(EffectiveSet(lib, add, drop))
  }

  lemma {:induction false} NamesGrow(lib: Library, values: seq<Text>, n: nat)
    requires n < |values|
    ensures NamesOf(lib, Some(values[..n + 1])) == NamesOf(lib, Some(values[..n])) + {CapabilityName(lib, values[n])}
  {
    assert values[..n + 1] == values[..n] + [values[n]];
  }

  method DropCapabilities(lib: Library, drops: seq<Text>) returns (values: set<Text>)
    ensures values == EffectiveSet(lib, None, Some(drops))
  {
    values := lib.defaultCapabilities;
    for i := 0 to |drops|
      invariant values == EffectiveSet(lib, None, Some(drops[..i]))
    {
      var name := CapabilityName(lib, drops[i]);
      NamesGrow(lib, drops, i);
      if name == Ascii("ALL") {
        values := {};
      } else {
        values := values - {name};
      }
    }
    assert drops[..|drops|] == drops;
  }

  /** Edits the set of capabilities in the order of the lists; the order turns out not to matter. */
  method ComputeCapabilities(lib: Library, add: Option<seq<Text>>, drop: Option<seq<Text>>) returns (names: seq<Text>)
    ensures names == EffectiveCapabilities(lib, add, drop)
  {
    var kept := DropCapabilities(lib, Items(drop));
    var values := AddCapabilities(lib, kept, Items(add));
    EffectiveInParts(lib, add, drop);
    return Ordering.Ascending(values);
  }

  method AddCapabilities(lib: Library, kept: set<Text>, adds: seq<Text>) returns (values: set<Text>)
    ensures values == kept + NamesOf(lib, Some(adds))
  {
    values := kept;
    for i := 0 to |adds|
      invariant values == kept + NamesOf(lib, Some(adds[..i]))
    {
      NamesGrow(lib, adds, i);
      values := values + {CapabilityName(lib, adds[i])};
    }
    assert adds[..|adds|] == adds;
  }

  lemma {:induction false} EffectiveInParts(lib: Library, add: Option<seq<Text>>, drop: Option<seq<Text>>)
    ensures EffectiveSet(lib, add, drop) ==
            EffectiveSet(lib, None, Some(Items(drop))) + NamesOf(lib, Some(Items(add)))
  {
    assert NamesOf(lib, None) == {};
  }

  function ParsedGroups(values: Option<seq<Text>>): Option<seq<nat>> {
    if values.None? then None
    else Some(Mapped(values.value, (value: Text) => Number32(value)))
  }

  function Number32(value: Text): nat {
    var parsed := Decimals.ParseUint(value, Decimals.LIMIT32);
    if parsed.Some? then parsed.value else 0
  }

  function UlimitValue(value: int): nat {
    if value == -1 then UNLIMITED else if value >= 0 then value else 0
  }

  function EncodedRlimit(lib: Library): Ulimit -> Rlimit {
    (value: Ulimit) =>
      Rlimit(RLIMIT + lib.upper(value.name), UlimitValue(value.soft), UlimitValue(value.hard))
  }

  function DecodedUlimit(value: nat): int {
    if value == UNLIMITED then -1 else if value > Cpu.MAX_INT64 then -0x8000_0000_0000_0000 else value
  }

  /** The bytes of "RLIMIT_". */
  const RLIMIT: Text := [82, 76, 73, 77, 73, 84, 95]

  function TrimRlimit(value: Text): Text {
    if RLIMIT <= value then value[|RLIMIT|..] else value
  }

  function DecodedRlimit(lib: Library): Rlimit -> Ulimit {
    (value: Rlimit) => Ulimit(lib.lower(TrimRlimit(value.kind)), DecodedUlimit(value.soft), DecodedUlimit(value.hard))
  }

  function EncodedResources(s: Spec): Resources {
    Resources(
      if s.memoryBytes != 0 || s.oomKillDisable.Some?
      then Some(Memory(if s.memoryBytes != 0 then Some(s.memoryBytes) else None, s.oomKillDisable)) else None,
      s.pidsLimit,
      s.blkioWeight,
      if s.cpus != [] && Cpu.ContainerdQuota(s.cpus).Some?
        then Some(CPULimit(Cpu.PERIOD, Cpu.ContainerdQuota(s.cpus).value)) else None)
  }

  function EncodedNamespaces(cgroup: Text): seq<Namespace> {
    [PIDNamespace, IPCNamespace, UTSNamespace, MountNamespace, NetworkNamespace] +
    if cgroup == Ascii("private") then [CgroupNamespace] else []
  }

  function BindMount(mount: Mount): seq<OCIMount> {
    if mount.kind != MOUNT_BIND then []
    else
      [OCIMount(mount.target, Ascii("bind"), mount.source,
                [Ascii("rbind"), if mount.readOnly then Ascii("ro") else Ascii("rw"), Ascii("rprivate")])]
  }

  function BindMounts(mounts: seq<Mount>): seq<OCIMount> {
    if mounts == [] then [] else BindMounts(mounts[..|mounts| - 1]) + BindMount(mounts[|mounts| - 1])
  }

  function TmpfsMount(value: Tmpfs): OCIMount {
    OCIMount(value.target, Ascii("tmpfs"), Ascii("tmpfs"), [Ascii("nosuid"), Ascii("nodev")] + Items(value.options))
  }

  function SharedMemory(s: Spec): seq<OCIMount> {
    if (exists i | 0 <= i < |s.mounts| :: s.mounts[i].target == Ascii("/dev/shm")) ||
       (exists i | 0 <= i < |s.tmpfs| :: s.tmpfs[i].target == Ascii("/dev/shm")) then []
    else
      var size: nat := if s.sharedMemoryBytes <= 0 then 0x400_0000 else s.sharedMemoryBytes;
      [OCIMount(Ascii("/dev/shm"), Ascii("tmpfs"), Ascii("shm"),
                [Ascii("nosuid"), Ascii("noexec"), Ascii("nodev"), Ascii("mode=1777"),
                 Ascii("size=") + Decimals.Format(size)])]
  }

  function EncodedMounts(lib: Library, s: Spec): seq<OCIMount> {
    lib.defaultMounts + BindMounts(s.mounts) + Mapped(s.tmpfs, TmpfsMount) + SharedMemory(s)
  }

  function EncodeProcess(lib: Library, s: Spec): Process {
    Process(
      s.tty == Some(true),
      ProcessUser(if ParsedUser(s.user).Some? then ParsedUser(s.user).value else User(0, 0), ParsedGroups(s.groupAdd)),
      Items(s.entrypoint) + Items(s.command), s.environment,
      if s.workingDirectory == [] then [Paths.SLASH] else s.workingDirectory,
      Some(EffectiveCapabilities(lib, s.capAdd, s.capDrop)), Listed(Mapped(s.ulimits, EncodedRlimit(lib))),
      s.noNewPrivileges, s.oomScoreAdj)
  }

  function EncodeOCI(lib: Library, s: Spec): OCI {
    OCI(Some(EncodeProcess(lib, s)), Some(s.readOnly == Some(true)), s.hostname, EncodedMounts(lib, s),
        Some(Linux(s.sysctls, Some(EncodedResources(s)), EncodedNamespaces(s.cgroup), lib.maskedPaths,
                   lib.readonlyPaths)),
        false)
  }

  /** A canonical list: absent when it is empty, as Go's nil is not the empty list. */
  function Listed<T>(values: seq<T>): (list: Option<seq<T>>)
    ensures Items(list) == values
  {
    if values == [] then None else Some(values)
  }

  function EncodeControl(s: Spec): Control {
    Control(
      s.serviceName, s.containerName, s.platform, |Items(s.entrypoint)|, s.entrypoint.Some?, s.command.Some?,
      s.networkMode, s.cgroupParent, s.cpus, s.restart, s.sharedMemoryBytes, s.stopSignal, s.stopTimeout, s.user,
      s.workingDirectory, s.capAdd, s.capDrop, s.dns, s.dnsOptions, s.dnsSearch, Listed(s.devices), s.extraHosts,
      s.groupAdd, s.labels, Listed(s.exposedPorts), Listed(s.ports), Listed(s.tmpfs), Listed(s.mounts),
      s.init, s.stdinOpen, s.oomKillDisable,
      s.readOnly, s.tty, s.healthcheck)
  }

  function Projected(lib: Library, s: Spec): Configuration {
    Configuration(EncodeOCI(lib, s), EncodeControl(s))
  }

  function Encode(lib: Library, s: Spec): Option<Configuration> {
    var canonical := CanonicalSpec(lib, s);
    if canonical.None? then None else Some(Projected(lib, canonical.value))
  }

  // ---------- the way back ----------

  function DecodedCgroup(namespaces: seq<Namespace>): Text {
    if CgroupNamespace in namespaces then Ascii("private") else []
  }

  function DecodedMemory(value: Option<Memory>): int {
    if value.None? || value.value.limit.None? then 0 else value.value.limit.value
  }

  function DecodedFrom(
    lib: Library, oci: OCI, process: Process, linux: Linux, resources: Resources, control: Control): Spec
    requires 0 <= control.entrypointLength <= |process.args|
  {
    Spec(
      control.serviceName, control.containerName, control.platform,
      if control.entrypointDefined then Some(process.args[..control.entrypointLength]) else None,
      if control.commandDefined then Some(process.args[control.entrypointLength..]) else None,
      control.networkMode, resources.weight, control.cgroupParent, DecodedCgroup(linux.namespaces), control.cpus,
      oci.hostname, DecodedMemory(resources.memory), process.oomScoreAdj, resources.pids, control.restart,
      control.sharedMemoryBytes, control.stopSignal, control.stopTimeout, control.user, control.workingDirectory,
      control.capAdd, control.capDrop, control.dns, control.dnsOptions, control.dnsSearch, Items(control.devices),
      control.extraHosts, control.groupAdd, linux.sysctl, Items(control.tmpfs),
      Mapped(Items(process.rlimits), DecodedRlimit(lib)), process.env, control.labels, Items(control.exposedPorts),
      Items(control.ports), process.noNewPrivileges, Items(control.mounts),
      control.init, control.stdinOpen, control.oomKillDisable, control.readOnly, control.tty, control.healthcheck)
  }

  function DecodedSpec(lib: Library, c: Configuration): Option<Spec> {
    if c.oci.process.None? || c.oci.rootReadonly.None? || c.oci.linux.None? || c.control.entrypointLength < 0 ||
       c.control.entrypointLength > |c.oci.process.value.args| || c.oci.linux.value.resources.None? then None
    else
      Some(DecodedFrom(lib, c.oci, c.oci.process.value, c.oci.linux.value, c.oci.linux.value.resources.value,
                       c.control))
  }

  /** Reconstructs, canonicalizes, and insists that the projection of the result is what was given. */
  function Decode(lib: Library, c: Configuration): Option<Spec> {
    var spec := DecodedSpec(lib, c);
    if spec.None? then None
    else
      var canonical := CanonicalSpec(lib, spec.value);
      if canonical.None? || Projected(lib, canonical.value) != c then None else canonical
  }

  // ---------- the round trips ----------

  /** The name as it comes back from the projection. */
  function Settled(lib: Library, name: Text): Text {
    lib.lower(lib.upper(name))
  }

  function LoweredUlimits(lib: Library, values: seq<Ulimit>): seq<Ulimit> {
    Mapped(values, (u: Ulimit) => u.(name := Settled(lib, u.name)))
  }

  function Lowered(lib: Library, s: Spec): Spec {
    s.(ulimits := LoweredUlimits(lib, s.ulimits))
  }

  lemma {:induction false} RlimitReturns(lib: Library, u: Ulimit)
    requires ValidUlimit(u)
    ensures DecodedRlimit(lib)(EncodedRlimit(lib)(u)) == u.(name := Settled(lib, u.name))
  {
    TrimsPrefix(RLIMIT, lib.upper(u.name));
    UlimitReturns(u.soft);
    UlimitReturns(u.hard);
    var r := EncodedRlimit(lib)(u);
    assert r.kind == RLIMIT + lib.upper(u.name);
    assert TrimRlimit(r.kind) == lib.upper(u.name);
    assert DecodedRlimit(lib)(r) == Ulimit(Settled(lib, u.name), u.soft, u.hard);
  }

  lemma {:induction false} TrimsPrefix(prefix: Text, rest: Text)
    ensures prefix <= prefix + rest && (prefix + rest)[|prefix|..] == rest
  {
  }

  lemma {:induction false} UlimitReturns(value: int)
    requires -1 <= value <= Cpu.MAX_INT64
    ensures DecodedUlimit(UlimitValue(value)) == value
  {
  }

  lemma {:induction false} RlimitsReturn(lib: Library, s: Spec)
    requires forall i | 0 <= i < |s.ulimits| :: ValidUlimit(s.ulimits[i])
    ensures Mapped(Mapped(s.ulimits, EncodedRlimit(lib)), DecodedRlimit(lib)) == Lowered(lib, s).ulimits
  {
    forall i | 0 <= i < |s.ulimits|
      ensures DecodedRlimit(lib)(EncodedRlimit(lib)(s.ulimits[i])) ==
        s.ulimits[i].(name := Settled(lib, s.ulimits[i].name))
    {
      RlimitReturns(lib, s.ulimits[i]);
    }
  }

  lemma {:induction false} ArgumentsReturn(s: Spec)
    ensures
      var args := Items(s.entrypoint) + Items(s.command);
      var n := |Items(s.entrypoint)|;
      (s.entrypoint.Some? ==> args[..n] == s.entrypoint.value) && (s.command.Some? ==> args[n..] == s.command.value)
  {
  }

  lemma {:induction false} CgroupReturns(cgroup: Text)
    requires cgroup == [] || cgroup == Ascii("private")
    ensures DecodedCgroup(EncodedNamespaces(cgroup)) == cgroup
  {
  }

  lemma {:induction false} MemoryReturns(s: Spec)
    ensures DecodedMemory(EncodedResources(s).memory) == s.memoryBytes
  {
  }

  /** What the parts give back makes up the whole. */
  lemma {:induction false} PartsReturn(
      lib: Library, s: Spec, oci: OCI, process: Process, linux: Linux, resources: Resources)
    requires |process.args| >= |Items(s.entrypoint)| && oci.hostname == s.hostname
    requires s.entrypoint.Some? ==> process.args[..|Items(s.entrypoint)|] == s.entrypoint.value
    requires s.command.Some? ==> process.args[|Items(s.entrypoint)|..] == s.command.value
    requires process.env == s.environment && process.noNewPrivileges == s.noNewPrivileges
    requires process.oomScoreAdj == s.oomScoreAdj && linux.sysctl == s.sysctls
    requires resources.pids == s.pidsLimit && resources.weight == s.blkioWeight
    requires DecodedMemory(resources.memory) == s.memoryBytes && DecodedCgroup(linux.namespaces) == s.cgroup
    requires Mapped(Items(process.rlimits), DecodedRlimit(lib)) == LoweredUlimits(lib, s.ulimits)
    ensures DecodedFrom(lib, oci, process, linux, resources, EncodeControl(s)) == Lowered(lib, s)
  {
  }

  /** What is read back is what was projected, but for the case of the ulimit names. */
  lemma {:induction false} ProjectionReturns(lib: Library, s: Spec)
    requires Projectable(s)
    ensures DecodedSpec(lib, Projected(lib, s)) == Some(Lowered(lib, s))
  {
    RlimitsReturn(lib, s);
    ArgumentsReturn(s);
    CgroupReturns(s.cgroup);
    MemoryReturns(s);
    var c := Projected(lib, s);
    PartsReturn(lib, s, c.oci, c.oci.process.value, c.oci.linux.value, c.oci.linux.value.resources.value);
  }

  /** Whatever is decoded encodes to exactly what it was decoded from. */
  lemma {:induction false} EncodeOfDecode(lib: Library, c: Configuration)
    requires Decode(lib, c).Some?
    ensures Encode(lib, Decode(lib, c).value) == Some(c)
  {
    CanonicalSpecTwice(lib, DecodedSpec(lib, c).value);
  }

  predicate NamesSettled(lib: Library, s: Spec) {
    forall i | 0 <= i < |s.ulimits| :: Settled(lib, s.ulimits[i].name) == s.ulimits[i].name
  }

  lemma {:induction false} SettledIsLowered(lib: Library, s: Spec)
    requires NamesSettled(lib, s)
    ensures Lowered(lib, s) == s
  {
    assert Lowered(lib, s).ulimits == s.ulimits;
  }

  lemma {:induction false} NamesSettledPermute(lib: Library, s: Spec)
    ensures NamesSettled(lib, Canonical(s)) <==> NamesSettled(lib, s)
  {
    OrderedSorts(s.ulimits, UlimitKey);
    if NamesSettled(lib, s) {
      forall i | 0 <= i < |Canonical(s).ulimits|
        ensures Settled(lib, Canonical(s).ulimits[i].name) == Canonical(s).ulimits[i].name
      {
        assert Canonical(s).ulimits[i] in multiset(Canonical(s).ulimits);
        var j := IndexIn(s.ulimits, Canonical(s).ulimits[i]);
      }
    }
    if NamesSettled(lib, Canonical(s)) {
      forall i | 0 <= i < |s.ulimits|
        ensures Settled(lib, s.ulimits[i].name) == s.ulimits[i].name
      {
        assert s.ulimits[i] in multiset(s.ulimits);
        var j := IndexIn(Canonical(s).ulimits, s.ulimits[i]);
      }
    }
  }

  /** What projecting and reading back needs to know of a configuration. */
  predicate Projectable(s: Spec) {
    (s.cgroup == [] || s.cgroup == Ascii("private")) && forall i | 0 <= i < |s.ulimits| :: ValidUlimit(s.ulimits[i])
  }

  lemma {:induction false} ValidIsProjectable(lib: Library, s: Spec)
    requires ValidScalars(lib, s) && ValidRecordLists(lib, s)
    ensures Projectable(s)
  {
  }

  lemma {:induction false} CanonicalIsProjectable(s: Spec)
    requires Projectable(s)
    ensures Projectable(Canonical(s))
  {
    OrderedStaysValid(s.ulimits, ValidUlimit, UlimitKey);
  }

  lemma {:induction false} AcceptedIsProjectable(lib: Library, s: Spec)
    requires CanonicalSpec(lib, s).Some?
    ensures CanonicalSpec(lib, s) == Some(Canonical(s)) && Projectable(Canonical(s))
  {
    ValidIsProjectable(lib, s);
    CanonicalIsProjectable(s);
  }

  /** An accepted configuration with settled ulimit names comes back as its canonical form. */
  lemma {:induction false} DecodeOfEncode(lib: Library, s: Spec)
    requires Encode(lib, s).Some? && NamesSettled(lib, s)
    ensures Decode(lib, Encode(lib, s).value) == CanonicalSpec(lib, s)
  {
    var c := CanonicalSpec(lib, s).value;
    AcceptedIsProjectable(lib, s);
    ProjectionReturns(lib, c);
    NamesSettledPermute(lib, s);
    SettledIsLowered(lib, c);
    CanonicalSpecTwice(lib, s);
  }

  /** Mapping the case of the names and back gives the same ulimits, whatever their order. */
  predicate UlimitsReturn(lib: Library, s: Spec) {
    multiset(LoweredUlimits(lib, s.ulimits)) == multiset(s.ulimits)
  }

  lemma {:induction false} UlimitRecordsPermute(lib: Library, s: Spec, values: seq<Ulimit>)
    requires ValidRecordLists(lib, s) && multiset(s.ulimits) == multiset(values)
    ensures ValidRecordLists(lib, s.(ulimits := values))
  {
    ValidPermutes(s.ulimits, values, ValidUlimit, UlimitKey);
  }

  lemma {:induction false} OtherFieldsStay(lib: Library, s: Spec, values: seq<Ulimit>)
    ensures ValidScalars(lib, s) ==> ValidScalars(lib, s.(ulimits := values))
    ensures ValidTextLists(lib, s) ==> ValidTextLists(lib, s.(ulimits := values))
  {
  }

  lemma {:induction false} UlimitsAreOrdered(s: Spec, values: seq<Ulimit>)
    requires Ordered(s.ulimits, UlimitKey) == Ordered(values, UlimitKey)
    ensures Canonical(s.(ulimits := values)) == Canonical(s)
  {
  }

  lemma {:induction false} DistinctUlimits(lib: Library, s: Spec)
    requires ValidRecordLists(lib, s)
    ensures DistinctKeys(s.ulimits, UlimitKey)
  {
  }

  lemma {:induction false} UlimitsPermute(lib: Library, s: Spec, values: seq<Ulimit>)
    requires Valid(lib, s) && multiset(s.ulimits) == multiset(values)
    ensures CanonicalSpec(lib, s.(ulimits := values)) == CanonicalSpec(lib, s)
  {
    OtherFieldsStay(lib, s, values);
    UlimitRecordsPermute(lib, s, values);
    DistinctUlimits(lib, s);
    OrderedPermutes(s.ulimits, values, UlimitKey);
    UlimitsAreOrdered(s, values);
  }

  lemma {:induction false} DecodeOfReturned(lib: Library, c: Spec, s: Spec)
    requires DecodedSpec(lib, Projected(lib, c)) == Some(s) && CanonicalSpec(lib, s) == Some(c)
    ensures Decode(lib, Projected(lib, c)) == Some(c)
  {
  }

  lemma {:induction false} LoweredIsCanonical(lib: Library, c: Spec)
    requires CanonicalSpec(lib, c) == Some(c) && Projectable(c) && UlimitsReturn(lib, c)
    ensures Decode(lib, Projected(lib, c)) == Some(c)
  {
    ProjectionReturns(lib, c);
    UlimitsPermute(lib, c, LoweredUlimits(lib, c.ulimits));
    DecodeOfReturned(lib, c, Lowered(lib, c));
  }

  lemma {:induction false} CanonicalUlimitsReturn(lib: Library, s: Spec)
    ensures UlimitsReturn(lib, Canonical(s)) <==> UlimitsReturn(lib, s)
  {
    OrderedSorts(s.ulimits, UlimitKey);
    OrderedMapped(s.ulimits, UlimitKey, (u: Ulimit) => u.(name := Settled(lib, u.name)));
  }

  lemma {:induction false} DecodedUlimitsReturn(lib: Library, c: Spec)
    requires Projectable(c) && Decode(lib, Projected(lib, c)) == Some(c)
    ensures UlimitsReturn(lib, c)
  {
    DecodedUlimits(lib, c);
    OrderedSorts(LoweredUlimits(lib, c.ulimits), UlimitKey);
  }

  /** For any case mapping whatsoever: the projection inverts exactly for the configurations whose ulimits
      the mapping of their names leaves the same up to order. */
  lemma {:induction false} ReturnsExactly(lib: Library, s: Spec)
    requires Encode(lib, s).Some?
    ensures Decode(lib, Encode(lib, s).value) == CanonicalSpec(lib, s) <==> UlimitsReturn(lib, s)
  {
    var c := CanonicalSpec(lib, s).value;
    AcceptedIsProjectable(lib, s);
    CanonicalSpecTwice(lib, s);
    CanonicalUlimitsReturn(lib, s);
    if UlimitsReturn(lib, c) {
      LoweredIsCanonical(lib, c);
    } else if Decode(lib, Projected(lib, c)) == Some(c) {
      DecodedUlimitsReturn(lib, c);
    }
  }

  /** One round of mapping the case of a name settles it, as it does for every letter of ASCII. */
  ghost predicate Settles(lib: Library) {
    forall name: Text :: Settled(lib, Settled(lib, name)) == Settled(lib, name)
  }

  lemma {:induction false} OnlySettledNamesReturn(lib: Library, values: seq<Ulimit>, i: nat)
    requires Settles(lib) && values == Ordered(LoweredUlimits(lib, values), UlimitKey) && i < |values|
    ensures Settled(lib, values[i].name) == values[i].name
  {
    var lowered := LoweredUlimits(lib, values);
    OrderedSorts(lowered, UlimitKey);
    assert values[i] in multiset(values);
    var j := IndexIn(lowered, values[i]);
    assert values[i].name == Settled(lib, values[j].name);
  }

  lemma {:induction false} DecodedUlimits(lib: Library, c: Spec)
    requires Projectable(c)
    requires Decode(lib, Projected(lib, c)) == Some(c)
    ensures c.ulimits == Ordered(LoweredUlimits(lib, c.ulimits), UlimitKey)
  {
    ProjectionReturns(lib, c);
  }

  lemma {:induction false} UnsettledDoesNotReturn(lib: Library, c: Spec)
    requires Projectable(c)
    requires Settles(lib) && Decode(lib, Projected(lib, c)) == Some(c)
    ensures NamesSettled(lib, c)
  {
    DecodedUlimits(lib, c);
    forall i | 0 <= i < |c.ulimits|
      ensures Settled(lib, c.ulimits[i].name) == c.ulimits[i].name
    {
      OnlySettledNamesReturn(lib, c.ulimits, i);
    }
  }

  /** The projection inverts exactly for the configurations whose ulimit names the case mapping leaves
      as they are; any other comes back changed, or not at all. */
  lemma {:induction false} ReturnsExactlyWhenSettled(lib: Library, s: Spec)
    requires Encode(lib, s).Some? && Settles(lib)
    ensures Decode(lib, Encode(lib, s).value) == CanonicalSpec(lib, s) <==> NamesSettled(lib, s)
  {
    if NamesSettled(lib, s) {
      DecodeOfEncode(lib, s);
    } else if Decode(lib, Encode(lib, s).value) == CanonicalSpec(lib, s) {
      AcceptedIsProjectable(lib, s);
      UnsettledDoesNotReturn(lib, CanonicalSpec(lib, s).value);
      NamesSettledPermute(lib, s);
    }
  }

  // ---------- a configuration that does not return ----------

  function UpperByte(b: Byte): Byte {
    if 97 <= b <= 122 then b - 32 else b
  }

  function LowerByte(b: Byte): Byte {
    if 65 <= b <= 90 then b + 32 else b
  }

  /** Case mapping as it is for the letters of ASCII. */
  function AsciiLibrary(): Library {
    Library(
      (value: Text) => seq(|value|, i requires 0 <= i < |value| => UpperByte(value[i])),
      (value: Text) => seq(|value|, i requires 0 <= i < |value| => LowerByte(value[i])),
      (value: Text) => true, {}, {}, [], [], [])
  }

  lemma {:induction false} AsciiSettles()
    ensures Settles(AsciiLibrary())
  {
    forall name: Text
      ensures Settled(AsciiLibrary(), Settled(AsciiLibrary(), name)) == Settled(AsciiLibrary(), name)
    {
      assert |Settled(AsciiLibrary(), name)| == |name|;
      assert forall i | 0 <= i < |name| :: Settled(AsciiLibrary(), name)[i] == LowerByte(UpperByte(name[i]));
    }
  }

  /** As little as a configuration can say, and a ulimit. */
  function Limited(name: Text): Spec {
    Spec([97], [97], Platform(Ascii("linux"), Ascii("amd64"), []), None, Some([[97]]), Ascii("bridge"), None, [], [],
         [], [], 0, None, None, [], 0, [], None, [], [], None, None, None, None, None, [], None, None, None, [],
         [Ulimit(name, 1, 1)], None, None, [], [], false, [], None, None, None, None, None, None)
  }

  lemma {:induction false} OneLetter(b: Byte)
    requires 0 < b < 128
    ensures NonEmptyText([b]) && (Alphanumeric(b) ==> ValidName([b]))
  {
    assert [b][1..] == [];
    assert RuneWidth([b]) == 1;
  }

  lemma {:induction false} LimitedScalars(lib: Library, name: Text)
    ensures ValidScalars(lib, Limited(name))
  {
    OneLetter(97);
    OneCommand([97]);
    NoLimitReads();
  }

  lemma {:induction false} OneCommand(argument: Text)
    requires ValidText(argument)
    ensures EachValid(Some([argument]), ValidText)
  {
  }

  lemma {:induction false} NoLimitReads()
    ensures Cpu.ContainerdQuota([]).Some? && ParsedUser([]).Some?
  {
  }

  lemma {:induction false} LimitedTexts(lib: Library, name: Text)
    ensures ValidTextLists(lib, Limited(name))
  {
  }

  lemma {:induction false} LimitedRecords(lib: Library, name: Text)
    requires NonEmptyText(name)
    ensures ValidRecordLists(lib, Limited(name))
  {
    var s := Limited(name);
    assert ValidUlimit(s.ulimits[0]);
    assert Sockets(s) == [] && Targets(s) == [];
  }

  lemma {:induction false} LimitedIsValid(lib: Library, name: Text)
    requires NonEmptyText(name)
    ensures Valid(lib, Limited(name))
  {
    LimitedScalars(lib, name);
    LimitedTexts(lib, name);
    LimitedRecords(lib, name);
  }

  lemma {:induction false} OneUnsettled(lib: Library, name: Text)
    requires Settles(lib) && Valid(lib, Limited(name)) && Settled(lib, name) != name
    ensures Encode(lib, Limited(name)).Some?
    ensures Decode(lib, Encode(lib, Limited(name)).value) != CanonicalSpec(lib, Limited(name))
  {
    ReturnsExactlyWhenSettled(lib, Limited(name));
    assert Limited(name).ulimits[0].name == name;
  }

  /** A ulimit called "A" is accepted and comes back as another, or not at all. */
  lemma {:induction false} UpperCaseDoesNotReturn() returns (lib: Library, s: Spec)
    ensures Encode(lib, s).Some? && Decode(lib, Encode(lib, s).value) != CanonicalSpec(lib, s)
  {
    lib, s := AsciiLibrary(), Limited([65]);
    OneLetter(65);
    LimitedIsValid(lib, [65]);
    AsciiSettles();
    assert Settled(lib, [65])[0] == 97;
    OneUnsettled(lib, [65]);
  }
}
