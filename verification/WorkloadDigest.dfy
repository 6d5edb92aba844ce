/** The pre-image of a workload's effective digest, and why it identifies the workload. */
module WorkloadDigest {
  import opened Encoding
  import opened Specs
  import opened Values
  import Ordering
  import Workloads

  // ---------- parts of a configuration ----------

  lemma {:induction false} PairSplits<A(!new), B(!new)>(
      a: A -> Bytes, b: B -> Bytes, x: A, x': B, y: A, y': B, r: Bytes, s: Bytes)
    requires Unique(a) && Unique(b) && (a(x) + b(x')) + r == (a(y) + b(y')) + s
    ensures x == y && x' == y' && r == s
  {
    assert (a(x) + b(x')) + r == a(x) + (b(x') + r);
    assert (a(y) + b(y')) + s == a(y) + (b(y') + s);
  }

  lemma {:induction false} TripleSplits<A(!new), B(!new), C(!new)>(
      a: A -> Bytes, b: B -> Bytes, c: C -> Bytes, x: A, x': B, x'': C, y: A, y': B, y'': C, r: Bytes, s: Bytes)
    requires Unique(a) && Unique(b) && Unique(c)
    requires (a(x) + (b(x') + c(x''))) + r == (a(y) + (b(y') + c(y''))) + s
    ensures x == y && x' == y' && x'' == y'' && r == s
  {
    assert (a(x) + (b(x') + c(x''))) + r == (a(x) + b(x')) + (c(x'') + r);
    assert (a(y) + (b(y') + c(y''))) + s == (a(y) + b(y')) + (c(y'') + s);
    PairSplits(a, b, x, x', y, y', c(x'') + r, c(y'') + s);
  }

  lemma {:induction false} QuadrupleSplits<A(!new), B(!new), C(!new), D(!new)>(
      a: A -> Bytes, b: B -> Bytes, c: C -> Bytes, d: D -> Bytes,
      x: A, x': B, x'': C, x''': D, y: A, y': B, y'': C, y''': D, r: Bytes, s: Bytes)
    requires Unique(a) && Unique(b) && Unique(c) && Unique(d)
    requires (a(x) + (b(x') + (c(x'') + d(x''')))) + r == (a(y) + (b(y') + (c(y'') + d(y''')))) + s
    ensures x == y && x' == y' && x'' == y'' && x''' == y''' && r == s
  {
    assert (a(x) + (b(x') + (c(x'') + d(x''')))) + r == (a(x) + (b(x') + c(x''))) + (d(x''') + r);
    assert (a(y) + (b(y') + (c(y'') + d(y''')))) + s == (a(y) + (b(y') + c(y''))) + (d(y''') + s);
    TripleSplits(a, b, c, x, x', x'', y, y', y'', d(x''') + r, d(y''') + s);
  }

  function PlatformBytes(v: Platform): Bytes {
    TextBytes(v.os) + (TextBytes(v.architecture) + TextBytes(v.variant))
  }

  function DeviceBytes(v: Device): Bytes {
    TextBytes(v.source) + (TextBytes(v.target) + TextBytes(v.permissions))
  }

  function TmpfsBytes(v: Tmpfs): Bytes {
    TextBytes(v.target) + TextsBytes(v.options)
  }

  function UlimitBytes(v: Ulimit): Bytes {
    TextBytes(v.name) + (Varint(v.soft) + Varint(v.hard))
  }

  function ExposedPortBytes(v: ExposedPort): Bytes {
    Uvarint(v.targetPort) + TextBytes(v.protocol)
  }

  function PortBytes(v: PortBinding): Bytes {
    TextBytes(v.hostIP) + (Uvarint(v.publishedPort) + (Uvarint(v.targetPort) + TextBytes(v.protocol)))
  }

  function MountBytes(v: Mount): Bytes {
    Octet(v.kind) + (TextBytes(v.source) + (TextBytes(v.target) + Flag(v.readOnly)))
  }

  lemma {:induction false} PlatformIsUnique()
    ensures Unique(PlatformBytes)
  {
    TextIsUnique();
    forall x: Platform, y: Platform, r: Bytes, s: Bytes | PlatformBytes(x) + r == PlatformBytes(y) + s
      ensures x == y && r == s
    {
      TripleSplits(TextBytes, TextBytes, TextBytes, x.os, x.architecture, x.variant,
                   y.os, y.architecture, y.variant, r, s);
    }
  }

  lemma {:induction false} DeviceIsUnique()
    ensures Unique(DeviceBytes)
  {
    TextIsUnique();
    forall x: Device, y: Device, r: Bytes, s: Bytes | DeviceBytes(x) + r == DeviceBytes(y) + s
      ensures x == y && r == s
    {
      TripleSplits(TextBytes, TextBytes, TextBytes, x.source, x.target, x.permissions,
                   y.source, y.target, y.permissions, r, s);
    }
  }

  lemma {:induction false} TmpfsIsUnique()
    ensures Unique(TmpfsBytes)
  {
    TextIsUnique();
    TextsIsUnique();
    forall x: Tmpfs, y: Tmpfs, r: Bytes, s: Bytes | TmpfsBytes(x) + r == TmpfsBytes(y) + s
      ensures x == y && r == s
    {
      PairSplits(TextBytes, TextsBytes, x.target, x.options, y.target, y.options, r, s);
    }
  }

  lemma {:induction false} UlimitIsUnique()
    ensures Unique(UlimitBytes)
  {
    TextIsUnique();
    VarintIsUnique();
    forall x: Ulimit, y: Ulimit, r: Bytes, s: Bytes | UlimitBytes(x) + r == UlimitBytes(y) + s
      ensures x == y && r == s
    {
      TripleSplits(TextBytes, Varint, Varint, x.name, x.soft, x.hard, y.name, y.soft, y.hard, r, s);
    }
  }

  lemma {:induction false} ExposedPortIsUnique()
    ensures Unique(ExposedPortBytes)
  {
    UvarintIsUnique();
    TextIsUnique();
    forall x: ExposedPort, y: ExposedPort, r: Bytes, s: Bytes | ExposedPortBytes(x) + r == ExposedPortBytes(y) + s
      ensures x == y && r == s
    {
      PairSplits<nat, Text>(Uvarint, TextBytes, x.targetPort, x.protocol, y.targetPort, y.protocol, r, s);
    }
  }

  lemma {:induction false} PortIsUnique()
    ensures Unique(PortBytes)
  {
    UvarintIsUnique();
    TextIsUnique();
    forall x: PortBinding, y: PortBinding, r: Bytes, s: Bytes | PortBytes(x) + r == PortBytes(y) + s
      ensures x == y && r == s
    {
      QuadrupleSplits<Text, nat, nat, Text>(TextBytes, Uvarint, Uvarint, TextBytes,
                      x.hostIP, x.publishedPort, x.targetPort, x.protocol,
                      y.hostIP, y.publishedPort, y.targetPort, y.protocol, r, s);
    }
  }

  lemma {:induction false} MountIsUnique()
    ensures Unique(MountBytes)
  {
    OneByteCodesAreUnique();
    TextIsUnique();
    forall x: Mount, y: Mount, r: Bytes, s: Bytes | MountBytes(x) + r == MountBytes(y) + s
      ensures x == y && r == s
    {
      QuadrupleSplits(Octet, TextBytes, TextBytes, Flag, x.kind, x.source, x.target, x.readOnly,
                      y.kind, y.source, y.target, y.readOnly, r, s);
    }
  }

  // ---------- maps and lists ----------

  datatype Entry = Entry(key: Text, value: Text)

  function EntryBytes(v: Entry): Bytes {
    TextBytes(v.key) + TextBytes(v.value)
  }

  lemma {:induction false} EntryIsUnique()
    ensures Unique(EntryBytes)
  {
    TextIsUnique();
    forall x: Entry, y: Entry, r: Bytes, s: Bytes | EntryBytes(x) + r == EntryBytes(y) + s
      ensures x == y && r == s
    {
      PairSplits(TextBytes, TextBytes, x.key, x.value, y.key, y.value, r, s);
    }
  }

  /** A map as its entries in the order of its keys. */
  function Entries(values: map<Text, Text>): seq<Entry> {
    var keys := Ordering.Ascending(values.Keys);
    seq(|keys|, i requires 0 <= i < |keys| =>
      assert keys[i] in keys; Entry(keys[i], values[keys[i]]))
  }

  lemma {:induction false} EntriesDetermine(x: map<Text, Text>, y: map<Text, Text>)
    requires Entries(x) == Entries(y)
    ensures x == y
  {
    var keys, others := Ordering.Ascending(x.Keys), Ordering.Ascending(y.Keys);
    assert |keys| == |Entries(x)| == |others|;
    assert forall i | 0 <= i < |keys| :: keys[i] == Entries(x)[i].key == Entries(y)[i].key == others[i];
    assert keys == others;
    assert forall key :: key in x.Keys <==> key in y.Keys;
    forall key | key in x
      ensures x[key] == y[key]
    {
      var i :| 0 <= i < |keys| && keys[i] == key;
      assert x[key] == Entries(x)[i].value == Entries(y)[i].value == y[key];
    }
  }

  function MapBytes(values: map<Text, Text>): Bytes {
    Listed(Entries(values), EntryBytes)
  }

  function StringMapBytes(values: Option<map<Text, Text>>): Bytes {
    Tagged(values, MapBytes)
  }

  lemma {:induction false} MapIsUnique()
    ensures Unique(MapBytes)
  {
    EntryIsUnique();
    forall x: map<Text, Text>, y: map<Text, Text>, r: Bytes, s: Bytes | MapBytes(x) + r == MapBytes(y) + s
      ensures x == y && r == s
    {
      ListedUnique(Entries(x), Entries(y), EntryBytes, r, s);
      EntriesDetermine(x, y);
    }
  }

  lemma {:induction false} StringMapIsUnique()
    ensures Unique(StringMapBytes)
  {
    MapIsUnique();
    forall x: Option<map<Text, Text>>, y: Option<map<Text, Text>>, r: Bytes, s: Bytes |
      StringMapBytes(x) + r == StringMapBytes(y) + s
      ensures x == y && r == s
    {
      TaggedUnique(x, y, MapBytes, r, s);
    }
  }

  function DevicesBytes(values: seq<Device>): Bytes {
    Listed(values, DeviceBytes)
  }

  lemma {:induction false} DevicesAreUnique()
    ensures Unique(DevicesBytes)
  {
    DeviceIsUnique();
    forall x: seq<Device>, y: seq<Device>, r: Bytes, s: Bytes | DevicesBytes(x) + r == DevicesBytes(y) + s
      ensures x == y && r == s
    {
      ListedUnique(x, y, DeviceBytes, r, s);
    }
  }

  function TmpfsMountsBytes(values: seq<Tmpfs>): Bytes {
    Listed(values, TmpfsBytes)
  }

  lemma {:induction false} TmpfsMountsAreUnique()
    ensures Unique(TmpfsMountsBytes)
  {
    TmpfsIsUnique();
    forall x: seq<Tmpfs>, y: seq<Tmpfs>, r: Bytes, s: Bytes | TmpfsMountsBytes(x) + r == TmpfsMountsBytes(y) + s
      ensures x == y && r == s
    {
      ListedUnique(x, y, TmpfsBytes, r, s);
    }
  }

  function UlimitsBytes(values: seq<Ulimit>): Bytes {
    Listed(values, UlimitBytes)
  }

  lemma {:induction false} UlimitsAreUnique()
    ensures Unique(UlimitsBytes)
  {
    UlimitIsUnique();
    forall x: seq<Ulimit>, y: seq<Ulimit>, r: Bytes, s: Bytes | UlimitsBytes(x) + r == UlimitsBytes(y) + s
      ensures x == y && r == s
    {
      ListedUnique(x, y, UlimitBytes, r, s);
    }
  }

  function ExposedPortsBytes(values: seq<ExposedPort>): Bytes {
    Listed(values, ExposedPortBytes)
  }

  lemma {:induction false} ExposedPortsAreUnique()
    ensures Unique(ExposedPortsBytes)
  {
    ExposedPortIsUnique();
    forall x: seq<ExposedPort>, y: seq<ExposedPort>, r: Bytes, s: Bytes |
      ExposedPortsBytes(x) + r == ExposedPortsBytes(y) + s
      ensures x == y && r == s
    {
      ListedUnique(x, y, ExposedPortBytes, r, s);
    }
  }

  function PortsBytes(values: seq<PortBinding>): Bytes {
    Listed(values, PortBytes)
  }

  lemma {:induction false} PortsAreUnique()
    ensures Unique(PortsBytes)
  {
    PortIsUnique();
    forall x: seq<PortBinding>, y: seq<PortBinding>, r: Bytes, s: Bytes | PortsBytes(x) + r == PortsBytes(y) + s
      ensures x == y && r == s
    {
      ListedUnique(x, y, PortBytes, r, s);
    }
  }

  function MountsBytes(values: seq<Mount>): Bytes {
    Listed(values, MountBytes)
  }

  lemma {:induction false} MountsAreUnique()
    ensures Unique(MountsBytes)
  {
    MountIsUnique();
    forall x: seq<Mount>, y: seq<Mount>, r: Bytes, s: Bytes | MountsBytes(x) + r == MountsBytes(y) + s
      ensures x == y && r == s
    {
      ListedUnique(x, y, MountBytes, r, s);
    }
  }

  function HealthBytes(v: Healthcheck): Bytes {
    (TextsBytes(v.test) + (TextBytes(v.interval) + TextBytes(v.timeout))) +
    (OptionalInteger(v.retries) + (TextBytes(v.startPeriod) + (TextBytes(v.startInterval) + Flag(v.disabled))))
  }

  function HealthcheckBytes(value: Option<Healthcheck>): Bytes {
    Tagged(value, HealthBytes)
  }

  lemma {:induction false} HealthSplits(
      texts: Option<seq<Text>> -> Bytes, text: Text -> Bytes, integer: Option<int> -> Bytes, flag: bool -> Bytes,
      x: Healthcheck, y: Healthcheck, r: Bytes, s: Bytes)
    requires Unique(texts) && Unique(text) && Unique(integer) && Unique(flag)
    requires
      (texts(x.test) + (text(x.interval) + text(x.timeout))) +
      (integer(x.retries) + (text(x.startPeriod) + (text(x.startInterval) + flag(x.disabled)))) + r ==
      (texts(y.test) + (text(y.interval) + text(y.timeout))) +
      (integer(y.retries) + (text(y.startPeriod) + (text(y.startInterval) + flag(y.disabled)))) + s
    ensures x == y && r == s
  {
    var left := integer(x.retries) + (text(x.startPeriod) + (text(x.startInterval) + flag(x.disabled)));
    var right := integer(y.retries) + (text(y.startPeriod) + (text(y.startInterval) + flag(y.disabled)));
    var before := texts(x.test) + (text(x.interval) + text(x.timeout));
    var after := texts(y.test) + (text(y.interval) + text(y.timeout));
    assert before + left + r == before + (left + r);
    assert after + right + s == after + (right + s);
    TripleSplits(texts, text, text, x.test, x.interval, x.timeout, y.test, y.interval, y.timeout,
                 left + r, right + s);
    QuadrupleSplits(integer, text, text, flag, x.retries, x.startPeriod, x.startInterval, x.disabled,
                    y.retries, y.startPeriod, y.startInterval, y.disabled, r, s);
  }

  lemma {:induction false} HealthIsUnique()
    ensures Unique(HealthBytes)
  {
    TextIsUnique();
    TextsIsUnique();
    OptionalIntegerIsUnique();
    OneByteCodesAreUnique();
    forall x: Healthcheck, y: Healthcheck, r: Bytes, s: Bytes | HealthBytes(x) + r == HealthBytes(y) + s
      ensures x == y && r == s
    {
      HealthSplits(TextsBytes, TextBytes, OptionalInteger, Flag, x, y, r, s);
    }
  }

  lemma {:induction false} HealthcheckIsUnique()
    ensures Unique(HealthcheckBytes)
  {
    HealthIsUnique();
    forall x: Option<Healthcheck>, y: Option<Healthcheck>, r: Bytes, s: Bytes |
      HealthcheckBytes(x) + r == HealthcheckBytes(y) + s
      ensures x == y && r == s
    {
      TaggedUnique(x, y, HealthBytes, r, s);
    }
  }

  // ---------- the whole configuration ----------

  /** The codes of the parts, held apart from how each of them works. */
  datatype Codes = Codes(
    text: Text -> Bytes,
    texts: Option<seq<Text>> -> Bytes,
    integer: Option<int> -> Bytes,
    signed: int -> Bytes,
    flag: bool -> Bytes,
    optionalFlag: Option<bool> -> Bytes,
    platform: Platform -> Bytes,
    devices: seq<Device> -> Bytes,
    stringMap: Option<map<Text, Text>> -> Bytes,
    tmpfs: seq<Tmpfs> -> Bytes,
    ulimits: seq<Ulimit> -> Bytes,
    exposedPorts: seq<ExposedPort> -> Bytes,
    ports: seq<PortBinding> -> Bytes,
    mounts: seq<Mount> -> Bytes,
    healthcheck: Option<Healthcheck> -> Bytes)

  function Standard(): Codes {
    Codes(TextBytes, TextsBytes, OptionalInteger, Varint, Flag, OptionalFlag, PlatformBytes, DevicesBytes,
          StringMapBytes, TmpfsMountsBytes, UlimitsBytes, ExposedPortsBytes, PortsBytes, MountsBytes,
          HealthcheckBytes)
  }

  ghost predicate Sound(c: Codes) {
    Unique(c.text) && Unique(c.texts) && Unique(c.integer) && Unique(c.signed) && Unique(c.flag) &&
    Unique(c.optionalFlag) && Unique(c.platform) && Unique(c.devices) && Unique(c.stringMap) &&
    Unique(c.tmpfs) && Unique(c.ulimits) && Unique(c.exposedPorts) && Unique(c.ports) && Unique(c.mounts) &&
    Unique(c.healthcheck)
  }

  lemma {:induction false} StandardIsSound()
    ensures Sound(Standard())
  {
    TextIsUnique();
    TextsIsUnique();
    OptionalIntegerIsUnique();
    VarintIsUnique();
    OneByteCodesAreUnique();
    PlatformIsUnique();
    DevicesAreUnique();
    StringMapIsUnique();
    TmpfsMountsAreUnique();
    UlimitsAreUnique();
    ExposedPortsAreUnique();
    PortsAreUnique();
    MountsAreUnique();
    HealthcheckIsUnique();
  }

  /** Four fields of the configuration, in the order in which they are encoded. */
  function Part(c: Codes, v: Spec, k: nat): Bytes {
    match k
    case 0 =>
      c.text(v.serviceName) + (c.text(v.containerName) + (c.platform(v.platform) + (c.texts(v.entrypoint))))
    case 1 =>
      c.texts(v.command) + (c.text(v.networkMode) + (c.integer(v.blkioWeight) + (c.text(v.cgroupParent))))
    case 2 =>
      c.text(v.cgroup) + (c.text(v.cpus) + (c.text(v.hostname) + (c.signed(v.memoryBytes))))
    case 3 =>
      c.integer(v.oomScoreAdj) + (c.integer(v.pidsLimit) + (c.text(v.restart) + (c.signed(v.sharedMemoryBytes))))
    case 4 =>
      c.text(v.stopSignal) + (c.integer(v.stopTimeout) + (c.text(v.user) + (c.text(v.workingDirectory))))
    case 5 =>
      c.texts(v.capAdd) + (c.texts(v.capDrop) + (c.texts(v.dns) + (c.texts(v.dnsOptions))))
    case 6 =>
      c.texts(v.dnsSearch) + (c.devices(v.devices) + (c.texts(v.extraHosts) + (c.texts(v.groupAdd))))
    case 7 =>
      c.stringMap(v.sysctls) + (c.tmpfs(v.tmpfs) + (c.ulimits(v.ulimits) + (c.texts(v.environment))))
    case 8 =>
      c.texts(v.labels) + (c.exposedPorts(v.exposedPorts) + (c.ports(v.ports) + (c.flag(v.noNewPrivileges))))
    case 9 =>
      c.mounts(v.mounts) + (c.optionalFlag(v.init) + (c.optionalFlag(v.stdinOpen) + (c.optionalFlag(v.oomKillDisable))))
    case _ =>
      c.optionalFlag(v.readOnly) + (c.optionalFlag(v.tty) + (c.healthcheck(v.healthcheck)))
  }

  predicate SamePart(x: Spec, y: Spec, k: nat) {
    match k
    case 0 =>
      x.serviceName == y.serviceName && x.containerName == y.containerName && x.platform == y.platform &&
      x.entrypoint == y.entrypoint
    case 1 =>
      x.command == y.command && x.networkMode == y.networkMode && x.blkioWeight == y.blkioWeight &&
      x.cgroupParent == y.cgroupParent
    case 2 =>
      x.cgroup == y.cgroup && x.cpus == y.cpus && x.hostname == y.hostname && x.memoryBytes == y.memoryBytes
    case 3 =>
      x.oomScoreAdj == y.oomScoreAdj && x.pidsLimit == y.pidsLimit && x.restart == y.restart &&
      x.sharedMemoryBytes == y.sharedMemoryBytes
    case 4 =>
      x.stopSignal == y.stopSignal && x.stopTimeout == y.stopTimeout && x.user == y.user &&
      x.workingDirectory == y.workingDirectory
    case 5 =>
      x.capAdd == y.capAdd && x.capDrop == y.capDrop && x.dns == y.dns && x.dnsOptions == y.dnsOptions
    case 6 =>
      x.dnsSearch == y.dnsSearch && x.devices == y.devices && x.extraHosts == y.extraHosts && x.groupAdd == y.groupAdd
    case 7 =>
      x.sysctls == y.sysctls && x.tmpfs == y.tmpfs && x.ulimits == y.ulimits && x.environment == y.environment
    case 8 =>
      x.labels == y.labels && x.exposedPorts == y.exposedPorts && x.ports == y.ports &&
      x.noNewPrivileges == y.noNewPrivileges
    case 9 =>
      x.mounts == y.mounts && x.init == y.init && x.stdinOpen == y.stdinOpen && x.oomKillDisable == y.oomKillDisable
    case _ =>
      x.readOnly == y.readOnly && x.tty == y.tty && x.healthcheck == y.healthcheck
  }

  lemma {:induction false} PartSplits(c: Codes, x: Spec, y: Spec, k: nat, r: Bytes, s: Bytes)
    requires Sound(c) && Part(c, x, k) + r == Part(c, y, k) + s
    ensures SamePart(x, y, k) && r == s
  {
    match k
    case 0 =>
      QuadrupleSplits(c.text, c.text, c.platform, c.texts,
                      x.serviceName, x.containerName, x.platform, x.entrypoint,
                      y.serviceName, y.containerName, y.platform, y.entrypoint, r, s);
    case 1 =>
      QuadrupleSplits(c.texts, c.text, c.integer, c.text,
                      x.command, x.networkMode, x.blkioWeight, x.cgroupParent,
                      y.command, y.networkMode, y.blkioWeight, y.cgroupParent, r, s);
    case 2 =>
      QuadrupleSplits(c.text, c.text, c.text, c.signed,
                      x.cgroup, x.cpus, x.hostname, x.memoryBytes,
                      y.cgroup, y.cpus, y.hostname, y.memoryBytes, r, s);
    case 3 =>
      QuadrupleSplits(c.integer, c.integer, c.text, c.signed,
                      x.oomScoreAdj, x.pidsLimit, x.restart, x.sharedMemoryBytes,
                      y.oomScoreAdj, y.pidsLimit, y.restart, y.sharedMemoryBytes, r, s);
    case 4 =>
      QuadrupleSplits(c.text, c.integer, c.text, c.text,
                      x.stopSignal, x.stopTimeout, x.user, x.workingDirectory,
                      y.stopSignal, y.stopTimeout, y.user, y.workingDirectory, r, s);
    case 5 =>
      QuadrupleSplits(c.texts, c.texts, c.texts, c.texts,
                      x.capAdd, x.capDrop, x.dns, x.dnsOptions,
                      y.capAdd, y.capDrop, y.dns, y.dnsOptions, r, s);
    case 6 =>
      QuadrupleSplits(c.texts, c.devices, c.texts, c.texts,
                      x.dnsSearch, x.devices, x.extraHosts, x.groupAdd,
                      y.dnsSearch, y.devices, y.extraHosts, y.groupAdd, r, s);
    case 7 =>
      QuadrupleSplits(c.stringMap, c.tmpfs, c.ulimits, c.texts,
                      x.sysctls, x.tmpfs, x.ulimits, x.environment,
                      y.sysctls, y.tmpfs, y.ulimits, y.environment, r, s);
    case 8 =>
      QuadrupleSplits(c.texts, c.exposedPorts, c.ports, c.flag,
                      x.labels, x.exposedPorts, x.ports, x.noNewPrivileges,
                      y.labels, y.exposedPorts, y.ports, y.noNewPrivileges, r, s);
    case 9 =>
      QuadrupleSplits(c.mounts, c.optionalFlag, c.optionalFlag, c.optionalFlag,
                      x.mounts, x.init, x.stdinOpen, x.oomKillDisable,
                      y.mounts, y.init, y.stdinOpen, y.oomKillDisable, r, s);
    case _ =>
      TripleSplits(c.optionalFlag, c.optionalFlag, c.healthcheck,
                      x.readOnly, x.tty, x.healthcheck,
                      y.readOnly, y.tty, y.healthcheck, r, s);
  }

  const PARTS: nat := 11

  function PartOf(c: Codes, v: Spec): nat -> Bytes {
    (k: nat) => Part(c, v, k)
  }

  function SameParts(x: Spec, y: Spec): nat -> bool {
    (k: nat) => SamePart(x, y, k)
  }

  function SpecBytes(c: Codes, v: Spec): Bytes {
    Chain(PartOf(c, v), 0, PARTS)
  }

  /** Whatever follows, part j of x and part j of y can be told apart. */
  ghost predicate PartsTell(c: Codes, x: Spec, y: Spec) {
    forall j: nat, t: Bytes, u: Bytes ::
      PartOf(c, x)(j) + t == PartOf(c, y)(j) + u ==> SameParts(x, y)(j) && t == u
  }

  lemma {:induction false} PartsSplit(c: Codes, x: Spec, y: Spec)
    requires Sound(c)
    ensures PartsTell(c, x, y)
  {
    forall j: nat, t: Bytes, u: Bytes | PartOf(c, x)(j) + t == PartOf(c, y)(j) + u
      ensures SameParts(x, y)(j) && t == u
    {
      PartSplits(c, x, y, j, t, u);
    }
  }

  lemma {:induction false} PartsAreSame(x: Spec, y: Spec)
    requires forall j | 0 <= j < PARTS :: SameParts(x, y)(j)
    ensures x == y
  {
    forall j | 0 <= j < PARTS
      ensures SamePart(x, y, j)
    {
      assert SameParts(x, y)(j);
    }
    SamePartsAreSame(x, y);
  }

  lemma {:induction false} SpecSplits(c: Codes, x: Spec, y: Spec, r: Bytes, s: Bytes)
    requires PartsTell(c, x, y) && SpecBytes(c, x) + r == SpecBytes(c, y) + s
    ensures x == y && r == s
  {
    ChainSplits(PartOf(c, x), PartOf(c, y), SameParts(x, y), 0, PARTS, r, s);
    PartsAreSame(x, y);
  }

  lemma {:induction false} SamePartsAreSame(x: Spec, y: Spec)
    requires forall j | 0 <= j < PARTS :: SamePart(x, y, j)
    ensures x == y
  {
    assert SamePart(x, y, 0) && SamePart(x, y, 1) && SamePart(x, y, 2) && SamePart(x, y, 3);
    assert SamePart(x, y, 4) && SamePart(x, y, 5) && SamePart(x, y, 6) && SamePart(x, y, 7);
    assert SamePart(x, y, 8) && SamePart(x, y, 9) && SamePart(x, y, 10);
  }

  // ---------- appending ----------

  method AppendPlatform(encoded: Bytes, platform: Platform) returns (longer: Bytes)
    ensures longer == encoded + PlatformBytes(platform)
  {
    longer := AppendString(encoded, platform.os);
    longer := AppendString(longer, platform.architecture);
    longer := AppendString(longer, platform.variant);
    JoinThree(encoded, TextBytes(platform.os), TextBytes(platform.architecture), TextBytes(platform.variant));
  }

  method AppendExposedPort(encoded: Bytes, value: ExposedPort) returns (longer: Bytes)
    ensures longer == encoded + ExposedPortBytes(value)
  {
    longer := encoded;
    longer := longer + Uvarint(value.targetPort);
    longer := AppendString(longer, value.protocol);
  }

  method AppendExposedPorts(encoded: Bytes, values: seq<ExposedPort>) returns (longer: Bytes)
    ensures longer == encoded + ExposedPortsBytes(values)
  {
    longer := encoded + Uvarint(|values|);
    ghost var start := longer;
    for i := 0 to |values|
      invariant longer == start + Each(values[..i], ExposedPortBytes)
    {
      longer := AppendExposedPort(longer, values[i]);
      JoinEach(start, values, ExposedPortBytes, i);
    }
    JoinList(encoded, values, ExposedPortBytes);
  }

  method AppendDevice(encoded: Bytes, value: Device) returns (longer: Bytes)
    ensures longer == encoded + DeviceBytes(value)
  {
    longer := encoded;
    longer := AppendString(longer, value.source);
    longer := AppendString(longer, value.target);
    longer := AppendString(longer, value.permissions);
    JoinThree(encoded, TextBytes(value.source), TextBytes(value.target), TextBytes(value.permissions));
  }

  method AppendDevices(encoded: Bytes, values: seq<Device>) returns (longer: Bytes)
    ensures longer == encoded + DevicesBytes(values)
  {
    longer := encoded + Uvarint(|values|);
    ghost var start := longer;
    for i := 0 to |values|
      invariant longer == start + Each(values[..i], DeviceBytes)
    {
      longer := AppendDevice(longer, values[i]);
      JoinEach(start, values, DeviceBytes, i);
    }
    JoinList(encoded, values, DeviceBytes);
  }

  method AppendTmpfs(encoded: Bytes, value: Tmpfs) returns (longer: Bytes)
    ensures longer == encoded + TmpfsBytes(value)
  {
    longer := encoded;
    longer := AppendString(longer, value.target);
    longer := AppendStrings(longer, value.options);
  }

  method AppendTmpfsMounts(encoded: Bytes, values: seq<Tmpfs>) returns (longer: Bytes)
    ensures longer == encoded + TmpfsMountsBytes(values)
  {
    longer := encoded + Uvarint(|values|);
    ghost var start := longer;
    for i := 0 to |values|
      invariant longer == start + Each(values[..i], TmpfsBytes)
    {
      longer := AppendTmpfs(longer, values[i]);
      JoinEach(start, values, TmpfsBytes, i);
    }
    JoinList(encoded, values, TmpfsBytes);
  }

  method AppendUlimit(encoded: Bytes, value: Ulimit) returns (longer: Bytes)
    ensures longer == encoded + UlimitBytes(value)
  {
    longer := encoded;
    longer := AppendString(longer, value.name);
    longer := longer + Varint(value.soft);
    longer := longer + Varint(value.hard);
    JoinThree(encoded, TextBytes(value.name), Varint(value.soft), Varint(value.hard));
  }

  method AppendUlimits(encoded: Bytes, values: seq<Ulimit>) returns (longer: Bytes)
    ensures longer == encoded + UlimitsBytes(values)
  {
    longer := encoded + Uvarint(|values|);
    ghost var start := longer;
    for i := 0 to |values|
      invariant longer == start + Each(values[..i], UlimitBytes)
    {
      longer := AppendUlimit(longer, values[i]);
      JoinEach(start, values, UlimitBytes, i);
    }
    JoinList(encoded, values, UlimitBytes);
  }

  method AppendPort(encoded: Bytes, value: PortBinding) returns (longer: Bytes)
    ensures longer == encoded + PortBytes(value)
  {
    longer := encoded;
    longer := AppendString(longer, value.hostIP);
    longer := longer + Uvarint(value.publishedPort);
    longer := longer + Uvarint(value.targetPort);
    longer := AppendString(longer, value.protocol);
    JoinFour(encoded, TextBytes(value.hostIP), Uvarint(value.publishedPort), Uvarint(value.targetPort),
             TextBytes(value.protocol));
  }

  method AppendPorts(encoded: Bytes, values: seq<PortBinding>) returns (longer: Bytes)
    ensures longer == encoded + PortsBytes(values)
  {
    longer := encoded + Uvarint(|values|);
    ghost var start := longer;
    for i := 0 to |values|
      invariant longer == start + Each(values[..i], PortBytes)
    {
      longer := AppendPort(longer, values[i]);
      JoinEach(start, values, PortBytes, i);
    }
    JoinList(encoded, values, PortBytes);
  }

  method AppendMount(encoded: Bytes, value: Mount) returns (longer: Bytes)
    ensures longer == encoded + MountBytes(value)
  {
    longer := encoded;
    longer := longer + [value.kind];
    longer := AppendString(longer, value.source);
    longer := AppendString(longer, value.target);
    longer := AppendBool(longer, value.readOnly);
    JoinFour(encoded, Octet(value.kind), TextBytes(value.source), TextBytes(value.target), Flag(value.readOnly));
  }

  method AppendMounts(encoded: Bytes, values: seq<Mount>) returns (longer: Bytes)
    ensures longer == encoded + MountsBytes(values)
  {
    longer := encoded + Uvarint(|values|);
    ghost var start := longer;
    for i := 0 to |values|
      invariant longer == start + Each(values[..i], MountBytes)
    {
      longer := AppendMount(longer, values[i]);
      JoinEach(start, values, MountBytes, i);
    }
    JoinList(encoded, values, MountBytes);
  }

  method AppendEntry(encoded: Bytes, key: Text, value: Text) returns (longer: Bytes)
    ensures longer == encoded + EntryBytes(Entry(key, value))
  {
    longer := AppendString(encoded, key);
    longer := AppendString(longer, value);
  }

  method AppendStringMap(encoded: Bytes, values: Option<map<Text, Text>>) returns (longer: Bytes)
    ensures longer == encoded + StringMapBytes(values)
  {
    if values.None? {
      return encoded + [0];
    }
    longer := encoded + [1];
    var keys := Ordering.Ascending(values.value.Keys);
    longer := longer + Uvarint(|keys|);
    ghost var start, entries := longer, Entries(values.value);
    for i := 0 to |keys|
      invariant longer == start + Each(entries[..i], EntryBytes)
    {
      assert keys[i] in keys;
      longer := AppendEntry(longer, keys[i], values.value[keys[i]]);
      JoinEach(start, entries, EntryBytes, i);
    }
    EachAll(entries, EntryBytes);
    ListedAfter(encoded, entries, EntryBytes);
  }

  method AppendHealth(encoded: Bytes, value: Healthcheck) returns (longer: Bytes)
    ensures longer == encoded + HealthBytes(value)
  {
    longer := AppendStrings(encoded, value.test);
    longer := AppendString(longer, value.interval);
    longer := AppendString(longer, value.timeout);
    ghost var timing := longer;
    longer := AppendOptionalInteger(longer, value.retries);
    longer := AppendString(longer, value.startPeriod);
    longer := AppendString(longer, value.startInterval);
    longer := AppendBool(longer, value.disabled);
    JoinThree(encoded, TextsBytes(value.test), TextBytes(value.interval), TextBytes(value.timeout));
    JoinFour(timing, OptionalInteger(value.retries), TextBytes(value.startPeriod),
             TextBytes(value.startInterval), Flag(value.disabled));
  }

  method AppendHealthcheck(encoded: Bytes, value: Option<Healthcheck>) returns (longer: Bytes)
    ensures longer == encoded + HealthcheckBytes(value)
  {
    if value.None? {
      return encoded + [0];
    }
    longer := AppendHealth(encoded + [1], value.value);
  }

  method AppendNames(encoded: Bytes, spec: Spec) returns (longer: Bytes)
    ensures longer == encoded + PartOf(Standard(), spec)(0)
  {
    longer := AppendString(encoded, spec.serviceName);
    longer := AppendString(longer, spec.containerName);
    longer := AppendPlatform(longer, spec.platform);
    longer := AppendStrings(longer, spec.entrypoint);
    JoinFour(encoded, TextBytes(spec.serviceName), TextBytes(spec.containerName), PlatformBytes(spec.platform),
             TextsBytes(spec.entrypoint));
  }

  method AppendCommand(encoded: Bytes, spec: Spec) returns (longer: Bytes)
    ensures longer == encoded + PartOf(Standard(), spec)(1)
  {
    longer := AppendStrings(encoded, spec.command);
    longer := AppendString(longer, spec.networkMode);
    longer := AppendOptionalInteger(longer, spec.blkioWeight);
    longer := AppendString(longer, spec.cgroupParent);
    JoinFour(encoded, TextsBytes(spec.command), TextBytes(spec.networkMode), OptionalInteger(spec.blkioWeight),
             TextBytes(spec.cgroupParent));
  }

  method AppendCgroup(encoded: Bytes, spec: Spec) returns (longer: Bytes)
    ensures longer == encoded + PartOf(Standard(), spec)(2)
  {
    longer := AppendString(encoded, spec.cgroup);
    longer := AppendString(longer, spec.cpus);
    longer := AppendString(longer, spec.hostname);
    longer := longer + Varint(spec.memoryBytes);
    JoinFour(encoded, TextBytes(spec.cgroup), TextBytes(spec.cpus), TextBytes(spec.hostname), Varint(spec.memoryBytes));
  }

  method AppendLimits(encoded: Bytes, spec: Spec) returns (longer: Bytes)
    ensures longer == encoded + PartOf(Standard(), spec)(3)
  {
    longer := AppendOptionalInteger(encoded, spec.oomScoreAdj);
    longer := AppendOptionalInteger(longer, spec.pidsLimit);
    longer := AppendString(longer, spec.restart);
    longer := longer + Varint(spec.sharedMemoryBytes);
    JoinFour(encoded, OptionalInteger(spec.oomScoreAdj), OptionalInteger(spec.pidsLimit), TextBytes(spec.restart),
             Varint(spec.sharedMemoryBytes));
  }

  method AppendUser(encoded: Bytes, spec: Spec) returns (longer: Bytes)
    ensures longer == encoded + PartOf(Standard(), spec)(4)
  {
    longer := AppendString(encoded, spec.stopSignal);
    longer := AppendOptionalInteger(longer, spec.stopTimeout);
    longer := AppendString(longer, spec.user);
    longer := AppendString(longer, spec.workingDirectory);
    JoinFour(encoded, TextBytes(spec.stopSignal), OptionalInteger(spec.stopTimeout), TextBytes(spec.user),
             TextBytes(spec.workingDirectory));
  }

  method AppendCapabilities(encoded: Bytes, spec: Spec) returns (longer: Bytes)
    ensures longer == encoded + PartOf(Standard(), spec)(5)
  {
    longer := AppendStrings(encoded, spec.capAdd);
    longer := AppendStrings(longer, spec.capDrop);
    longer := AppendStrings(longer, spec.dns);
    longer := AppendStrings(longer, spec.dnsOptions);
    JoinFour(encoded, TextsBytes(spec.capAdd), TextsBytes(spec.capDrop), TextsBytes(spec.dns),
             TextsBytes(spec.dnsOptions));
  }

  method AppendHosts(encoded: Bytes, spec: Spec) returns (longer: Bytes)
    ensures longer == encoded + PartOf(Standard(), spec)(6)
  {
    longer := AppendStrings(encoded, spec.dnsSearch);
    longer := AppendDevices(longer, spec.devices);
    longer := AppendStrings(longer, spec.extraHosts);
    longer := AppendStrings(longer, spec.groupAdd);
    JoinFour(encoded, TextsBytes(spec.dnsSearch), DevicesBytes(spec.devices), TextsBytes(spec.extraHosts),
             TextsBytes(spec.groupAdd));
  }

  method AppendKernel(encoded: Bytes, spec: Spec) returns (longer: Bytes)
    ensures longer == encoded + PartOf(Standard(), spec)(7)
  {
    longer := AppendStringMap(encoded, spec.sysctls);
    longer := AppendTmpfsMounts(longer, spec.tmpfs);
    longer := AppendUlimits(longer, spec.ulimits);
    longer := AppendStrings(longer, spec.environment);
    JoinFour(encoded, StringMapBytes(spec.sysctls), TmpfsMountsBytes(spec.tmpfs), UlimitsBytes(spec.ulimits),
             TextsBytes(spec.environment));
  }

  method AppendEnvironment(encoded: Bytes, spec: Spec) returns (longer: Bytes)
    ensures longer == encoded + PartOf(Standard(), spec)(8)
  {
    longer := AppendStrings(encoded, spec.labels);
    longer := AppendExposedPorts(longer, spec.exposedPorts);
    longer := AppendPorts(longer, spec.ports);
    longer := AppendBool(longer, spec.noNewPrivileges);
    JoinFour(encoded, TextsBytes(spec.labels), ExposedPortsBytes(spec.exposedPorts), PortsBytes(spec.ports),
             Flag(spec.noNewPrivileges));
  }

  method AppendMountsAndInit(encoded: Bytes, spec: Spec) returns (longer: Bytes)
    ensures longer == encoded + PartOf(Standard(), spec)(9)
  {
    longer := AppendMounts(encoded, spec.mounts);
    longer := AppendOptionalBool(longer, spec.init);
    longer := AppendOptionalBool(longer, spec.stdinOpen);
    longer := AppendOptionalBool(longer, spec.oomKillDisable);
    JoinFour(encoded, MountsBytes(spec.mounts), OptionalFlag(spec.init), OptionalFlag(spec.stdinOpen),
             OptionalFlag(spec.oomKillDisable));
  }

  method AppendTerminal(encoded: Bytes, spec: Spec) returns (longer: Bytes)
    ensures longer == encoded + PartOf(Standard(), spec)(10)
  {
    longer := AppendOptionalBool(encoded, spec.readOnly);
    longer := AppendOptionalBool(longer, spec.tty);
    longer := AppendHealthcheck(longer, spec.healthcheck);
    JoinThree(encoded, OptionalFlag(spec.readOnly), OptionalFlag(spec.tty), HealthcheckBytes(spec.healthcheck));
  }

  /** All parts in their order. */
  method AppendWorkloadSpec(encoded: Bytes, spec: Spec) returns (longer: Bytes)
    ensures longer == encoded + SpecBytes(Standard(), spec)
  {
    ghost var part, stages := PartOf(Standard(), spec), [encoded];
    longer := encoded;
    longer := AppendNames(longer, spec);
    stages := Staged(part, stages, longer);
    longer := AppendCommand(longer, spec);
    stages := Staged(part, stages, longer);
    longer := AppendCgroup(longer, spec);
    stages := Staged(part, stages, longer);
    longer := AppendLimits(longer, spec);
    stages := Staged(part, stages, longer);
    longer := AppendUser(longer, spec);
    stages := Staged(part, stages, longer);
    longer := AppendCapabilities(longer, spec);
    stages := Staged(part, stages, longer);
    longer := AppendHosts(longer, spec);
    stages := Staged(part, stages, longer);
    longer := AppendKernel(longer, spec);
    stages := Staged(part, stages, longer);
    longer := AppendEnvironment(longer, spec);
    stages := Staged(part, stages, longer);
    longer := AppendMountsAndInit(longer, spec);
    stages := Staged(part, stages, longer);
    longer := AppendTerminal(longer, spec);
    stages := Staged(part, stages, longer);
    JoinStages(part, stages);
  }

  ghost function Staged(part: nat -> Bytes, stages: seq<Bytes>, next: Bytes): (longer: seq<Bytes>)
    requires Stages(part, stages) && next == stages[|stages| - 1] + part(|stages| - 1)
    ensures Stages(part, longer) && |longer| == |stages| + 1
    ensures longer[0] == stages[0] && longer[|stages|] == next
  {
    NextStage(part, stages, next);
    stages + [next]
  }

  // ---------- the digests ----------

  function OriginByte(origin: Workloads.ImageOrigin): Byte {
    match origin
    case UnknownOrigin => 0
    case Registry => 1
    case DockerArchive => 2
  }

  function PlatformOf(image: Workloads.ImageIdentity): Platform {
    Platform(image.os, image.architecture, image.variant)
  }

  function ImageBytes(v: Workloads.ImageIdentity): Bytes {
    (Octet(OriginByte(v.origin)) +
     (TextBytes(v.reference) + (DigestBytes(v.referenceDigest) + PlatformBytes(PlatformOf(v))))) +
    (DigestBytes(v.platformManifest) + DigestBytes(v.imageConfig))
  }

  method AppendImageIdentity(encoded: Bytes, image: Workloads.ImageIdentity) returns (longer: Bytes)
    ensures longer == encoded + ImageBytes(image)
  {
    longer := encoded + [OriginByte(image.origin)];
    longer := AppendString(longer, image.reference);
    longer := longer + DigestBytes(image.referenceDigest);
    longer := AppendPlatform(longer, PlatformOf(image));
    ghost var identity := longer;
    longer := longer + DigestBytes(image.platformManifest);
    longer := longer + DigestBytes(image.imageConfig);
    JoinFour(encoded, Octet(OriginByte(image.origin)), TextBytes(image.reference),
             DigestBytes(image.referenceDigest), PlatformBytes(PlatformOf(image)));
  }

  /** Images that differ at most in what the pre-image leaves out. */
  predicate SameImage(x: Workloads.ImageIdentity, y: Workloads.ImageIdentity) {
    x == y.(validReference := x.validReference)
  }

  lemma {:induction false} ImageSplits(
      octet: Byte -> Bytes, text: Text -> Bytes, digest: Digest -> Bytes, platform: Platform -> Bytes,
      x: Workloads.ImageIdentity, y: Workloads.ImageIdentity, r: Bytes, s: Bytes)
    requires Unique(octet) && Unique(text) && Unique(digest) && Unique(platform)
    requires
      (octet(OriginByte(x.origin)) + (text(x.reference) + (digest(x.referenceDigest) + platform(PlatformOf(x))))) +
      (digest(x.platformManifest) + digest(x.imageConfig)) + r ==
      (octet(OriginByte(y.origin)) + (text(y.reference) + (digest(y.referenceDigest) + platform(PlatformOf(y))))) +
      (digest(y.platformManifest) + digest(y.imageConfig)) + s
    ensures SameImage(x, y) && r == s
  {
    var head := octet(OriginByte(x.origin)) +
      (text(x.reference) + (digest(x.referenceDigest) + platform(PlatformOf(x))));
    var head' := octet(OriginByte(y.origin)) +
      (text(y.reference) + (digest(y.referenceDigest) + platform(PlatformOf(y))));
    var tail, tail' := digest(x.platformManifest) + digest(x.imageConfig),
      digest(y.platformManifest) + digest(y.imageConfig);
    assert head + tail + r == head + (tail + r);
    assert head' + tail' + s == head' + (tail' + s);
    QuadrupleSplits(octet, text, digest, platform,
                    OriginByte(x.origin), x.reference, x.referenceDigest, PlatformOf(x),
                    OriginByte(y.origin), y.reference, y.referenceDigest, PlatformOf(y), tail + r, tail' + s);
    PairSplits(digest, digest, x.platformManifest, x.imageConfig, y.platformManifest, y.imageConfig, r, s);
  }

  lemma {:induction false} ImageUnique(x: Workloads.ImageIdentity, y: Workloads.ImageIdentity, r: Bytes, s: Bytes)
    requires ImageBytes(x) + r == ImageBytes(y) + s
    ensures SameImage(x, y) && r == s
  {
    OneByteCodesAreUnique();
    TextIsUnique();
    DigestIsUnique();
    PlatformIsUnique();
    ImageSplits(Octet, TextBytes, DigestBytes, PlatformBytes, x, y, r, s);
  }

  /** What the effective digest of a workload is computed over. */
  function EffectivePreimage(c: Codes, spec: Spec, image: Workloads.ImageIdentity): Bytes {
    [1] + SpecBytes(c, spec) + ImageBytes(image)
  }

  method ComputeEffectiveDigest(spec: Spec, image: Workloads.ImageIdentity) returns (preimage: Bytes)
    ensures preimage == EffectivePreimage(Standard(), spec, image)
  {
    preimage := [1];
    preimage := AppendWorkloadSpec(preimage, spec);
    preimage := AppendImageIdentity(preimage, image);
  }

  lemma {:induction false} VersionSplits(a: Bytes, b: Bytes, a': Bytes, b': Bytes)
    requires [1] + a + b == [1] + a' + b'
    ensures a + b == a' + b'
  {
    assert [1] + a + b == [1] + (a + b);
    assert [1] + a' + b' == [1] + (a' + b');
    SplitsAt([1], [1], a + b, a' + b');
  }

  lemma {:induction false} EffectiveSplits(
      c: Codes, x: Spec, i: Workloads.ImageIdentity, y: Spec, j: Workloads.ImageIdentity)
    requires PartsTell(c, x, y) && EffectivePreimage(c, x, i) == EffectivePreimage(c, y, j)
    ensures x == y && ImageBytes(i) == ImageBytes(j)
  {
    VersionSplits(SpecBytes(c, x), ImageBytes(i), SpecBytes(c, y), ImageBytes(j));
    SpecSplits(c, x, y, ImageBytes(i), ImageBytes(j));
  }

  /** Pre-images are equal exactly for equal configurations of the same image. */
  lemma {:induction false} EffectiveDigestIdentifies(
      x: Spec, i: Workloads.ImageIdentity, y: Spec, j: Workloads.ImageIdentity)
    ensures EffectivePreimage(Standard(), x, i) == EffectivePreimage(Standard(), y, j) <==>
            x == y && SameImage(i, j)
  {
    if EffectivePreimage(Standard(), x, i) == EffectivePreimage(Standard(), y, j) {
      StandardIsSound();
      PartsSplit(Standard(), x, y);
      EffectiveSplits(Standard(), x, i, y, j);
      assert ImageBytes(i) + [] == ImageBytes(j) + [];
      ImageUnique(i, j, [], []);
    }
  }

  /** The configuration without what names it. */
  function Anonymous(spec: Spec): Spec {
    spec.(serviceName := [], containerName := [], platform := Platform([], [], []))
  }

  function SpecPreimage(c: Codes, spec: Spec): Bytes {
    [1] + SpecBytes(c, Anonymous(spec))
  }

  method ComputeWorkloadSpecDigest(spec: Spec) returns (preimage: Bytes)
    ensures preimage == SpecPreimage(Standard(), spec)
  {
    preimage := AppendWorkloadSpec([1], Anonymous(spec));
  }

  lemma {:induction false} SpecPreimageSplits(c: Codes, x: Spec, y: Spec)
    requires PartsTell(c, Anonymous(x), Anonymous(y)) && SpecPreimage(c, x) == SpecPreimage(c, y)
    ensures Anonymous(x) == Anonymous(y)
  {
    var left, right := SpecBytes(c, Anonymous(x)), SpecBytes(c, Anonymous(y));
    SplitsAt([1], [1], left, right);
    assert left + [] == right + [];
    SpecSplits(c, Anonymous(x), Anonymous(y), [], []);
  }

  /** The digest of a configuration tells two of them apart exactly when more than their names differs. */
  lemma {:induction false} SpecDigestIdentifies(x: Spec, y: Spec)
    ensures SpecPreimage(Standard(), x) == SpecPreimage(Standard(), y) <==> Anonymous(x) == Anonymous(y)
  {
    if SpecPreimage(Standard(), x) == SpecPreimage(Standard(), y) {
      StandardIsSound();
      PartsSplit(Standard(), Anonymous(x), Anonymous(y));
      SpecPreimageSplits(Standard(), x, y);
    }
  }
}
