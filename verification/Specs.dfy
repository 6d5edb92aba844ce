/** The runtime-neutral container configuration. Numbers stand for Go integers of at most 64 bits;
    absent pointers, nil maps and nil string lists are None. */
module Specs {
  import opened Values

  datatype Platform = Platform(os: Text, architecture: Text, variant: Text)

  datatype Device = Device(source: Text, target: Text, permissions: Text)

  /** `kind` is the byte of the mount kind; only the two below are supported. */
  datatype Mount = Mount(kind: Byte, source: Text, target: Text, readOnly: bool)

  const MOUNT_BIND: Byte := 1
  const MOUNT_VOLUME: Byte := 2

  /** A persistent source as a runtime reports it. */
  datatype RuntimeMount = RuntimeMount(kind: Byte, name: Text, source: Text, target: Text, readOnly: bool)

  datatype Tmpfs = Tmpfs(target: Text, options: Option<seq<Text>>)

  datatype Ulimit = Ulimit(name: Text, soft: int, hard: int)

  type U16 = n: nat | n < 65536

  datatype PortBinding = PortBinding(hostIP: Text, publishedPort: U16, targetPort: U16, protocol: Text)

  datatype ExposedPort = ExposedPort(targetPort: U16, protocol: Text)

  datatype Healthcheck = Healthcheck(
    test: Option<seq<Text>>,
    interval: Text,
    timeout: Text,
    retries: Option<int>,
    startPeriod: Text,
    startInterval: Text,
    disabled: bool)

  datatype Spec = Spec(
    serviceName: Text,
    containerName: Text,
    platform: Platform,
    entrypoint: Option<seq<Text>>,
    command: Option<seq<Text>>,
    networkMode: Text,
    blkioWeight: Option<int>,
    cgroupParent: Text,
    cgroup: Text,
    cpus: Text,
    hostname: Text,
    memoryBytes: int,
    oomScoreAdj: Option<int>,
    pidsLimit: Option<int>,
    restart: Text,
    sharedMemoryBytes: int,
    stopSignal: Text,
    stopTimeout: Option<int>,
    user: Text,
    workingDirectory: Text,
    capAdd: Option<seq<Text>>,
    capDrop: Option<seq<Text>>,
    dns: Option<seq<Text>>,
    dnsOptions: Option<seq<Text>>,
    dnsSearch: Option<seq<Text>>,
    devices: seq<Device>,
    extraHosts: Option<seq<Text>>,
    groupAdd: Option<seq<Text>>,
    sysctls: Option<map<Text, Text>>,
    tmpfs: seq<Tmpfs>,
    ulimits: seq<Ulimit>,
    environment: Option<seq<Text>>,
    labels: Option<seq<Text>>,
    exposedPorts: seq<ExposedPort>,
    ports: seq<PortBinding>,
    noNewPrivileges: bool,
    mounts: seq<Mount>,
    init: Option<bool>,
    stdinOpen: Option<bool>,
    oomKillDisable: Option<bool>,
    readOnly: Option<bool>,
    tty: Option<bool>,
    healthcheck: Option<Healthcheck>)
}
