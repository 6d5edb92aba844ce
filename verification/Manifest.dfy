/** The backup manifest and its wire form. */
module Manifest {
  import opened Hex
  import opened Values
  import Decimals
  import Ordering
  import Paths
  import Sorting
  import Specs

  const VERSION: int := 1
  const MAXIMUM_MOUNTS: nat := 4096
  const MAXIMUM_IDENTITY: nat := 256
  const MAXIMUM_ENTRIES: int := 1_000_000
  const BLOCK: int := 512

  /** What the scan of an archive finds. */
  datatype Inventory = Inventory(
    entryCount: int, payloadBytes: int, archiveBytes: int, archiveDigest: Digest, semanticDigest: Digest)

  datatype Artifact = Artifact(mount: Specs.RuntimeMount, provenance: Digest, fileName: Text, inventory: Inventory)

  datatype Manifest = Manifest(
    version: int,
    operationToken: Identifier,
    transactionID: Identifier,
    baseTransactionID: Identifier,
    project: Text,
    service: Text,
    runtime: Text,
    createdUnix: int,
    source: Digest,
    effective: Digest,
    execution: Digest,
    predecessorWorkloadID: Text,
    artifacts: seq<Artifact>)

  datatype ArtifactWire = ArtifactWire(
    kind: Text,
    name: Text,
    source: Text,
    target: Text,
    provenance: Text,
    fileName: Text,
    entryCount: int,
    payloadBytes: int,
    archiveBytes: int,
    archiveDigest: Text,
    semanticDigest: Text)

  datatype ManifestWire = ManifestWire(
    version: int,
    operationToken: Text,
    transactionID: Text,
    baseTransactionID: Text,
    project: Text,
    service: Text,
    runtime: Text,
    createdUnix: int,
    source: Text,
    effective: Text,
    execution: Text,
    predecessorWorkloadID: Text,
    artifacts: seq<ArtifactWire>)

  // ---------- names ----------

  /** The bytes of "docker", "podman" and "containerd". */
  const DOCKER: Text := [100, 111, 99, 107, 101, 114]
  const PODMAN: Text := [112, 111, 100, 109, 97, 110]
  const CONTAINERD: Text := [99, 111, 110, 116, 97, 105, 110, 101, 114, 100]

  /** The bytes of "bind" and "volume". */
  const BIND: Text := [98, 105, 110, 100]
  const VOLUME: Text := [118, 111, 108, 117, 109, 101]

  predicate SupportsWorkloads(runtime: Text) {
    runtime == DOCKER || runtime == PODMAN || runtime == CONTAINERD
  }

  function ParseRuntimeKind(value: Text): Option<Text> {
    if SupportsWorkloads(value) then Some(value) else None
  }

  function MountKindString(kind: Byte): Text {
    if kind == Specs.MOUNT_BIND then BIND else if kind == Specs.MOUNT_VOLUME then VOLUME else []
  }

  function ParseMountKind(value: Text): Option<Byte> {
    if value == BIND then Some(Specs.MOUNT_BIND) else if value == VOLUME then Some(Specs.MOUNT_VOLUME) else None
  }

  function Padded(digits: Text, width: nat): Text {
    Decimals.Zeros(if |digits| < width then width - |digits| else 0) + digits
  }

  /** "artifact-", the one-based index with at least six digits, ".tar". */
  function ArtifactName(index: nat): Text {
    [97, 114, 116, 105, 102, 97, 99, 116, 45] + Padded(Decimals.Format(index + 1), 6) + [46, 116, 97, 114]
  }

  lemma {:induction false} NoNumber(n: nat)
    ensures Decimals.AllDigits(Decimals.Zeros(n)) && Decimals.Number(Decimals.Zeros(n)) == 0
  {
    if n > 0 {
      NoNumber(n - 1);
      Decimals.DigitBehind(Decimals.Zeros(n - 1), Decimals.ZERO);
    }
  }

  lemma {:induction false} LeadingZeros(n: nat, digits: Text)
    requires Decimals.AllDigits(digits)
    ensures Decimals.AllDigits(Decimals.Zeros(n) + digits) &&
      Decimals.Number(Decimals.Zeros(n) + digits) == Decimals.Number(digits)
    decreases |digits|
  {
    if digits == [] {
      assert Decimals.Zeros(n) + digits == Decimals.Zeros(n);
      NoNumber(n);
    } else {
      var last := |digits| - 1;
      LeadingZeros(n, digits[..last]);
      assert Decimals.Zeros(n) + digits == Decimals.Zeros(n) + digits[..last] + [digits[last]];
      Decimals.DigitBehind(Decimals.Zeros(n) + digits[..last], digits[last]);
    }
  }

  /** Different artifacts have different file names. */
  lemma {:induction false} ArtifactNamesDiffer(i: nat, j: nat)
    requires ArtifactName(i) == ArtifactName(j)
    ensures i == j
  {
    var x, y := Padded(Decimals.Format(i + 1), 6), Padded(Decimals.Format(j + 1), 6);
    var n := |ArtifactName(i)|;
    assert x == ArtifactName(i)[9..n - 4] && y == ArtifactName(j)[9..n - 4];
    LeadingZeros(if |Decimals.Format(i + 1)| < 6 then 6 - |Decimals.Format(i + 1)| else 0, Decimals.Format(i + 1));
    LeadingZeros(if |Decimals.Format(j + 1)| < 6 then 6 - |Decimals.Format(j + 1)| else 0, Decimals.Format(j + 1));
  }

  // ---------- what is valid ----------

  predicate ValidBoundedText(value: Text, maximum: nat) {
    value != [] && |value| <= maximum && ValidUTF8(value) && 0 !in value
  }

  predicate ValidAbsolutePath(value: Text) {
    ValidBoundedText(value, Paths.MAXIMUM_PATH) && Paths.Rooted(value) && Paths.Clean(value) == value
  }

  predicate ValidContainerPath(value: Text) {
    ValidAbsolutePath(value) && value != [Paths.SLASH]
  }

  predicate ValidInventory(value: Inventory) {
    0 <= value.entryCount <= MAXIMUM_ENTRIES && 0 <= value.payloadBytes <= value.archiveBytes &&
    value.archiveBytes >= 2 * BLOCK && value.archiveBytes % BLOCK == 0 &&
    value.archiveDigest != ZERO_DIGEST && value.semanticDigest != ZERO_DIGEST
  }

  predicate ValidArtifact(artifact: Artifact, index: nat) {
    var mount := artifact.mount;
    !mount.readOnly && ValidAbsolutePath(mount.source) && ValidContainerPath(mount.target) &&
    artifact.fileName == ArtifactName(index) && ValidInventory(artifact.inventory) &&
    if mount.kind == Specs.MOUNT_BIND then mount.name == [] && artifact.provenance != ZERO_DIGEST
    else
      mount.kind == Specs.MOUNT_VOLUME && ValidBoundedText(mount.name, MAXIMUM_IDENTITY) &&
      artifact.provenance == ZERO_DIGEST
  }

  predicate ValidManifestIdentity(m: Manifest) {
    m.version == VERSION && m.operationToken != NO_IDENTIFIER && m.transactionID != NO_IDENTIFIER &&
    m.baseTransactionID != NO_IDENTIFIER && ValidBoundedText(m.project, MAXIMUM_IDENTITY) &&
    ValidBoundedText(m.service, MAXIMUM_IDENTITY) && SupportsWorkloads(m.runtime) && m.createdUnix > 0
  }

  predicate ValidManifestDigests(m: Manifest) {
    m.source != ZERO_DIGEST && m.effective != ZERO_DIGEST && m.execution != ZERO_DIGEST &&
    ValidBoundedText(m.predecessorWorkloadID, Paths.MAXIMUM_PATH)
  }

  predicate ValidManifest(m: Manifest) {
    ValidManifestIdentity(m) && ValidManifestDigests(m) && 0 < |m.artifacts| <= MAXIMUM_MOUNTS &&
    forall i | 0 <= i < |m.artifacts| ::
      ValidArtifact(m.artifacts[i], i) &&
      (i > 0 ==> Ordering.Less(m.artifacts[i - 1].mount.target, m.artifacts[i].mount.target))
  }

  // ---------- the wire form ----------

  function ArtifactWith(artifact: Artifact, write: Digest -> Text): ArtifactWire {
    ArtifactWire(
      MountKindString(artifact.mount.kind), artifact.mount.name, artifact.mount.source, artifact.mount.target,
      if artifact.provenance != ZERO_DIGEST then write(artifact.provenance) else [],
      artifact.fileName, artifact.inventory.entryCount, artifact.inventory.payloadBytes,
      artifact.inventory.archiveBytes, write(artifact.inventory.archiveDigest),
      write(artifact.inventory.semanticDigest))
  }

  function ArtifactToWire(artifact: Artifact): ArtifactWire {
    ArtifactWith(artifact, DigestString)
  }

  function ManifestToWire(m: Manifest): ManifestWire {
    ManifestWire(
      m.version, IdentifierString(m.operationToken), IdentifierString(m.transactionID),
      IdentifierString(m.baseTransactionID), m.project, m.service, m.runtime, m.createdUnix,
      DigestString(m.source), DigestString(m.effective), DigestString(m.execution), m.predecessorWorkloadID,
      ArtifactsToWire(m.artifacts))
  }

  function OptionalDigest(value: Text, parse: Text -> Option<Digest>): Option<Digest> {
    if value == [] then Some(ZERO_DIGEST)
    else
      var digest := parse(value);
      if digest == Some(ZERO_DIGEST) then None else digest
  }

  function ArtifactOf(wire: ArtifactWire, parse: Text -> Option<Digest>): Option<Artifact> {
    var kind := ParseMountKind(wire.kind);
    var archive := parse(wire.archiveDigest);
    var semantic := parse(wire.semanticDigest);
    var provenance := OptionalDigest(wire.provenance, parse);
    if kind.None? || archive.None? || semantic.None? || provenance.None? then None
    else
      Some(Artifact(
        Specs.RuntimeMount(kind.value, wire.name, wire.source, wire.target, false), provenance.value, wire.fileName,
        Inventory(wire.entryCount, wire.payloadBytes, wire.archiveBytes, archive.value, semantic.value)))
  }

  function ArtifactFromWire(wire: ArtifactWire): Option<Artifact> {
    ArtifactOf(wire, ParseDigest)
  }

  function ArtifactsFromWire(wire: seq<ArtifactWire>): (artifacts: Option<seq<Artifact>>)
    ensures artifacts.Some? ==> |artifacts.value| == |wire|
  {
    All(wire, ArtifactFromWire)
  }

  function ArtifactsToWire(artifacts: seq<Artifact>): seq<ArtifactWire> {
    Sorting.Mapped(artifacts, ArtifactToWire)
  }

  /** The wire form as it is, without the checks on what it says. */
  function Parsed(wire: ManifestWire): Option<Manifest> {
    var operation := ParseIdentifier(wire.operationToken);
    var transaction := ParseIdentifier(wire.transactionID);
    var base := ParseIdentifier(wire.baseTransactionID);
    var runtime := ParseRuntimeKind(wire.runtime);
    var source, effective := ParseDigest(wire.source), ParseDigest(wire.effective);
    var execution := ParseDigest(wire.execution);
    if operation.None? || transaction.None? || base.None? || runtime.None? || source.None? || effective.None? ||
       execution.None? || |wire.artifacts| > MAXIMUM_MOUNTS then None
    else
      var artifacts := ArtifactsFromWire(wire.artifacts);
      if artifacts.None? then None
      else
        Some(Manifest(
          wire.version, operation.value, transaction.value, base.value, wire.project, wire.service,
          runtime.value, wire.createdUnix, source.value, effective.value, execution.value,
          wire.predecessorWorkloadID, artifacts.value))
  }

  function ManifestFromWire(wire: ManifestWire): Option<Manifest> {
    var manifest := Parsed(wire);
    if manifest.None? || !ValidManifest(manifest.value) then None else manifest
  }

  // ---------- the round trips ----------

  lemma {:induction false} DigestReads(d: Digest)
    ensures ParseDigest(DigestString(d)) == Some(d) && DigestString(d) != []
  {
    DigestTextIsExact(DigestString(d), d);
  }

  lemma {:induction false} DigestWrites(value: Text)
    requires ParseDigest(value).Some?
    ensures DigestString(ParseDigest(value).value) == value
  {
    DigestTextIsExact(value, ParseDigest(value).value);
  }

  /** The texts of digests and the digests correspond one to one. */
  ghost predicate Inverse(write: Digest -> Text, parse: Text -> Option<Digest>) {
    (forall d: Digest :: parse(write(d)) == Some(d) && write(d) != []) &&
    forall value: Text :: parse(value).Some? ==> write(parse(value).value) == value
  }

  lemma {:induction false} DigestsAreInverse()
    ensures Inverse(DigestString, ParseDigest)
  {
    forall d: Digest
      ensures ParseDigest(DigestString(d)) == Some(d) && DigestString(d) != []
    {
      DigestReads(d);
    }
    forall value: Text | ParseDigest(value).Some?
      ensures DigestString(ParseDigest(value).value) == value
    {
      DigestWrites(value);
    }
  }

  lemma {:induction false} ArtifactRoundTrip(artifact: Artifact, write: Digest -> Text, parse: Text -> Option<Digest>)
    requires Inverse(write, parse)
    requires !artifact.mount.readOnly && artifact.mount.kind in [Specs.MOUNT_BIND, Specs.MOUNT_VOLUME]
    ensures ArtifactOf(ArtifactWith(artifact, write), parse) == Some(artifact)
  {
  }

  lemma {:induction false} WireRoundTrip(wire: ArtifactWire, write: Digest -> Text, parse: Text -> Option<Digest>)
    requires Inverse(write, parse) && ArtifactOf(wire, parse).Some?
    ensures ArtifactWith(ArtifactOf(wire, parse).value, write) == wire
  {
  }

  lemma {:induction false} ArtifactReads(artifact: Artifact)
    requires !artifact.mount.readOnly && artifact.mount.kind in [Specs.MOUNT_BIND, Specs.MOUNT_VOLUME]
    ensures ArtifactFromWire(ArtifactToWire(artifact)) == Some(artifact)
  {
    DigestsAreInverse();
    ArtifactRoundTrip(artifact, DigestString, ParseDigest);
  }

  lemma {:induction false} ArtifactWrites(wire: ArtifactWire)
    requires ArtifactFromWire(wire).Some?
    ensures ArtifactToWire(ArtifactFromWire(wire).value) == wire
  {
    DigestsAreInverse();
    WireRoundTrip(wire, DigestString, ParseDigest);
  }

  lemma {:induction false} AllRead<A, B>(values: seq<A>, write: A -> B, parse: B -> Option<A>)
    requires forall i | 0 <= i < |values| :: parse(write(values[i])) == Some(values[i])
    ensures All(Sorting.Mapped(values, write), parse) == Some(values)
  {
    if values != [] {
      var n := |values| - 1;
      AllRead(values[..n], write, parse);
      assert Sorting.Mapped(values, write)[..n] == Sorting.Mapped(values[..n], write);
      assert values == values[..n] + [values[n]];
    }
  }

  lemma {:induction false} AllWritten<A, B>(values: seq<B>, write: A -> B, parse: B -> Option<A>)
    requires forall i | 0 <= i < |values| && parse(values[i]).Some? :: write(parse(values[i]).value) == values[i]
    requires All(values, parse).Some?
    ensures Sorting.Mapped(All(values, parse).value, write) == values
  {
    if values != [] {
      var n := |values| - 1;
      AllWritten(values[..n], write, parse);
      assert Sorting.Mapped(All(values, parse).value, write) ==
        Sorting.Mapped(All(values[..n], parse).value, write) + [values[n]];
      assert values == values[..n] + [values[n]];
    }
  }

  lemma {:induction false} ArtifactsRead(artifacts: seq<Artifact>)
    requires forall i | 0 <= i < |artifacts| ::
      !artifacts[i].mount.readOnly && artifacts[i].mount.kind in [Specs.MOUNT_BIND, Specs.MOUNT_VOLUME]
    ensures ArtifactsFromWire(ArtifactsToWire(artifacts)) == Some(artifacts)
  {
    forall i | 0 <= i < |artifacts|
      ensures ArtifactFromWire(ArtifactToWire(artifacts[i])) == Some(artifacts[i])
    {
      ArtifactReads(artifacts[i]);
    }
    AllRead(artifacts, ArtifactToWire, ArtifactFromWire);
  }

  lemma {:induction false} ArtifactsWrite(wire: seq<ArtifactWire>)
    requires ArtifactsFromWire(wire).Some?
    ensures ArtifactsToWire(ArtifactsFromWire(wire).value) == wire
  {
    forall i | 0 <= i < |wire| && ArtifactFromWire(wire[i]).Some?
      ensures ArtifactToWire(ArtifactFromWire(wire[i]).value) == wire[i]
    {
      ArtifactWrites(wire[i]);
    }
    AllWritten(wire, ArtifactToWire, ArtifactFromWire);
  }

  lemma {:induction false} IdentifierReads(n: Identifier)
    requires n != NO_IDENTIFIER
    ensures ParseIdentifier(IdentifierString(n)) == Some(n)
  {
    IdentifierTextIsExact(IdentifierString(n), n);
  }

  lemma {:induction false} IdentifierWrites(value: Text)
    requires ParseIdentifier(value).Some?
    ensures IdentifierString(ParseIdentifier(value).value) == value
  {
    IdentifierTextIsExact(value, ParseIdentifier(value).value);
  }

  lemma {:induction false} ParsedReads(m: Manifest)
    requires m.operationToken != NO_IDENTIFIER && m.transactionID != NO_IDENTIFIER
    requires m.baseTransactionID != NO_IDENTIFIER && SupportsWorkloads(m.runtime)
    requires |m.artifacts| <= MAXIMUM_MOUNTS && ArtifactsFromWire(ArtifactsToWire(m.artifacts)) == Some(m.artifacts)
    ensures Parsed(ManifestToWire(m)) == Some(m)
  {
    IdentifierReads(m.operationToken);
    IdentifierReads(m.transactionID);
    IdentifierReads(m.baseTransactionID);
    DigestReads(m.source);
    DigestReads(m.effective);
    DigestReads(m.execution);
  }

  /** Every valid manifest is read back from its wire form. */
  lemma {:induction false} ManifestReads(m: Manifest)
    requires ValidManifest(m)
    ensures ManifestFromWire(ManifestToWire(m)) == Some(m)
  {
    ArtifactsRead(m.artifacts);
    ParsedReads(m);
  }

  lemma {:induction false} ParsedWrites(wire: ManifestWire)
    requires Parsed(wire).Some?
    ensures ManifestToWire(Parsed(wire).value) == wire
  {
    IdentifierWrites(wire.operationToken);
    IdentifierWrites(wire.transactionID);
    IdentifierWrites(wire.baseTransactionID);
    DigestWrites(wire.source);
    DigestWrites(wire.effective);
    DigestWrites(wire.execution);
    ArtifactsWrite(wire.artifacts);
  }

  /** The two forms correspond one to one: a wire form is accepted exactly when it is that of a valid
      manifest, and then as that manifest. */
  lemma {:induction false} ManifestIsExact(wire: ManifestWire, m: Manifest)
    ensures ManifestFromWire(wire) == Some(m) <==> ValidManifest(m) && wire == ManifestToWire(m)
  {
    if ManifestFromWire(wire) == Some(m) {
      ParsedWrites(wire);
    }
    if ValidManifest(m) && wire == ManifestToWire(m) {
      ManifestReads(m);
    }
  }

  // ---------- field by field ----------

  /** No provenance is no text; any other is a digest that is not zero. */
  predicate ProvenanceReads(text: Text, provenance: Digest) {
    if provenance == ZERO_DIGEST then text == [] else ParseDigest(text) == Some(provenance)
  }

  predicate ArtifactReadsAs(wire: ArtifactWire, a: Artifact) {
    ParseMountKind(wire.kind) == Some(a.mount.kind) && wire.name == a.mount.name && wire.source == a.mount.source &&
    wire.target == a.mount.target && ProvenanceReads(wire.provenance, a.provenance) && wire.fileName == a.fileName &&
    wire.entryCount == a.inventory.entryCount && wire.payloadBytes == a.inventory.payloadBytes &&
    wire.archiveBytes == a.inventory.archiveBytes &&
    ParseDigest(wire.archiveDigest) == Some(a.inventory.archiveDigest) &&
    ParseDigest(wire.semanticDigest) == Some(a.inventory.semanticDigest)
  }

  /** Every field of the wire form reads as the field of its name. */
  predicate ReadsAs(wire: ManifestWire, m: Manifest) {
    wire.version == m.version && ParseIdentifier(wire.operationToken) == Some(m.operationToken) &&
    ParseIdentifier(wire.transactionID) == Some(m.transactionID) &&
    ParseIdentifier(wire.baseTransactionID) == Some(m.baseTransactionID) && wire.project == m.project &&
    wire.service == m.service && wire.runtime == m.runtime && wire.createdUnix == m.createdUnix &&
    ParseDigest(wire.source) == Some(m.source) && ParseDigest(wire.effective) == Some(m.effective) &&
    ParseDigest(wire.execution) == Some(m.execution) && wire.predecessorWorkloadID == m.predecessorWorkloadID &&
    |wire.artifacts| == |m.artifacts| &&
    forall i | 0 <= i < |m.artifacts| :: ArtifactReadsAs(wire.artifacts[i], m.artifacts[i])
  }

  lemma {:induction false} ArtifactExactly(wire: ArtifactWire, a: Artifact)
    requires !a.mount.readOnly
    ensures ArtifactFromWire(wire) == Some(a) <==> ArtifactReadsAs(wire, a)
  {
    ArtifactOfExactly(wire, a, ParseDigest);
    DigestsAreInverse();
    assert ParseDigest([]).None?;
  }

  lemma {:induction false} ArtifactOfExactly(wire: ArtifactWire, a: Artifact, parse: Text -> Option<Digest>)
    requires !a.mount.readOnly
    ensures ArtifactOf(wire, parse) == Some(a) <==>
            ParseMountKind(wire.kind) == Some(a.mount.kind) && wire.name == a.mount.name &&
            wire.source == a.mount.source && wire.target == a.mount.target &&
            OptionalDigest(wire.provenance, parse) == Some(a.provenance) && wire.fileName == a.fileName &&
            wire.entryCount == a.inventory.entryCount && wire.payloadBytes == a.inventory.payloadBytes &&
            wire.archiveBytes == a.inventory.archiveBytes &&
            parse(wire.archiveDigest) == Some(a.inventory.archiveDigest) &&
            parse(wire.semanticDigest) == Some(a.inventory.semanticDigest)
  {
  }

  lemma {:induction false} AllAre<A, B>(values: seq<B>, parse: B -> Option<A>, results: seq<A>)
    ensures All(values, parse) == Some(results) <==>
            |values| == |results| && forall i | 0 <= i < |values| :: parse(values[i]) == Some(results[i])
  {
    if values != [] && results != [] {
      var n := |values| - 1;
      AllAre(values[..n], parse, results[..|results| - 1]);
      assert results == results[..|results| - 1] + [results[|results| - 1]];
      if |values| == |results| {
        assert (forall i | 0 <= i < |values| :: parse(values[i]) == Some(results[i])) <==>
          (forall i | 0 <= i < n :: parse(values[..n][i]) == Some(results[..n][i])) &&
          parse(values[n]) == Some(results[n]);
      }
    }
  }

  lemma {:induction false} ArtifactsExactly(wire: seq<ArtifactWire>, artifacts: seq<Artifact>)
    requires forall i | 0 <= i < |artifacts| :: !artifacts[i].mount.readOnly
    ensures ArtifactsFromWire(wire) == Some(artifacts) <==>
            |wire| == |artifacts| && forall i | 0 <= i < |artifacts| :: ArtifactReadsAs(wire[i], artifacts[i])
  {
    AllAre(wire, ArtifactFromWire, artifacts);
    if |wire| == |artifacts| {
      forall i | 0 <= i < |artifacts|
        ensures ArtifactFromWire(wire[i]) == Some(artifacts[i]) <==> ArtifactReadsAs(wire[i], artifacts[i])
      {
        ArtifactExactly(wire[i], artifacts[i]);
      }
    }
  }

  lemma {:induction false} NothingReadOnly(m: Manifest)
    requires ValidManifest(m)
    ensures SupportsWorkloads(m.runtime) && |m.artifacts| <= MAXIMUM_MOUNTS
    ensures forall i | 0 <= i < |m.artifacts| :: !m.artifacts[i].mount.readOnly
  {
  }

  lemma {:induction false} ParsedExactly(wire: ManifestWire, m: Manifest)
    requires SupportsWorkloads(m.runtime) && |m.artifacts| <= MAXIMUM_MOUNTS
    requires ArtifactsFromWire(wire.artifacts) == Some(m.artifacts) <==>
      |wire.artifacts| == |m.artifacts| &&
      forall i | 0 <= i < |m.artifacts| :: ArtifactReadsAs(wire.artifacts[i], m.artifacts[i])
    ensures Parsed(wire) == Some(m) <==> ReadsAs(wire, m)
  {
  }

  /** A wire form is accepted as a manifest exactly when the manifest is valid and every field of the wire
      form reads as the field of its name. */
  lemma {:induction false} FieldsRead(wire: ManifestWire, m: Manifest)
    ensures ManifestFromWire(wire) == Some(m) <==> ValidManifest(m) && ReadsAs(wire, m)
  {
    if ValidManifest(m) {
      NothingReadOnly(m);
      ArtifactsExactly(wire.artifacts, m.artifacts);
      ParsedExactly(wire, m);
    }
  }
}
