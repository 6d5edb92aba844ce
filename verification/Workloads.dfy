/** Workload identities, ownership and the exact transitions between them. */
module Workloads {
  import opened Values

  datatype OwnershipStatus = Conflicting | Unmanaged | Managed

  datatype Ownership = Ownership(
    status: OwnershipStatus,
    service: Text,
    transaction: Text,
    desiredState: Digest,
    reference: Digest,
    imageConfig: Digest,
    platformManifest: Digest)

  const NO_OWNERSHIP: Ownership :=
    Ownership(Conflicting, [], [], ZERO_DIGEST, ZERO_DIGEST, ZERO_DIGEST, ZERO_DIGEST)

  const UNMANAGED: Ownership := NO_OWNERSHIP.(status := Unmanaged)

  datatype Lifecycle =
    | Unknown | Created | Running | Paused | Restarting | Removing | Exited | Dead

  datatype ExistingWorkload = ExistingWorkload(
    id: Text,
    name: Text,
    configuration: Digest,
    lifecycle: Lifecycle,
    ownership: Ownership)

  /** The zero value that a removal leaves behind. */
  const NO_WORKLOAD: ExistingWorkload := ExistingWorkload([], [], ZERO_DIGEST, Unknown, NO_OWNERSHIP)

  datatype TransitionKind = UnknownTransition | Stop | Rename | Remove | RestoreStart

  datatype Transition = Transition(kind: TransitionKind, before: ExistingWorkload, after: ExistingWorkload)

  predicate ValidTransition(t: Transition) {
    ValidWorkload(t.before) &&
    match t.kind
    case Stop => SameIdentity(t.before, t.after) && t.before.lifecycle.Running? && t.after.lifecycle.Exited?
    case Rename =>
      t.before.name != t.after.name && SameExceptName(t.before, t.after) && t.before.lifecycle.Exited?
    case Remove => t.after == NO_WORKLOAD && t.before.lifecycle.Exited?
    case RestoreStart =>
      SameIdentity(t.before, t.after) && t.before.lifecycle.Exited? && t.after.lifecycle.Running?
    case UnknownTransition => false
  }

  predicate SameIdentity(left: ExistingWorkload, right: ExistingWorkload) {
    left.id == right.id && left.name == right.name &&
    left.configuration == right.configuration && left.ownership == right.ownership
  }

  predicate SameExceptName(left: ExistingWorkload, right: ExistingWorkload) {
    left.id == right.id && left.configuration == right.configuration &&
    left.lifecycle == right.lifecycle && left.ownership == right.ownership
  }

  predicate ValidWorkload(workload: ExistingWorkload) {
    ValidWorkloadText(workload.id) && ValidWorkloadText(workload.name) &&
    workload.configuration != ZERO_DIGEST &&
    (workload.lifecycle.Created? || workload.lifecycle.Running? || workload.lifecycle.Exited?) &&
    ValidOwnership(workload.ownership)
  }

  predicate ValidOwnership(ownership: Ownership) {
    if ownership.status.Unmanaged? then ownership == UNMANAGED
    else
      ownership.status.Managed? && ownership.service != [] && ownership.transaction != [] &&
      ownership.desiredState != ZERO_DIGEST && ownership.reference != ZERO_DIGEST &&
      ownership.imageConfig != ZERO_DIGEST && ownership.platformManifest != ZERO_DIGEST
  }

  predicate ValidWorkloadText(value: Text) {
    value != [] && ValidUTF8(value) && 0 !in value
  }

  datatype ImageOrigin = UnknownOrigin | Registry | DockerArchive

  /** `validReference` is the verdict of the image-reference parser on `reference`. */
  datatype ImageIdentity = ImageIdentity(
    origin: ImageOrigin,
    reference: Text,
    validReference: bool,
    referenceDigest: Digest,
    os: Text,
    architecture: Text,
    variant: Text,
    platformManifest: Digest,
    imageConfig: Digest)

  /** The fields of a desired workload that its effects read; absent lists are Go's nil. */
  datatype DesiredWorkload = DesiredWorkload(
    service: Text,
    container: Text,
    image: ImageIdentity,
    entrypoint: Option<seq<Text>>,
    command: Option<seq<Text>>,
    source: Digest,
    effective: Digest)

  predicate ValidImage(image: ImageIdentity) {
    image.referenceDigest != ZERO_DIGEST && image.platformManifest != ZERO_DIGEST &&
    image.imageConfig != ZERO_DIGEST && image.os != [] && image.architecture != [] &&
    image.validReference && !image.origin.UnknownOrigin?
  }

  predicate ValidEffectWorkload(workload: DesiredWorkload) {
    workload.service != [] && workload.container != [] && workload.source != ZERO_DIGEST &&
    workload.effective != ZERO_DIGEST && ValidImage(workload.image) &&
    |Items(workload.entrypoint)| + |Items(workload.command)| > 0 &&
    ValidArguments(Items(workload.entrypoint)) && ValidArguments(Items(workload.command))
  }

  predicate ValidArguments(values: seq<Text>) {
    forall index | 0 <= index < |values| :: ValidUTF8(values[index]) && 0 !in values[index]
  }

  /** The generation that the transaction replaces. */
  datatype AppliedService = AppliedService(
    adopted: bool,
    transaction: Text,
    workloadID: Text,
    configuration: Digest,
    effective: Digest,
    reference: Digest,
    imageConfig: Digest,
    platformManifest: Digest)

  /** What every run of one upgrade transaction agrees on. `retainedName` is the fixed prefix
      followed by the transaction's identifier; nothing rules out that it is the desired name. */
  datatype Preparation = Preparation(
    transaction: Text,
    retainedName: Text,
    workload: DesiredWorkload,
    applied: AppliedService)

  function AppliedOwnership(applied: AppliedService, service: Text): Ownership {
    if applied.adopted then UNMANAGED
    else
      Ownership(Managed, service, applied.transaction, applied.effective, applied.reference,
                applied.imageConfig, applied.platformManifest)
  }

  /** The predecessor as the transaction found it. */
  function Original(p: Preparation): ExistingWorkload {
    ExistingWorkload(p.applied.workloadID, p.workload.container, p.applied.configuration, Running,
                     AppliedOwnership(p.applied, p.workload.service))
  }

  function Stopped(p: Preparation): ExistingWorkload {
    Original(p).(lifecycle := Exited)
  }

  function Retained(p: Preparation): ExistingWorkload {
    Stopped(p).(name := p.retainedName)
  }

  datatype UpgradeJourney = UpgradeJourney(stop: Transition, rename: Transition, remove: Transition)

  function NewUpgradeJourney(p: Preparation): UpgradeJourney {
    UpgradeJourney(
      Transition(Stop, Original(p), Stopped(p)),
      Transition(Rename, Stopped(p), Retained(p)),
      Transition(Remove, Retained(p), NO_WORKLOAD))
  }

  function ReverseRename(p: Preparation): Transition {
    Transition(Rename, Retained(p), Stopped(p))
  }

  function RestoreStartTransition(p: Preparation): Transition {
    Transition(RestoreStart, Stopped(p), Original(p))
  }
}
