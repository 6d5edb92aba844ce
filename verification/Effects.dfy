/** The external operations of an upgrade, their typed probes and their evidence digests. */
module Effects {
  import opened Values
  import opened Workloads

  datatype ActionKind =
    | ImagePull
    | WorkloadStop
    | WorkloadRename
    | WorkloadCreate
    | WorkloadStart
    | WorkloadRemove
    | WorkloadDiscard
    | WorkloadRestoreStart
    | NoKind

  datatype EvidenceState = AsIntent | AsObserved | AsMissing | AsUnstarted

  /** A journal digest, identified with the evidence it was computed from. Module EvidenceDigests
      shows that this confuses no two of them unless the hash collides. */
  datatype Evidence =
    | ImageEvidence(state: EvidenceState, image: ImageIdentity)
    | TransitionEvidence(after: bool, transition: Transition, observed: ExistingWorkload)
    | WorkloadEvidence(
        state: EvidenceState, kind: ActionKind, workload: DesiredWorkload, transaction: Text, observedID: Text)
    | StoredEvidence(
        state: EvidenceState, kind: ActionKind, workload: DesiredWorkload, transaction: Text, observedID: Text,
        storage: Digest)

  /** One external operation together with everything it was planned from. */
  datatype Effect =
    | PullEffect
    | TransitionEffect(transition: Transition)
    | CreateEffect
    | StartEffect
    | DiscardEffect

  /** What the runtime reports about a workload of this transaction. */
  datatype Container = Container(
    id: Text,
    name: Text,
    configuration: Digest,
    storage: Digest,
    storageMatches: bool,
    configurationMatches: bool,
    lifecycle: Lifecycle,
    ownership: Ownership)

  /** The runtime objects the transaction can touch. */
  datatype Runtime = Runtime(
    image: bool,
    predecessor: Option<ExistingWorkload>,
    replacement: Option<Container>)

  datatype Postcondition = Postcondition(digest: Evidence, satisfied: bool)

  /** A probe's verdict; `incomplete` marks a removal that the runtime has begun and not finished. */
  datatype Observation = Observation(postcondition: Postcondition, incomplete: bool)

  function TransitionActionKind(kind: TransitionKind): ActionKind {
    match kind
    case Stop => WorkloadStop
    case Rename => WorkloadRename
    case Remove => WorkloadRemove
    case RestoreStart => WorkloadRestoreStart
    case UnknownTransition => NoKind
  }

  function KindOf(e: Effect): ActionKind {
    match e
    case PullEffect => ImagePull
    case TransitionEffect(t) => TransitionActionKind(t.kind)
    case CreateEffect => WorkloadCreate
    case StartEffect => WorkloadStart
    case DiscardEffect => WorkloadDiscard
  }

  function IntentDigest(p: Preparation, e: Effect): Evidence {
    match e
    case PullEffect => ImageEvidence(AsIntent, p.workload.image)
    case TransitionEffect(t) => TransitionEvidence(false, t, t.before)
    case _ => WorkloadEvidence(AsIntent, KindOf(e), p.workload, p.transaction, [])
  }

  /** The checks an effect makes on its own arguments before it touches the journal. */
  predicate ValidEffect(p: Preparation, e: Effect) {
    match e
    case PullEffect => p.workload.image.origin.Registry? && ValidImage(p.workload.image)
    case TransitionEffect(t) => p.transaction != [] && ValidTransition(t)
    case _ => p.transaction != [] && ValidEffectWorkload(p.workload)
  }

  // ---------- probes ----------

  function ReplacementOwnership(p: Preparation): Ownership {
    Ownership(Managed, p.workload.service, p.transaction, p.workload.effective,
              p.workload.image.referenceDigest, p.workload.image.imageConfig, p.workload.image.platformManifest)
  }

  /** The generation that a commit records: the container that was proved running, under this transaction. */
  function Baseline(p: Preparation, c: Container): AppliedService {
    AppliedService(false, p.transaction, c.id, c.configuration, p.workload.effective,
                   p.workload.image.referenceDigest, p.workload.image.imageConfig, p.workload.image.platformManifest)
  }

  predicate MatchesDesired(p: Preparation, c: Container) {
    c.id != [] && c.name == p.workload.container && c.configuration != ZERO_DIGEST &&
    c.storageMatches && c.configurationMatches && c.ownership == ReplacementOwnership(p)
  }

  predicate CreatedMatches(p: Preparation, c: Container, responseID: Text) {
    MatchesDesired(p, c) && c.lifecycle.Created? && (responseID == [] || c.id == responseID)
  }

  predicate StartedMatches(p: Preparation, c: Container) {
    MatchesDesired(p, c) && c.lifecycle.Running?
  }

  predicate DiscardMatches(p: Preparation, c: Container) {
    MatchesDesired(p, c) && (c.lifecycle.Created? || c.lifecycle.Running? || c.lifecycle.Exited?)
  }

  /** What the desired name and the transaction's ownership labels select. */
  datatype Selection = SelectedNone | Selected(container: Container) | SelectedOther

  function Select(p: Preparation, r: Runtime): Selection {
    if r.replacement.Some? then Selected(r.replacement.value)
    else if r.predecessor.Some? && r.predecessor.value.name == p.workload.container then SelectedOther
    else SelectedNone
  }

  function ObservedTransition(t: Transition, workload: ExistingWorkload): Option<Observation> {
    if t.kind.Remove? && workload == t.before.(lifecycle := Removing) then
      Some(Observation(TransitionPostcondition(t, false), true))
    else if workload != t.before && workload != t.after then None
    else
      var satisfied := !t.kind.Remove? && workload == t.after;
      Some(Observation(Postcondition(TransitionEvidence(satisfied, t, workload), satisfied), false))
  }

  function TransitionPostcondition(t: Transition, satisfied: bool): Postcondition {
    if satisfied && t.kind.Remove? then Postcondition(TransitionEvidence(true, t, NO_WORKLOAD), true)
    else Postcondition(TransitionEvidence(satisfied, t, if satisfied then t.after else t.before), satisfied)
  }

  function ProbeTransition(t: Transition, r: Runtime): Option<Observation> {
    match r.predecessor
    case None =>
      if !t.kind.Remove? then None
      else Some(Observation(Postcondition(TransitionEvidence(true, t, NO_WORKLOAD), true), false))
    case Some(workload) => ObservedTransition(t, workload)
  }

  function ProbeCreated(p: Preparation, responseID: Text, r: Runtime): Option<Observation> {
    match Select(p, r)
    case SelectedNone =>
      Some(Observation(
        Postcondition(WorkloadEvidence(AsMissing, WorkloadCreate, p.workload, p.transaction, []), false), false))
    case Selected(c) =>
      if !CreatedMatches(p, c, responseID) then None
      else Some(Observation(Postcondition(StoredDigest(p, AsObserved, WorkloadCreate, c), true), false))
    case SelectedOther => None
  }

  function ProbeStarted(p: Preparation, r: Runtime): Option<Observation> {
    match Select(p, r)
    case SelectedNone =>
      Some(Observation(
        Postcondition(WorkloadEvidence(AsMissing, WorkloadStart, p.workload, p.transaction, []), false), false))
    case Selected(c) =>
      if StartedMatches(p, c) then
        Some(Observation(Postcondition(StoredDigest(p, AsObserved, WorkloadStart, c), true), false))
      else if CreatedMatches(p, c, []) then
        Some(Observation(Postcondition(StoredDigest(p, AsUnstarted, WorkloadStart, c), false), false))
      else None
    case SelectedOther => None
  }

  function ProbeDiscarded(p: Preparation, r: Runtime): Option<Observation> {
    match Select(p, r)
    case SelectedNone =>
      Some(Observation(
        Postcondition(WorkloadEvidence(AsMissing, WorkloadDiscard, p.workload, p.transaction, []), true), false))
    case Selected(c) =>
      if !DiscardMatches(p, c) then None
      else Some(Observation(Postcondition(StoredDigest(p, AsObserved, WorkloadDiscard, c), false), false))
    case SelectedOther => None
  }

  function StoredDigest(p: Preparation, state: EvidenceState, kind: ActionKind, c: Container): Evidence {
    StoredEvidence(state, kind, p.workload, p.transaction, c.id, c.storage)
  }

  /** The truthful verdict on an effect, or None when the evidence conflicts. */
  function Probe(p: Preparation, e: Effect, responseID: Text, r: Runtime): Option<Observation> {
    match e
    case PullEffect =>
      Some(Observation(
        Postcondition(
          ImageEvidence(if r.image then AsObserved else AsMissing, p.workload.image), r.image), false))
    case TransitionEffect(t) => ProbeTransition(t, r)
    case CreateEffect => ProbeCreated(p, responseID, r)
    case StartEffect => ProbeStarted(p, r)
    case DiscardEffect => ProbeDiscarded(p, r)
  }

  // ---------- operations ----------

  /** The state in which an operation may be fired. Create, rename and discard never meet another
      holder of the name they use; the two generations never run together; the predecessor is
      removed only beside a running replacement; nothing fires after it has taken hold. */
  predicate Ready(p: Preparation, e: Effect, r: Runtime) {
    match e
    case PullEffect => !r.image
    case TransitionEffect(t) =>
      r.predecessor == Some(t.before) &&
      if t.kind.Remove? then r.replacement.Some? && StartedMatches(p, r.replacement.value)
      else r.replacement.None?
    case CreateEffect => Select(p, r).SelectedNone? && r.predecessor == Some(Retained(p))
    case StartEffect =>
      Select(p, r).Selected? && CreatedMatches(p, r.replacement.value, []) &&
      r.predecessor == Some(Retained(p))
    case DiscardEffect => r.predecessor == Some(Retained(p)) && Retained(p).name != p.workload.container
  }

  /** The operation has taken hold: `after` is a state it may leave behind. */
  predicate TakesHold(p: Preparation, e: Effect, before: Runtime, after: Runtime) {
    match e
    case PullEffect => after == before.(image := true)
    case TransitionEffect(t) =>
      after.predecessor in
        (if t.kind.Remove? then [None, Some(t.before.(lifecycle := Removing))] else [Some(t.after)]) &&
      after == before.(predecessor := after.predecessor)
    case CreateEffect =>
      after.replacement.Some? && CreatedMatches(p, after.replacement.value, []) &&
      after == before.(replacement := after.replacement)
    case StartEffect =>
      before.replacement.Some? &&
      after == before.(replacement := Some(before.replacement.value.(lifecycle := Running)))
    case DiscardEffect => before.replacement.Some? && after == before.(replacement := None)
  }

  // ---------- recorded evidence ----------

  predicate SatisfiedDigest(p: Preparation, e: Effect, d: Evidence) {
    match e
    case PullEffect => d == ImageEvidence(AsObserved, p.workload.image)
    case TransitionEffect(t) => d == TransitionPostcondition(t, true).digest
    case CreateEffect =>
      d.StoredEvidence? && d == StoredEvidence(AsObserved, WorkloadCreate, p.workload, p.transaction, d.observedID,
                                               d.storage)
    case StartEffect =>
      d.StoredEvidence? && d == StoredEvidence(AsObserved, WorkloadStart, p.workload, p.transaction, d.observedID,
                                               d.storage)
    case DiscardEffect => d == WorkloadEvidence(AsMissing, WorkloadDiscard, p.workload, p.transaction, [])
  }

  predicate NegativeDigest(p: Preparation, e: Effect, d: Evidence) {
    match e
    case PullEffect => d == ImageEvidence(AsMissing, p.workload.image)
    case TransitionEffect(t) => d == TransitionPostcondition(t, false).digest
    case CreateEffect => d == WorkloadEvidence(AsMissing, WorkloadCreate, p.workload, p.transaction, [])
    case StartEffect =>
      d.StoredEvidence? && d == StoredEvidence(AsUnstarted, WorkloadStart, p.workload, p.transaction, d.observedID,
                                               d.storage)
    case DiscardEffect =>
      d.StoredEvidence? && d == StoredEvidence(AsObserved, WorkloadDiscard, p.workload, p.transaction, d.observedID,
                                               d.storage)
  }
}
