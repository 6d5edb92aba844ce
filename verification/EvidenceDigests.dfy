/** The byte strings behind the journal's digests, and why the journal may be read as if it held the
    evidence itself: two pieces of evidence share a digest only where the hash collides. */
module EvidenceDigests {
  import opened Effects
  import opened Encoding
  import opened Values
  import opened Workloads
  import WorkloadDigest

  /** The name under which the journal keeps an action. */
  function KindText(kind: ActionKind): Text {
    match kind
    case ImagePull => Ascii("image.pull")
    case WorkloadStop => Ascii("workload.stop")
    case WorkloadRename => Ascii("workload.rename")
    case WorkloadCreate => Ascii("workload.create")
    case WorkloadStart => Ascii("workload.start")
    case WorkloadRemove => Ascii("workload.remove")
    case WorkloadDiscard => Ascii("workload.discard")
    case WorkloadRestoreStart => Ascii("workload.restore-start")
    case NoKind => []
  }

  function StateByte(state: EvidenceState): Byte {
    match state
    case AsIntent => 0
    case AsObserved => 1
    case AsMissing => 2
    case AsUnstarted => 3
  }

  function TransitionByte(kind: TransitionKind): Byte {
    match kind
    case UnknownTransition => 0
    case Stop => 1
    case Rename => 2
    case Remove => 3
    case RestoreStart => 4
  }

  function LifecycleNumber(lifecycle: Lifecycle): nat {
    match lifecycle
    case Unknown => 0
    case Created => 1
    case Running => 2
    case Paused => 3
    case Restarting => 4
    case Removing => 5
    case Exited => 6
    case Dead => 7
  }

  function StatusNumber(status: OwnershipStatus): nat {
    match status
    case Conflicting => 0
    case Unmanaged => 1
    case Managed => 2
  }

  // ---------- pre-images ----------

  function OwnershipBytes(v: Ownership): Bytes {
    (Uvarint(StatusNumber(v.status)) + (TextBytes(v.service) + TextBytes(v.transaction))) +
    (DigestBytes(v.desiredState) +
     (DigestBytes(v.reference) + (DigestBytes(v.imageConfig) + DigestBytes(v.platformManifest))))
  }

  function ExistingBytes(v: ExistingWorkload): Bytes {
    (TextBytes(v.id) + (TextBytes(v.name) + (DigestBytes(v.configuration) + Uvarint(LifecycleNumber(v.lifecycle))))) +
    OwnershipBytes(v.ownership)
  }

  function TransitionPreimage(after: bool, t: Transition, observed: ExistingWorkload): Bytes {
    [1, if after then 1 else 0, TransitionByte(t.kind)] +
    (ExistingBytes(t.before) + (ExistingBytes(t.after) + ExistingBytes(observed)))
  }

  /** What the pre-images of an image and of a workload say about the image. */
  function ImageFields(image: ImageIdentity): Bytes {
    TextBytes(image.reference) +
    (DigestBytes(image.referenceDigest) +
     (WorkloadDigest.PlatformBytes(WorkloadDigest.PlatformOf(image)) +
      (DigestBytes(image.platformManifest) + DigestBytes(image.imageConfig))))
  }

  function ImagePreimage(state: EvidenceState, image: ImageIdentity): Bytes {
    [1, StateByte(state)] + (TextBytes(KindText(ImagePull)) + ImageFields(image))
  }

  function WorkloadFields(w: DesiredWorkload): Bytes {
    TextBytes(w.service) +
    (TextBytes(w.container) +
     (ImageFields(w.image) +
      (TextsBytes(w.entrypoint) +
       (TextsBytes(w.command) + (DigestBytes(w.source) + DigestBytes(w.effective))))))
  }

  function WorkloadPreimage(
    state: EvidenceState, kind: ActionKind, w: DesiredWorkload, transaction: Text, observedID: Text): Bytes
  {
    [1, StateByte(state)] +
    (TextBytes(KindText(kind)) + (WorkloadFields(w) + (TextBytes(transaction) + TextBytes(observedID))))
  }

  function StoredPreimage(base: Digest, storage: Digest): Bytes {
    [1] + (DigestBytes(base) + DigestBytes(storage))
  }

  /** The string that is hashed last; observed evidence hashes twice. */
  function Preimage(hash: Bytes -> Digest, e: Evidence): Bytes {
    match e
    case ImageEvidence(state, image) => ImagePreimage(state, image)
    case TransitionEvidence(after, t, observed) => TransitionPreimage(after, t, observed)
    case WorkloadEvidence(state, kind, w, transaction, observedID) =>
      WorkloadPreimage(state, kind, w, transaction, observedID)
    case StoredEvidence(state, kind, w, transaction, observedID, storage) =>
      StoredPreimage(hash(WorkloadPreimage(state, kind, w, transaction, observedID)), storage)
  }

  function EvidenceDigest(hash: Bytes -> Digest, e: Evidence): Digest {
    hash(Preimage(hash, e))
  }

  // ---------- reading them back ----------

  lemma {:induction false} NumbersIdentify()
    ensures forall x: Lifecycle, y: Lifecycle :: LifecycleNumber(x) == LifecycleNumber(y) ==> x == y
    ensures forall x: OwnershipStatus, y: OwnershipStatus :: StatusNumber(x) == StatusNumber(y) ==> x == y
    ensures forall x: TransitionKind, y: TransitionKind :: TransitionByte(x) == TransitionByte(y) ==> x == y
    ensures forall x: EvidenceState, y: EvidenceState :: StateByte(x) == StateByte(y) ==> x == y
  {
  }

  lemma {:induction false} OwnershipSplits(
      number: nat -> Bytes, text: Text -> Bytes, digest: Digest -> Bytes, x: Ownership, y: Ownership, r: Bytes,
      s: Bytes)
    requires Unique(number) && Unique(text) && Unique(digest)
    requires
      (number(StatusNumber(x.status)) + (text(x.service) + text(x.transaction))) +
      (digest(x.desiredState) + (digest(x.reference) + (digest(x.imageConfig) + digest(x.platformManifest)))) + r ==
      (number(StatusNumber(y.status)) + (text(y.service) + text(y.transaction))) +
      (digest(y.desiredState) + (digest(y.reference) + (digest(y.imageConfig) + digest(y.platformManifest)))) + s
    ensures x == y && r == s
  {
    var head := number(StatusNumber(x.status)) + (text(x.service) + text(x.transaction));
    var head' := number(StatusNumber(y.status)) + (text(y.service) + text(y.transaction));
    var tail := digest(x.desiredState) + (digest(x.reference) + (digest(x.imageConfig) + digest(x.platformManifest)));
    var tail' := digest(y.desiredState) + (digest(y.reference) + (digest(y.imageConfig) + digest(y.platformManifest)));
    assert head + tail + r == head + (tail + r);
    assert head' + tail' + s == head' + (tail' + s);
    WorkloadDigest.TripleSplits(number, text, text, StatusNumber(x.status), x.service, x.transaction,
                 StatusNumber(y.status), y.service, y.transaction, tail + r, tail' + s);
    WorkloadDigest.QuadrupleSplits(digest, digest, digest, digest,
                    x.desiredState, x.reference, x.imageConfig, x.platformManifest,
                    y.desiredState, y.reference, y.imageConfig, y.platformManifest, r, s);
    NumbersIdentify();
  }

  lemma {:induction false} OwnershipIsUnique()
    ensures Unique(OwnershipBytes)
  {
    UvarintIsUnique();
    TextIsUnique();
    DigestIsUnique();
    forall x: Ownership, y: Ownership, r: Bytes, s: Bytes | OwnershipBytes(x) + r == OwnershipBytes(y) + s
      ensures x == y && r == s
    {
      OwnershipSplits(Uvarint, TextBytes, DigestBytes, x, y, r, s);
    }
  }

  lemma {:induction false} ExistingSplits(
      text: Text -> Bytes, digest: Digest -> Bytes, number: nat -> Bytes, ownership: Ownership -> Bytes,
      x: ExistingWorkload, y: ExistingWorkload, r: Bytes, s: Bytes)
    requires Unique(text) && Unique(digest) && Unique(number) && Unique(ownership)
    requires
      (text(x.id) + (text(x.name) + (digest(x.configuration) + number(LifecycleNumber(x.lifecycle))))) +
      ownership(x.ownership) + r ==
      (text(y.id) + (text(y.name) + (digest(y.configuration) + number(LifecycleNumber(y.lifecycle))))) +
      ownership(y.ownership) + s
    ensures x == y && r == s
  {
    var head := text(x.id) + (text(x.name) + (digest(x.configuration) + number(LifecycleNumber(x.lifecycle))));
    var head' := text(y.id) + (text(y.name) + (digest(y.configuration) + number(LifecycleNumber(y.lifecycle))));
    assert head + ownership(x.ownership) + r == head + (ownership(x.ownership) + r);
    assert head' + ownership(y.ownership) + s == head' + (ownership(y.ownership) + s);
    WorkloadDigest.QuadrupleSplits(text, text, digest, number,
                    x.id, x.name, x.configuration, LifecycleNumber(x.lifecycle),
                    y.id, y.name, y.configuration, LifecycleNumber(y.lifecycle),
                    ownership(x.ownership) + r, ownership(y.ownership) + s);
    NumbersIdentify();
  }

  lemma {:induction false} ExistingIsUnique()
    ensures Unique(ExistingBytes)
  {
    TextIsUnique();
    DigestIsUnique();
    UvarintIsUnique();
    OwnershipIsUnique();
    forall x: ExistingWorkload, y: ExistingWorkload, r: Bytes, s: Bytes | ExistingBytes(x) + r == ExistingBytes(y) + s
      ensures x == y && r == s
    {
      ExistingSplits(TextBytes, DigestBytes, Uvarint, OwnershipBytes, x, y, r, s);
    }
  }

  lemma {:induction false} TransitionSplits(
      code: ExistingWorkload -> Bytes, after: bool, t: Transition, observed: ExistingWorkload,
      after': bool, t': Transition, observed': ExistingWorkload)
    requires Unique(code)
    requires [1, if after then 1 else 0, TransitionByte(t.kind)] +
             (code(t.before) + (code(t.after) + code(observed))) ==
             [1, if after' then 1 else 0, TransitionByte(t'.kind)] +
             (code(t'.before) + (code(t'.after) + code(observed')))
    ensures after == after' && t == t' && observed == observed'
  {
    var head, head' := [1, if after then 1 else 0, TransitionByte(t.kind)],
      [1, if after' then 1 else 0, TransitionByte(t'.kind)];
    var tail, tail' := code(t.before) + (code(t.after) + code(observed)),
      code(t'.before) + (code(t'.after) + code(observed'));
    SplitsAt(head, head', tail, tail');
    assert head[1] == head'[1] && head[2] == head'[2];
    NumbersIdentify();
    assert tail + [] == tail' + [];
    WorkloadDigest.TripleSplits(code, code, code, t.before, t.after, observed, t'.before, t'.after, observed', [], []);
  }

  /** A transition's pre-image tells which kind, which workload before and after, and what was seen. */
  lemma {:induction false} TransitionPreimageIdentifies(
      after: bool, t: Transition, observed: ExistingWorkload, after': bool, t': Transition, observed': ExistingWorkload)
    requires TransitionPreimage(after, t, observed) == TransitionPreimage(after', t', observed')
    ensures after == after' && t == t' && observed == observed'
  {
    ExistingIsUnique();
    TransitionSplits(ExistingBytes, after, t, observed, after', t', observed');
  }

  /** The kinds whose evidence is about the replacement. */
  predicate IsWorkloadKind(kind: ActionKind) {
    kind.WorkloadCreate? || kind.WorkloadStart? || kind.WorkloadDiscard?
  }

  lemma {:induction false} KindLengths(kind: ActionKind)
    ensures |KindText(ImagePull)| == 10
    ensures kind.WorkloadCreate? ==> |KindText(kind)| == 15
    ensures kind.WorkloadStart? ==> |KindText(kind)| == 14
    ensures kind.WorkloadDiscard? ==> |KindText(kind)| == 16
  {
  }

  lemma {:induction false} WorkloadSplits(
      text: Text -> Bytes, state: Byte, kind: Text, fields: Bytes, transaction: Text, observedID: Text,
      state': Byte, kind': Text, transaction': Text, observedID': Text)
    requires Unique(text)
    requires [1, state] + (text(kind) + (fields + (text(transaction) + text(observedID)))) ==
             [1, state'] + (text(kind') + (fields + (text(transaction') + text(observedID'))))
    ensures state == state' && kind == kind' && transaction == transaction' && observedID == observedID'
  {
    var tail, tail' := text(transaction) + text(observedID), text(transaction') + text(observedID');
    SplitsAt([1, state], [1, state'], text(kind) + (fields + tail), text(kind') + (fields + tail'));
    assert [1, state][1] == [1, state'][1];
    SplitsAt(fields, fields, tail, tail');
    assert tail + [] == tail' + [];
    WorkloadDigest.PairSplits(text, text, transaction, observedID, transaction', observedID', [], []);
  }

  /** Within one transaction's plan a workload's pre-image tells the state, the kind and the identities. */
  lemma {:induction false} WorkloadPreimageIdentifies(
      w: DesiredWorkload, state: EvidenceState, kind: ActionKind, transaction: Text, observedID: Text,
      state': EvidenceState, kind': ActionKind, transaction': Text, observedID': Text)
    requires IsWorkloadKind(kind) && IsWorkloadKind(kind')
    requires WorkloadPreimage(state, kind, w, transaction, observedID) ==
             WorkloadPreimage(state', kind', w, transaction', observedID')
    ensures state == state' && kind == kind' && transaction == transaction' && observedID == observedID'
  {
    TextIsUnique();
    WorkloadSplits(TextBytes, StateByte(state), KindText(kind), WorkloadFields(w), transaction, observedID,
                   StateByte(state'), KindText(kind'), transaction', observedID');
    NumbersIdentify();
    KindLengths(kind);
    KindLengths(kind');
  }

  // ---------- kinds of evidence never mix ----------

  lemma {:induction false} TextStarts(value: Text, r: Bytes)
    requires |value| < 128
    ensures |TextBytes(value)| == |value| + 1 && (TextBytes(value) + r)[0] == |value|
  {
  }

  lemma {:induction false} ImageFieldsAreLong(image: ImageIdentity)
    ensures |ImageFields(image)| >= 96
  {
  }

  lemma {:induction false} ImageShape(state: EvidenceState, image: ImageIdentity)
    ensures |ImagePreimage(state, image)| >= 98
    ensures ImagePreimage(state, image)[1] == StateByte(state) && ImagePreimage(state, image)[2] == 10
  {
    KindLengths(ImagePull);
    TextStarts(KindText(ImagePull), ImageFields(image));
    ImageFieldsAreLong(image);
  }

  lemma {:induction false} WorkloadFieldsAreLong(w: DesiredWorkload)
    ensures |WorkloadFields(w)| >= 96
  {
    ImageFieldsAreLong(w.image);
  }

  lemma {:induction false} WorkloadShape(
      state: EvidenceState, kind: ActionKind, w: DesiredWorkload, transaction: Text, observedID: Text)
    requires IsWorkloadKind(kind)
    ensures |WorkloadPreimage(state, kind, w, transaction, observedID)| >= 98
    ensures WorkloadPreimage(state, kind, w, transaction, observedID)[2] in [14, 15, 16]
  {
    KindLengths(kind);
    var rest := WorkloadFields(w) + (TextBytes(transaction) + TextBytes(observedID));
    TextStarts(KindText(kind), rest);
    WorkloadFieldsAreLong(w);
  }

  lemma {:induction false} ExistingIsLong(v: ExistingWorkload)
    ensures |ExistingBytes(v)| >= 160
  {
  }

  lemma {:induction false} TransitionShape(after: bool, t: Transition, observed: ExistingWorkload)
    ensures |TransitionPreimage(after, t, observed)| >= 98
    ensures TransitionPreimage(after, t, observed)[2] == TransitionByte(t.kind) <= 4
  {
    ExistingIsLong(t.before);
  }

  // ---------- the evidence of one transaction ----------

  /** What the actions and probes of a transaction that deploys w can put into the journal. */
  predicate EvidenceFor(w: DesiredWorkload, e: Evidence) {
    match e
    case ImageEvidence(_, image) => image == w.image
    case TransitionEvidence(_, _, _) => true
    case WorkloadEvidence(_, kind, workload, _, _) => workload == w && IsWorkloadKind(kind)
    case StoredEvidence(_, kind, workload, _, _, _) => workload == w && IsWorkloadKind(kind)
  }

  lemma {:induction false} JournalHoldsSuchEvidence(p: Preparation, e: Effect, d: Evidence)
    requires d == IntentDigest(p, e) || SatisfiedDigest(p, e, d) || NegativeDigest(p, e, d)
    ensures EvidenceFor(p.workload, d)
  {
  }

  /** The first byte after the version and state, or the length, tells the families apart. */
  function Family(e: Evidence): nat {
    match e
    case ImageEvidence(_, _) => 0
    case TransitionEvidence(_, _, _) => 1
    case WorkloadEvidence(_, _, _, _, _) => 2
    case StoredEvidence(_, _, _, _, _, _) => 3
  }

  predicate HasShape(b: Bytes, family: nat) {
    if family == 3 then |b| == 65
    else |b| >= 98 && (if family == 0 then b[2] == 10 else if family == 1 then b[2] <= 4 else b[2] in [14, 15, 16])
  }

  lemma {:induction false} PreimageShape(hash: Bytes -> Digest, w: DesiredWorkload, e: Evidence)
    requires EvidenceFor(w, e)
    ensures HasShape(Preimage(hash, e), Family(e))
  {
    match e
    case ImageEvidence(state, image) => ImageShape(state, image);
    case TransitionEvidence(after, t, observed) => TransitionShape(after, t, observed);
    case WorkloadEvidence(state, kind, workload, transaction, observedID) =>
      WorkloadShape(state, kind, workload, transaction, observedID);
    case StoredEvidence(_, _, _, _, _, _) =>
  }

  lemma {:induction false} ShapesExclude(b: Bytes, family: nat, family': nat)
    requires family < 4 && family' < 4 && HasShape(b, family) && HasShape(b, family')
    ensures family == family'
  {
  }

  /** The evidence that its hash was taken over first. */
  function BasePreimage(e: Evidence): Bytes
    requires e.StoredEvidence?
  {
    WorkloadPreimage(e.state, e.kind, e.workload, e.transaction, e.observedID)
  }

  lemma {:induction false} StoredSplits(x: Digest, s: Digest, x': Digest, s': Digest)
    requires StoredPreimage(x, s) == StoredPreimage(x', s')
    ensures x == x' && s == s'
  {
    SplitsAt([1], [1], DigestBytes(x) + DigestBytes(s), DigestBytes(x') + DigestBytes(s'));
    DigestIsUnique();
    assert DigestBytes(x) + DigestBytes(s) + [] == DigestBytes(x') + DigestBytes(s') + [];
    WorkloadDigest.PairSplits(DigestBytes, DigestBytes, x, s, x', s', [], []);
  }

  lemma {:induction false} ImageStateIdentifies(state: EvidenceState, state': EvidenceState, image: ImageIdentity)
    requires ImagePreimage(state, image) == ImagePreimage(state', image)
    ensures state == state'
  {
    ImageShape(state, image);
    ImageShape(state', image);
    NumbersIdentify();
  }

  lemma {:induction false} SameFamily(hash: Bytes -> Digest, w: DesiredWorkload, d: Evidence, e: Evidence)
    requires EvidenceFor(w, d) && EvidenceFor(w, e) && Preimage(hash, d) == Preimage(hash, e)
    ensures Family(d) == Family(e)
  {
    PreimageShape(hash, w, d);
    PreimageShape(hash, w, e);
    ShapesExclude(Preimage(hash, d), Family(d), Family(e));
  }

  lemma {:induction false} ImageIdentifies(hash: Bytes -> Digest, w: DesiredWorkload, d: Evidence, e: Evidence)
    requires d.ImageEvidence? && e.ImageEvidence? && EvidenceFor(w, d) && EvidenceFor(w, e)
    requires Preimage(hash, d) == Preimage(hash, e)
    ensures d == e
  {
    ImageStateIdentifies(d.state, e.state, d.image);
  }

  lemma {:induction false} TransitionIdentifies(hash: Bytes -> Digest, d: Evidence, e: Evidence)
    requires d.TransitionEvidence? && e.TransitionEvidence? && Preimage(hash, d) == Preimage(hash, e)
    ensures d == e
  {
    TransitionPreimageIdentifies(d.after, d.transition, d.observed, e.after, e.transition, e.observed);
  }

  lemma {:induction false} WorkloadIdentifies(hash: Bytes -> Digest, w: DesiredWorkload, d: Evidence, e: Evidence)
    requires d.WorkloadEvidence? && e.WorkloadEvidence? && EvidenceFor(w, d) && EvidenceFor(w, e)
    requires Preimage(hash, d) == Preimage(hash, e)
    ensures d == e
  {
    WorkloadPreimageIdentifies(w, d.state, d.kind, d.transaction, d.observedID, e.state, e.kind, e.transaction,
                               e.observedID);
  }

  /** Two different strings with the same hash. */
  predicate Collide(hash: Bytes -> Digest, x: Bytes, y: Bytes) {
    x != y && hash(x) == hash(y)
  }

  /** Observed evidence that differs only in what was hashed first, to the same digest. */
  predicate CollidesInside(hash: Bytes -> Digest, d: Evidence, e: Evidence) {
    d.StoredEvidence? && e.StoredEvidence? && d.storage == e.storage &&
    Collide(hash, BasePreimage(d), BasePreimage(e))
  }

  lemma {:induction false} StoredIdentifies(hash: Bytes -> Digest, w: DesiredWorkload, d: Evidence, e: Evidence)
    requires d.StoredEvidence? && e.StoredEvidence? && EvidenceFor(w, d) && EvidenceFor(w, e)
    requires Preimage(hash, d) == Preimage(hash, e)
    ensures d == e || CollidesInside(hash, d, e)
  {
    StoredSplits(hash(BasePreimage(d)), d.storage, hash(BasePreimage(e)), e.storage);
    if BasePreimage(d) == BasePreimage(e) {
      WorkloadPreimageIdentifies(w, d.state, d.kind, d.transaction, d.observedID, e.state, e.kind, e.transaction,
                                 e.observedID);
    }
  }

  /** Different evidence has different pre-images, or a different first hash collided. */
  lemma {:induction false} PreimageIdentifies(hash: Bytes -> Digest, w: DesiredWorkload, d: Evidence, e: Evidence)
    requires EvidenceFor(w, d) && EvidenceFor(w, e)
    ensures Preimage(hash, d) == Preimage(hash, e) <==> d == e || CollidesInside(hash, d, e)
  {
    if Preimage(hash, d) == Preimage(hash, e) {
      SameFamily(hash, w, d, e);
      if d.ImageEvidence? {
        ImageIdentifies(hash, w, d, e);
      } else if d.TransitionEvidence? {
        TransitionIdentifies(hash, d, e);
      } else if d.WorkloadEvidence? {
        WorkloadIdentifies(hash, w, d, e);
      } else {
        StoredIdentifies(hash, w, d, e);
      }
    }
    if CollidesInside(hash, d, e) {
      InsideIsPreimage(hash, d, e);
    }
  }

  lemma {:induction false} InsideIsPreimage(hash: Bytes -> Digest, d: Evidence, e: Evidence)
    requires CollidesInside(hash, d, e)
    ensures Preimage(hash, d) == Preimage(hash, e)
  {
  }

  /** Evidence of one transaction with equal digests is equal evidence, unless two of the very strings
      that were hashed for it collide. */
  lemma {:induction false} DigestStandsForEvidence(hash: Bytes -> Digest, w: DesiredWorkload, d: Evidence, e: Evidence)
    requires EvidenceFor(w, d) && EvidenceFor(w, e)
    ensures EvidenceDigest(hash, d) == EvidenceDigest(hash, e) <==>
            d == e || Collide(hash, Preimage(hash, d), Preimage(hash, e)) || CollidesInside(hash, d, e)
  {
    PreimageIdentifies(hash, w, d, e);
  }
}
