# Maniud: a verified model of its upgrades, digests, backups and adapters

Maniud replaces a running container by a new generation of it. It records every step in a durable journal
before it takes the step, so that a later run can continue, or undo, what an interrupted one has left. This
project models that protocol and the parts that it stands on, and proves what they promise:

- **The upgrade and restore protocol** (`Workloads`, `Effects`, `Protocol`, `Invariant`, `Preservation`, `Facts`,
  `Safety`, `Completion`). A *world* holds the journal, the state of the transaction and the runtime. A step is one
  journal write or one runtime operation, so a crash is simply the end of one run and the start of the next in the
  same world. What is proved of every reachable world holds over any number of crashes and reruns.
- **The program that takes those steps** (`Store`, `Engine`, `Settling`, `Upgrade`, `Restore`, `Journeys`,
  `RestoreRun`, `Recovery`). `Engine.Mutation` is a transaction under its lock; its methods may fail at every call, with
  or without having taken hold. Each method is proved to take only steps of the protocol. What a run owes beyond that
  depends on its surroundings, which no code can read (`Engine.Surroundings`): whether the lease, the journal and the
  runtime answer, and, apart from that, whether the operations do what they should. A `responsive` process gets its
  answers, whatever the operations do; in a `healthy` one nothing fails.
- **Canonical byte strings behind the digests** (`Encoding`, `Ordering`, `Sorting`, `Specs`, `WorkloadDigest`,
  `StorageDigest`, `EvidenceDigests`, `Hex`). The journal holds SHA-256 digests; here it holds the evidence that they
  stand for. `EvidenceDigests.DigestStandsForEvidence` says exactly when that is sound.
- **Backups** (`Reader`, `Paths`, `Archive`, `Folding`, `Analysis`, `Contents`, `Manifest`, `Publication`, `Capacity`): the
  bounded reader and its ring buffer, the member scan and its path tables, what equal content means for the members
  themselves, the manifest and its wire form, publication by one rename among other publishers, and 64-bit capacity
  arithmetic.
- **Compose capture** (`References`, `Budget`, `Union`, `Tracked`, `Universe`, `Walk`, `Repository`, `Referred`): the
  breadth-first walk over everything that a Compose source reads, under a budget of files and bytes; that budget is why
  it always ends. `Referred` says what a document refers to without the collectors.
- **Runtime adapters** (`Decimals`, `Cpu`, `Containerd`, `Projection`): three readers of one decimal CPU count, and the
  containerd projection with its inverse and its meaning.

Objects whose methods update their fields are classes (`Engine.Mutation`, `Upgrade.UpgradeExecution`,
`RestoreRun.RestoreExecution`, `Reader.BoundedArchiveReader`, `Archive.ArchiveScan`,
`Publication.PartialPublication`, `Publication.Filesystem`); loops are loops; parsing, validation and journey
construction are functions. `dafny verify dfyconfig.toml` verifies the whole project.

## Model

| member | source | states |
|---|---|---|
| `Preservation.ReachableInvariant` | internal/application/effect.go:52-249 | every world that any runs, crashes and reruns can reach has a journal of planned actions in sequence, at most the last unresolved, and a runtime that agrees with what the journal says has taken hold, how often, and under which identity |
| `Safety.FailedLeavesPredecessor` | internal/application/upgrade.go:52-102 | a reachable failed transaction leaves the predecessor running under its original name and identity, and no workload of its own |
| `Safety.SucceededReplaces` | internal/application/upgrade.go:533-540 | a reachable succeeded transaction leaves its replacement running under the desired name, and the predecessor gone |
| `Safety.SuccessorTakesOver` | internal/application/bootstrap.go:154-187 | what a succeeded transaction leaves is, field by field, the running predecessor from which the next upgrade of the recorded generation may begin |
| `Safety.GenerationsNeverOverlap` | internal/application/upgrade.go:104-250 | in every reachable world the predecessor is whole, stopped, set aside, being removed or gone; while both generations exist they never both run and never share a name |
| `Safety.PredecessorOutlivesUnprovenReplacement` | internal/application/upgrade.go:196-250 | until the start of the replacement is on record as satisfied, the predecessor exists with its identity, configuration and ownership |
| `Safety.EffectsHoldOnce` | internal/application/effect.go:86-158 | over all runs together the operation of a satisfied action has taken hold exactly once (a discard at most once), that of a negative or merely intended action never, any other at most once |
| `Safety.HalfRemovalIsUnresolved` | internal/application/workload_transition.go:126-175 | a half-finished removal is met only while the removal is the last action and its outcome unknown |
| `Completion.FinishableExactlyWhenNotStuck` | internal/application/upgrade.go:504-531 | a reachable transaction whose operations its effects accept can be brought to failed or succeeded if and only if it is not degraded with the removal, or a negative restore action, on record |
| `Completion.FinishedTakesNoStep` | internal/store/journal_transaction_unix.go:92-134 | a transaction that has succeeded or failed takes no step any more |
| `Completion.EveryUpgradeCanStrand` | internal/application/bootstrap.go:347-368 | from every start some run ends degraded for ever, with the replacement there and the predecessor gone |
| `EvidenceDigests.DigestStandsForEvidence` | internal/application/workload_effect.go:485-549 | two pieces of evidence of one transaction have equal digests if and only if they are equal or two of the very strings hashed for them collide |
| `EvidenceDigests.TransitionPreimageIdentifies` | internal/application/workload_transition.go:289-316 | equal pre-images mean equal kind, equal workload before and after, and equal observation |
| `EvidenceDigests.WorkloadPreimageIdentifies` | internal/application/workload_effect.go:502-549 | within one plan equal pre-images mean equal state, kind, transaction and container |
| `EvidenceDigests.JournalHoldsSuchEvidence` | internal/application/workload_effect.go:194-227 | every intent and verdict that the protocol records is evidence of the kind to which those statements apply |
| `Engine.Mutation.RecordActionIntent` | internal/store/journal_action_unix.go:94-181 | leaves the journal alone or appends the intent, or finds the same intent on record; an answer names the recorded action |
| `Engine.Mutation.MarkActionEffectOutcomeUnknown` | internal/store/journal_action_unix.go:40-63 | leaves the journal alone or moves exactly that action from intent to outcome unknown |
| `Engine.Mutation.CompleteAction` | internal/store/journal_action_unix.go:67-92 | leaves the journal alone or completes exactly that action, from outcome unknown, with the given digest |
| `Engine.Mutation.SetTransactionState` | internal/store/journal_transaction_unix.go:92-134 | settles the transaction only when every action is completed and the target follows from the present state |
| `Engine.Mutation.RunRuntimeEffect` | internal/application/effect.go:52-84 | executes or recovers one due effect by protocol steps alone; while lease, journal and probes answer, whatever the operation does, the action ends on record with the evidence that the runtime then shows, satisfied if and only if the operation has taken hold, unless a removal is left half done; without an answered probe there is no verdict; when nothing fails the verdict is satisfied |
| `Engine.Mutation.ApplyRuntimeEffect` | internal/application/effect.go:86-118 | first execution: fence, mark, fire, probe; owes the same, so that an operation which is refused or does not take hold ends as a negative verdict on record |
| `Engine.Mutation.ProbeRuntimeEffect` | internal/application/effect.go:160-189 | after the operation was fired: the same again, and a removal that the probe finds begun is resumed first |
| `Engine.Mutation.Fire` | internal/application/effect.go:104-118 | an operation is fired only behind a fence, with the action marked unknown and its precondition met by the runtime |
| `Engine.Mutation.RecoverRuntimeEffect` | internal/application/effect.go:120-158 | a later run probes first and fires again only when the operation has not taken hold |
| `Engine.Mutation.ResumeRuntimeEffect` | internal/application/effect.go:221-249 | a removal found begun is finished behind a new fence and probed again; anything else passes through |
| `Engine.Mutation.CompleteRuntimeEffect` | internal/application/effect.go:191-219 | the action is completed with the evidence of the probe just made, or left as it was |
| `Settling.SettleUpgradeTransition` | internal/application/upgrade.go:379-412 | a transition is replayed from the record, which changes nothing, or executed; reports satisfied, resolved negatively or failed, each true to the journal it leaves; failed only when lease, journal or probe did not answer or a removal is left half done |
| `Upgrade.SettleUpgradeImage` | internal/application/upgrade.go:259-377 | leaves the run before its first stage with the image there, or reports a pull on record as negative so that the transaction may fail |
| `Upgrade.SettleWorkloadCreate` | internal/application/bootstrap.go:315-368 | a creation is replayed, verified against the runtime, or executed; the result is the verdict on record |
| `Upgrade.VerifyCompletedCreate` | internal/application/bootstrap.go:457-487 | says verified only when the runtime still holds the very container that the journal records |
| `Upgrade.SettleWorkloadStart` | internal/application/bootstrap.go:382-435 | a start is replayed when a probe gives the evidence on record, or executed; the result is the verdict on record |
| `Upgrade.RunUpgrade` | internal/application/upgrade.go:52-102 | one run takes only protocol steps and reports success only when succeeded; while lease, journal and runtime answer, whatever the operations do, it succeeds or ends on a negative verdict with the transaction failed (pull, stop) or degraded (any later action), unless a removal is left half done; when nothing fails and nothing was refused before it succeeds; when the runtime never answers it does not succeed, and degrades a transaction whose creation is on record, with its removal or without |
| `Restore.PreparesUnlessRemoved` | internal/application/restore.go:193-342 | for every reachable degraded journal, however far an earlier restore had got, the computed journey is the inverse of what was done; it is refused if and only if the removal is on record as satisfied |
| `Journeys.PreparedExactly` | internal/application/restore.go:193-514 | for any journal whatever: a journey is prepared if and only if the journal begins with completed actions as the upgrade plans them, with the stop made, a verdict on the rename, no creation without a rename and no removal, and goes on with the beginning of undoing them; what it then is |
| `Restore.PrepareRestoreJourney` | internal/application/restore.go:193-342 | the loops over recorded actions compute exactly the function that the statement above is about, for any journal |
| `Restore.CoreActionIndex` | internal/application/restore.go:449-457 | the loop finds the first action of the kind, or gives -1 when there is none |
| `RestoreRun.CompleteRestore` | internal/application/restore.go:516-544 | fails the transaction only after the predecessor was seen running under its original identity |
| `RestoreRun.RunRestore` | internal/application/restore.go:46-75 | one run takes only protocol steps and reports success only when the transaction has failed in good order; while lease, journal and runtime answer it succeeds or leaves a negative restore action on record; when nothing fails it succeeds unless the transaction was stuck |
| `Recovery.JournalShape` | internal/application/upgrade.go:597-683 | every reachable journal has sequences 1 to n, only its last action unresolved, and kinds that are a prefix of the upgrade's followed, once degraded, by a prefix of the restore's |
| `Recovery.RecoveryNeverRejects` | internal/application/plan.go:215-300 | a later run accepts a reachable journal if and only if its transaction is still unresolved |
| `Recovery.ClassifyRecovery` | internal/application/plan.go:215-300 | the loop and switches accept exactly the recoverable journals, restore exactly the degraded ones, and probe exactly an active one whose last outcome is unknown |
| `Recovery.ApplyTransaction` | internal/application/mutation.go:82-159 | a run of apply that reports success leaves the replacement or the predecessor, whole and alone; without its lease it does nothing, without sight of the runtime it never reports success; while both answer it succeeds, settles on a negative verdict or is stuck; when nothing fails it succeeds or leaves what the next such run concludes |
| `Recovery.FinishTransaction` | internal/application/mutation.go:82-159 | two runs in which nothing fails finish any transaction that is not stuck, whatever crashes came before |
| `WorkloadDigest.EffectiveDigestIdentifies` | internal/domain/workload_digest.go:98-316 | pre-images are equal if and only if the configurations are equal and the encoded image fields agree |
| `WorkloadDigest.SpecDigestIdentifies` | internal/domain/workload_digest.go:87-93 | pre-images are equal if and only if the configurations differ at most in service name, container name and platform |
| `WorkloadDigest.ComputeWorkloadSpecDigest` | internal/domain/workload_digest.go:87-93 | blanking the three fields and appending the rest gives exactly the pre-image that this statement is about |
| `WorkloadDigest.ComputeEffectiveDigest` | internal/domain/workload_digest.go:98-177 | appending part after part gives exactly the pre-image that the statements above are about |
| `StorageDigest.ComputeStorageDigest` | internal/domain/workload_digest.go:23-83 | accepts if and only if the source is nonzero, desired targets are nonempty and distinct, and observed mounts match the desired ones one to one by target under the kind, source, name and read-only rules; then gives the sorted pre-image |
| `StorageDigest.OrderDoesNotMatter` | internal/domain/workload_digest.go:23-83 | permuting either list changes neither the verdict nor the pre-image |
| `StorageDigest.StorageDigestIdentifies` | internal/domain/workload_digest.go:62-83 | equal pre-images mean the same source and the same observed mounts up to order |
| `Hex.DigestTextIsExact` | internal/domain/digest.go:22-45 | a text parses as a digest if and only if it is that digest's printed form |
| `Hex.IdentifierTextIsExact` | internal/backup/manifest.go:353-366 | a text parses as an identifier if and only if it is the printed form of a nonzero one |
| `Paths.CanonicalIffOrdinary` | internal/backup/archive.go:319-322 | a relative path is its own cleaned form, and not above the root, if and only if every component is an ordinary name |
| `Paths.CleanSkipsDetour` | internal/backup/archive.go:319-322 | an empty component, a dot, or a step down and back up anywhere in a relative path makes no difference to its cleaned form |
| `Archive.SymlinkStaysInside` | internal/backup/archive.go:301-311 | a symbolic link is kept if and only if its text is valid and following it component by component never leaves the root |
| `Archive.ArchiveScan.Record` | internal/backup/archive.go:191-288 | takes one more member if and only if its header and body describe one, its path fits the tree so far and the limits hold; then appends exactly that member |
| `Archive.ScanArchive` | internal/backup/archive.go:122-139 | accepts a member list if and only if each member is acceptable after the ones before it, and then holds exactly the described members |
| `Archive.ScannedExactly` | internal/backup/archive.go:191-288 | a member list is accepted with some members if and only if they are what it describes, everything above a member is an earlier directory, folded names differ and the limits hold; such members form a tree |
| `Contents.AcceptedExactly` | internal/backup/archive.go:191-330 | said of headers and bodies alone: a list is accepted if and only if every member is acceptable by itself (name, type, link, metadata, size, whole body) and beside the others (earlier directories above it, folded names apart, hard links back to files, limits) |
| `Archive.AdmittedIsTree` | internal/backup/archive.go:248-288 | accepted names are distinct and stay below the root, ancestors are earlier directories, hard links lead to earlier files and symbolic links stay inside |
| `Archive.FitsAsTree` | internal/backup/archive.go:248-266 | the alias, ancestor and type tables let a path through if and only if the tree with it would still be one |
| `Archive.EntryPreimageIdentifies` | internal/backup/archive.go:352-387 | entry pre-images are equal if and only if kind, metadata, extended records, link and payload digest agree |
| `Archive.SameContentIsSameEntries` | internal/backup/archive.go:162-180 | content pre-images of two accepted archives are equal if and only if their entries are the same multiset, whatever the member order |
| `Folding.FoldedNamesMayNest` | internal/backup/archive.go:248-266 | the headers of a regular file `A` and a regular file `a/b` are accepted under lower-casing, and their folded names form no tree |
| `Folding.FoldedTreeExactly` | internal/backup/archive.go:248-266 | the folded names of a tree form a tree if and only if every member whose name folds to that of a directory above another member, without being that directory, is an earlier directory itself |
| `Folding.ScannedFoldsExactly` | internal/backup/archive.go:248-266 | that condition decides it for every accepted member list |
| `Folding.LowerCaseIsByComponents` | internal/backup/archive.go:248-249 | lower-casing folds one path component after another, as those two statements ask of a folding |
| `Reader.BoundedArchiveReader.Read` | internal/backup/archive.go:389-434 | hands on what the source delivers, hashes all of it, never counts beyond the limit, and remembers the last 1024 bytes in its ring |
| `Reader.BoundedArchiveReader.CompleteTar` | internal/backup/archive.go:436-439 | true if and only if what was read is within the limit, a multiple of 512 bytes, and ends in 1024 zeros |
| `Reader.ConsumeZeroPadding` | internal/backup/archive.go:141-160 | reaches the end if and only if, from a dependable source, the stream fits and holds nothing but zeros from here on |
| `Analysis.Analyze` | internal/backup/archive.go:88-109 | a stream accepted in whatever pieces fits, ends in two zero blocks, has nothing but zeros after what the tar reader takes, and acceptable members; its inventory is determined by the stream; from a dependable source exactly these streams are accepted |
| `Analysis.AcceptedIsTree` | internal/backup/archive.go:88-180 | the inventory of an accepted stream is that of a tree of the members that the stream describes |
| `Analysis.AcceptedIsValid` | internal/backup/archive.go:452-457 | the inventory of an accepted stream is valid if and only if its files are no larger than the stream and neither hash is zero |
| `Analysis.SameContentIsSameTree` | internal/backup/archive.go:184-189 | two valid inventories have the same content if and only if their counts and sizes agree and their entries are the same, or the content hash collides |
| `Contents.SameContentIsSameArchive` | internal/backup/archive.go:184-246 | two accepted archives with valid inventories have the same content if and only if, up to order, their members have the same names, kinds, metadata, extended records, links and, for regular files, payload digests, with as many bytes in regular files; the alternative is that two of the very strings hashed collide |
| `Manifest.ManifestIsExact` | internal/backup/manifest.go:235-398 | a wire form reads as a manifest if and only if that manifest is valid and the wire form is its own |
| `Manifest.FieldsRead` | internal/backup/manifest.go:235-398 | a wire form reads as a manifest if and only if the manifest is valid and every field of the wire form reads as the field of its name |
| `Manifest.ArtifactNamesDiffer` | internal/backup/manifest.go:225-227 | different artifacts have different file names |
| `Publication.Publish` | internal/backup/publish_unix.go:115-169 | whatever fails and whoever else publishes, published directories stay as they are and appear only complete, and success means that the final directory holds this backup and its manifest; undisturbed and without failures the outcome is exact: published if and only if the inputs answer and hold what the manifest says and the final name is free or already holds this very backup whole, and nothing is left behind |
| `Publication.PartialPublication.Commit` | internal/backup/publish_unix.go:228-256 | says published only when the final directory is in place and complete, even if the rename was reported as failed; undisturbed, a taken final name is accepted if and only if it holds this very backup |
| `Publication.PartialPublication.VerifyExisting` | internal/backup/open_unix.go:108-187 | read file by file: true only if the final directory holds exactly this manifest and its artifacts, and undisturbed if and only if it does |
| `Publication.PartialPublication.Cleanup` | internal/backup/publish_unix.go:490-531 | never touches a published directory; undisturbed it removes the staging directory with all its files and nothing else |
| `Publication.OwnStepsLeaveOthersAlone` | internal/backup/publish_unix.go:277-531 | every step of one publisher is among the steps that any other publisher puts up with |
| `Publication.ValidateArchiveInputs` | internal/backup/publish_unix.go:258-275 | accepts the inputs if and only if their order by target answers the artifacts one by one, and gives that order |
| `Publication.EachDescribed` | internal/backup/publish_unix.go:193-211 | staging succeeds if and only if each archive by itself is within its limits and has the content that the manifest expects; each artifact then carries the inventory found for it and nothing else changes |
| `Capacity.AllocatedBytes` | internal/backup/capacity_unix.go:243-261 | the size rounded up to whole fragments, if and only if the fragment is nonzero and that number fits 64 bits |
| `Capacity.RoundedRoundsUp` | internal/backup/capacity_unix.go:251-261 | quotient and remainder give a multiple of the fragment that holds the size and is less than one fragment above it |
| `Capacity.PublicationBytes` | internal/backup/capacity_unix.go:95-119 | succeeds if and only if no input is negative, the fragment is nonzero and the true sum fits 64 bits, and then returns that sum |
| `Capacity.PercentageIsExact` | internal/backup/capacity_unix.go:208-216 | up to a hundred percent nothing wraps and the result is the exact ceiling |
| `Capacity.CapacityAvailable` | internal/backup/capacity_unix.go:192-206 | true if and only if the publication fits beside a reserve of one gibibyte or a tenth of the filesystem, whichever is more |
| `Capacity.PublicationLeavesReserve` | internal/backup/capacity_unix.go:192-206 | a publication that is let through leaves at least one gibibyte and at least a tenth of the filesystem free |
| `References.ReferencesAreValid` | internal/compose/repository.go:206-418 | whatever a document refers to is a relative path inside the repository |
| `Referred.ReferencesExactly` | internal/compose/repository.go:206-462 | a document's references are collected if and only if all of them resolve and its mounts are allowed; a document is then referred to if and only if it is a listed file or an include's environment file with that entry's flags and its own directory, an include path with the include's base, or the optional default environment file of an include without any; a runtime path if and only if a relative mount resolves to it |
| `Referred.ResolvesExactly` | internal/compose/repository.go:406-416 | a reference resolves if and only if it is plain and following its components from the base stays inside the repository, and then to where they lead |
| `Budget.AddFiles` | internal/compose/repository.go:131-151 | adding files in any order gives their union if and only if all fit, none contradicts what is held and the budget holds |
| `Universe.FinitelyManyWithin` | internal/compose/repository.go:206-418 | as long as following documents meets no new file, all documents that can be come to lie in one finite set |
| `Walk.WalkDocuments` | internal/compose/repository.go:85-123 | the walk ends for every input; it succeeds if and only if a least finite set is closed under references and all of it fits; then it has taken exactly that, no document twice |
| `Walk.ReachExists` | internal/compose/repository.go:85-123 | inside every finite set that holds the first documents and is closed under references lies the least such set |
| `Repository.AllFilesExactly` | internal/compose/repository.go:125-151 | adding the runtime paths gives a set of files if and only if it is the union of what is held with what every path leads to, each path can be taken, nothing contradicts and the budget holds |
| `Repository.CaptureRepositorySource` | internal/compose/repository.go:60-169 | a capture succeeds if and only if everything reachable is finite and fits, every runtime path can be added and the environment reads; it is then a valid snapshot of the least set of documents that holds the entry and its environment file and is closed under references, and of every runtime path, all as tracked and nothing else, with the environment that its file says |
| `Repository.RepositoryDigestIdentifies` | internal/compose/repository.go:469-511 | snapshot pre-images are equal if and only if entry, files, runtime paths and environment agree |
| `Cpu.DockerReads` | containerconfig/docker/encode.go:219-246 | reads exactly the decimals from one billionth to what 64 bits can count, as their number of billionths |
| `Cpu.PodmanReads` | containerconfig/podman/encode.go:398-426 | reads exactly those of them that are whole multiples of ten thousand billionths |
| `Cpu.ContainerdReads` | containerconfig/containerd/validate.go:479-506 | reads exactly the decimals whose quota, rounded down, lies between one and the largest 64-bit number |
| `Cpu.NanosOf` | containerconfig/docker/encode.go:219-246 | the guard before the 64-bit product and sum is enough: both are the true ones, without wrapping |
| `Cpu.QuotaOf` | containerconfig/containerd/validate.go:479-506 | the same for the quota and its fractional product |
| `Cpu.AdaptersAgree` | containerconfig/containerd/validate.go:479-506 | the three readings of one text never contradict each other, and Podman accepts exactly the texts that Docker reads as multiples of ten thousand |
| `Cpu.DockerReadsBack` | containerconfig/docker/decode.go:374-388 | every count from zero to the largest 64-bit number is printed so that it reads back |
| `Cpu.PodmanReadsBack` | containerconfig/podman/decode.go:452-473 | what Podman is asked for and reports back prints as a text that reads as the same request |
| `Containerd.CanonicalSpecTwice` | containerconfig/containerd/validate.go:29-89 | validating and canonicalizing an accepted configuration changes nothing |
| `Containerd.CheckUnique` | containerconfig/containerd/validate.go:187-208 | one pass with a set of seen keys accepts a list if and only if every value is valid and no two share a key |
| `Containerd.ComputeCapabilities` | containerconfig/containerd/encode.go:213-237 | editing the set in list order gives, sorted, the defaults without what is dropped (none of them when all are) and everything that is added |
| `Containerd.EncodeOfDecode` | containerconfig/containerd/decode.go:18-33 | whatever is decoded encodes to exactly what it was decoded from |
| `Containerd.DecodeOfEncode` | containerconfig/containerd/decode.go:18-138 | an accepted configuration whose ulimit names the case mapping leaves alone comes back as its canonical form |
| `Containerd.ReturnsExactlyWhenSettled` | containerconfig/containerd/decode.go:129-138 | under a case mapping that settles a name in one round, it comes back if and only if that mapping leaves every ulimit name alone |
| `Containerd.ReturnsExactly` | containerconfig/containerd/decode.go:129-138 | under any case mapping, it comes back if and only if mapping the names leaves the ulimits the same up to order |
| `Projection.ProjectionMeans` | containerconfig/containerd/encode.go:43-182 | what containerd is asked for says what the accepted configuration says: behind the default mounts exactly one mount for each bind (read-only if and only if asked for), each tmpfs and, unless something is mounted over it, shared memory of the right size; user, groups, arguments, environment, directory, capabilities, limits, terminal, read-only root, memory, CPU quota, namespaces and kernel parameters likewise |
| `Containerd.UpperCaseDoesNotReturn` | containerconfig/containerd/encode.go:272-285 | with case mapping as for ASCII, a configuration with the ulimit name `A` is accepted and does not come back |

## Findings

Properties that a reader may expect and that the code does not have, each with an input and the exact condition.

- **A degraded upgrade cannot always be restored.** The recovery guide (`docs/recovery.md:33-38`) says to rerun
  `apply` after a failed upgrade. A run that resumes after the removal of the predecessor was recorded first
  verifies the completed creation again (`internal/application/bootstrap.go:347-368`); when that fails or gets no
  answer, `create` degrades the transaction (`internal/application/upgrade.go:156-194`), whatever was recorded after
  it. The restore then refuses (`internal/application/restore.go:298-314`), and so does every later run.
  Inputs: `Completion.EveryUpgradeCanStrand`, and every run of `Upgrade.RunUpgrade` to which the journal answers and
  the runtime does not, on a completed journal that begins with the stop and holds the removal. Exact condition:
  `Restore.PreparesUnlessRemoved` (a journey is refused if and only if the removal is on record as satisfied) and
  `Completion.FinishableExactlyWhenNotStuck` (a transaction can be finished if and only if neither that nor a negative
  restore action is on record).
- **A ulimit name does not always return through containerd.** The projection upper-cases names behind `RLIMIT_` and
  reads them back in lower case. Input: `Containerd.UpperCaseDoesNotReturn`, an accepted configuration with a ulimit
  called `A`. Exact condition: `Containerd.ReturnsExactly` (for any case mapping it returns if and only if upper-casing
  and then lower-casing the names leaves the ulimits the same up to order). `Containerd.ReturnsExactlyWhenSettled` says
  the same name by name (every ulimit name is left alone) under the hypothesis `Containerd.Settles`, that one round of
  mapping settles a name; the mapping of ASCII letters meets it (`Containerd.AsciiSettles`).
- **Accepted archives are trees on raw names only.** Aliases are compared folded, ancestors are not
  (`internal/backup/archive.go:248-266`), so that two accepted members may land in one another where case does not
  matter. Input: `Folding.FoldedNamesMayNest`, the headers of a regular file `A` and a regular file `a/b`. Exact
  condition: `Folding.ScannedFoldsExactly` (the folded names of an accepted list form a tree if and only if every alias
  of a directory above a member is an earlier directory itself, which is the ancestor check with folded names), for a
  folding that acts component by component (`Folding.ByComponents`); lower-casing is one
  (`Folding.LowerCaseIsByComponents`).

## Left out

- Backed storage: inventories, backups and storage restores inside an upgrade; every modelled workload has no backed source.
- First deployments, adoption and unchanged applies; only an upgrade of an existing workload is modelled.
- Actors outside the transaction: containers that exit, appear or are edited meanwhile, and a second writer that takes over the lock.
- Error values, events, notifications, diagnostics and evidence bundles; a failure is a failure without its text.
- SHA-256: the journal holds evidence instead of digests, and collisions appear as such in `EvidenceDigests.DigestStandsForEvidence`.
- YAML, JSON and tar parsing, Unicode normalization and case folding, IP address parsing: functions given as parameters.
- Lower-casing in extended header keys and in hexadecimal text covers ASCII letters.
- Files as such: descriptors, modes, inode identity and fsync; a directory tree with exclusive creation and no-replace rename stands for them.
- Opening and reindexing published backups, and the choice and creation of the backup root.
- Interleaving of reads with the member scan: the bytes are read first and the members entered then, with the same verdict.
- The order that `Canonical` gives to records that agree in their leading keys; accepted configurations have none.
- Docker and Podman configurations beyond their CPU counts, the argv adapters, and printing of negative CPU counts.
- The working directory and profiles of a captured source.
- The environment switch that turns off the default environment file is a flag, and a snapshot's digest being nonzero is not required.
- WorkloadDigest.EffectiveDigestIdentifies: does not tell a nil from an empty list where the source encodes only a count.
- Completion.FinishableExactlyWhenNotStuck: needs a preparation whose transitions and workload its effects accept, and an image that is there or can be pulled.
- Engine.Mutation.RunRuntimeEffect: a verdict is promised only while lease, journal and probes answer, and success only when nothing around the run fails; any call may fail otherwise.
- Analysis.Analyze: takes the content of the tar stream from a given reader function; that the bodies it reports lie inside the stream is not part of this model.
- StorageDigest.StorageDigestIdentifies: is one direction; the other is the second half of `StorageDigest.OrderDoesNotMatter`.
