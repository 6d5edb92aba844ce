/** One run of `apply` on an unresolved upgrade: read the journal, classify it, resume or restore. */
module Recovery {
  import opened Protocol
  import opened Values
  import Completion
  import Effects
  import Engine
  import Facts
  import Invariant
  import Restore
  import RestoreRun
  import Safety
  import Store
  import Upgrade
  import Workloads

  datatype Plan = PlanResume | PlanProbeUnknownEffect | PlanRestore

  // ---------- what a recovery accepts ----------

  /** Numbered from one without a gap, all of one transaction, and only the last may be unresolved. */
  predicate OrderlyJournal(transaction: Text, actions: seq<Action>) {
    forall i | 0 <= i < |actions| ::
      actions[i].transaction == transaction && actions[i].sequence == i + 1 && ValidState(actions[i]) &&
      (i + 1 < |actions| ==> actions[i].state.Completed?)
  }

  function PendingOf(actions: seq<Action>): Option<Action> {
    if actions != [] && !actions[|actions| - 1].state.Completed? then Some(actions[|actions| - 1]) else None
  }

  method RecoveryPendingAction(transaction: Text, actions: seq<Action>)
    returns (pending: Option<Action>, failed: bool)
    ensures failed <==> !OrderlyJournal(transaction, actions)
    ensures !failed ==> pending == PendingOf(actions)
  {
    pending, failed := None, false;
    for i := 0 to |actions|
      invariant OrderlyJournal(transaction, actions[..i]) && pending == PendingOf(actions[..i])
    {
      assert forall j | 0 <= j < i :: actions[..i][j] == actions[j];
      if actions[i].transaction != transaction || actions[i].sequence != i + 1 ||
         !ValidState(actions[i]) || pending.Some? {
        return None, true;
      }
      if !actions[i].state.Completed? {
        pending := Some(actions[i]);
      }
      assert actions[..i + 1] == actions[..i] + [actions[i]];
    }
    assert actions[..|actions|] == actions;
  }

  /** A pending action that a restore may have left behind. */
  predicate RestorePending(actions: seq<Action>, pending: Action) {
    pending.kind.WorkloadDiscard? || pending.kind.WorkloadRestoreStart? ||
    (pending.kind.WorkloadRename? &&
     exists i | 0 <= i < |actions| :: actions[i].kind.WorkloadDiscard? && actions[i].state.Completed?)
  }

  method ValidRestorePendingAction(actions: seq<Action>, pending: Action) returns (valid: bool)
    ensures valid <==> RestorePending(actions, pending)
  {
    match pending.kind {
      case WorkloadDiscard | WorkloadRestoreStart => return true;
      case WorkloadRename =>
        for i := 0 to |actions|
          invariant forall j | 0 <= j < i :: !(actions[j].kind.WorkloadDiscard? && actions[j].state.Completed?)
        {
          if actions[i].kind.WorkloadDiscard? && actions[i].state.Completed? {
            return true;
          }
        }
        return false;
      case _ => return false;
    }
  }

  predicate Recoverable(transaction: Text, state: TransactionState, actions: seq<Action>) {
    OrderlyJournal(transaction, actions) &&
    match state
    case Active => true
    case Degraded => PendingOf(actions).Some? ==> RestorePending(actions, PendingOf(actions).value)
    case _ => false
  }

  method ClassifyRecovery(transaction: Text, state: TransactionState, actions: seq<Action>)
    returns (plan: Option<Plan>)
    ensures plan.Some? <==> Recoverable(transaction, state, actions)
    ensures plan.Some? ==> (plan.value.PlanRestore? <==> state.Degraded?)
    ensures plan == Some(PlanProbeUnknownEffect) <==>
      Recoverable(transaction, state, actions) && state.Active? && PendingOf(actions).Some? &&
      PendingOf(actions).value.state.EffectOutcomeUnknown?
  {
    var pending, failed := RecoveryPendingAction(transaction, actions);
    if failed {
      return None;
    }
    match state {
      case Active =>
        return Some(if pending.Some? && pending.value.state.EffectOutcomeUnknown?
                    then PlanProbeUnknownEffect else PlanResume);
      case Degraded =>
        if pending.Some? {
          var valid := ValidRestorePendingAction(actions, pending.value);
          if !valid {
            return None;
          }
        }
        return Some(PlanRestore);
      case _ =>
        return None;
    }
  }

  // ---------- every journal of the protocol ----------

  function RestoreActionKinds(created: bool): seq<Effects.ActionKind> {
    (if created then [Effects.WorkloadDiscard, Effects.WorkloadRename] else []) + [Effects.WorkloadRestoreStart]
  }

  lemma {:induction false} JournalIsOrderly(p: Workloads.Preparation, w: World)
    requires Reachable(p, w)
    ensures OrderlyJournal(p.transaction, w.journal)
  {
    Facts.Journal(p, w);
    Facts.Progresses(p, w);
    forall i | 0 <= i < |w.journal|
      ensures w.journal[i].transaction == p.transaction && w.journal[i].sequence == i + 1
      ensures ValidState(w.journal[i]) && (i + 1 < |w.journal| ==> w.journal[i].state.Completed?)
    {
      assert Invariant.WellPlanned(p, w.journal, w.core, i);
    }
  }

  lemma {:induction false} RestoreKinds(p: Workloads.Preparation, journal: seq<Action>, core: nat)
    requires Invariant.Shape(p, journal, core) && 0 < core <= |journal|
    ensures Upgrade.IsPrefix(Upgrade.Kinds(journal[core..]), RestoreActionKinds(CreateRecorded(journal, core)))
  {
    forall i | 0 <= i < |journal| - core
      ensures Upgrade.Kinds(journal[core..])[i] == RestoreActionKinds(CreateRecorded(journal, core))[i]
    {
      Invariant.PlannedEffect(p, journal, core, core + i);
    }
  }

  lemma {:induction false} CoreKinds(p: Workloads.Preparation, journal: seq<Action>, core: nat)
    requires Invariant.Shape(p, journal, core) && core <= |journal|
    ensures
      var n := if core == 0 then |journal| else core;
      Upgrade.IsPrefix(Upgrade.Kinds(journal[..n]), Upgrade.UpgradeActionKinds(WithImage(journal)))
  {
    var n := if core == 0 then |journal| else core;
    forall i | 0 <= i < n
      ensures Upgrade.Kinds(journal[..n])[i] == Upgrade.UpgradeActionKinds(WithImage(journal))[i]
    {
      Invariant.PlannedEffect(p, journal, core, i);
      Upgrade.PlannedKinds(p, WithImage(journal), i);
    }
  }

  /** Every journal is orderly, and its kinds are a prefix of the upgrade's followed, once the
      transaction is degraded, by a prefix of the restore's. */
  lemma {:induction false} JournalShape(p: Workloads.Preparation, w: World)
    requires Reachable(p, w)
    ensures OrderlyJournal(p.transaction, w.journal) && w.core <= |w.journal|
    ensures
      var n := if w.core == 0 then |w.journal| else w.core;
      Upgrade.IsPrefix(Upgrade.Kinds(w.journal[..n]), Upgrade.UpgradeActionKinds(WithImage(w.journal))) &&
      Upgrade.IsPrefix(Upgrade.Kinds(w.journal[n..]), RestoreActionKinds(CreateRecorded(w.journal, w.core)))
  {
    Facts.Journal(p, w);
    JournalIsOrderly(p, w);
    CoreKinds(p, w.journal, w.core);
    if w.core > 0 {
      RestoreKinds(p, w.journal, w.core);
    }
  }

  lemma {:induction false} CompletedBefore(p: Workloads.Preparation, w: World, i: nat)
    requires Reachable(p, w)
    ensures i < |w.journal| - 1 ==> w.journal[i].state.Completed?
  {
    JournalIsOrderly(p, w);
  }

  /** The plan of a restore holds a discard, a rename behind it, and a restart. */
  lemma {:induction false} RestoreKindAt(p: Workloads.Preparation, w: World, i: nat)
    requires Reachable(p, w) && 0 < w.core <= i < |w.journal|
    ensures
      var kind := w.journal[i].kind;
      kind.WorkloadDiscard? || kind.WorkloadRestoreStart? || (kind.WorkloadRename? && i > w.core)
    ensures w.journal[i].kind.WorkloadRename? ==> CreateRecorded(w.journal, w.core)
    ensures i == w.core && CreateRecorded(w.journal, w.core) ==> w.journal[i].kind.WorkloadDiscard?
  {
    Facts.PlannedAt(p, w, i);
  }

  lemma {:induction false} PendingRestoreAction(p: Workloads.Preparation, w: World)
    requires Reachable(p, w) && w.state.Degraded? && PendingOf(w.journal).Some?
    ensures RestorePending(w.journal, PendingOf(w.journal).value)
  {
    var n := |w.journal| - 1;
    Restore.CoreIsCompleted(p, w);
    RestoreKindAt(p, w, n);
    if w.journal[n].kind.WorkloadRename? {
      RestoreKindAt(p, w, w.core);
      CompletedBefore(p, w, w.core);
      assert w.journal[w.core].kind.WorkloadDiscard? && w.journal[w.core].state.Completed?;
    }
  }

  /** However a run ended, the next one accepts what it left, until the transaction is finished. */
  lemma {:induction false} RecoveryNeverRejects(p: Workloads.Preparation, w: World)
    requires Reachable(p, w)
    ensures Recoverable(p.transaction, w.state, w.journal) <==> Store.Writable(w.state)
  {
    JournalIsOrderly(p, w);
    if w.state.Degraded? && PendingOf(w.journal).Some? {
      PendingRestoreAction(p, w);
    }
  }

  // ---------- one run ----------

  /** What a run that reports success leaves behind: the replacement or the predecessor, whole and alone. */
  predicate Concluded(p: Workloads.Preparation, before: TransactionState, w: World) {
    if before.Active? then
      w.state.Succeeded? && w.runtime.predecessor.None? && w.runtime.replacement.Some? &&
      Effects.StartedMatches(p, w.runtime.replacement.value)
    else
      w.state.Failed? && w.runtime.replacement.None? && w.runtime.predecessor == Some(Workloads.Original(p))
  }

  /** Nothing fails, every operation is acceptable, and the transaction is unresolved and not stuck. */
  predicate Favourable(p: Workloads.Preparation, healthy: bool, w: World) {
    healthy && Upgrade.WellObtainable(p, w) && Store.Writable(w.state) && !Completion.Stuck(p, w)
  }

  /** What a run owes while lease, journal and runtime answer, whatever the operations do: success, or
      an active transaction settled on a negative verdict (unless a removal is left half done), or a
      degraded one stuck. */
  ghost predicate Owes(mutation: Engine.Mutation, before: World, succeeded: bool)
    reads mutation
  {
    Upgrade.WellObtainable(mutation.preparation, before) ==>
      (before.state.Active? ==> Upgrade.Owes(mutation, succeeded)) &&
      (before.state.Degraded? ==> RestoreRun.Owes(mutation, succeeded))
  }

  /** One run of an unresolved upgrade, however it is cut short. It takes only steps of the protocol;
      when it reports success the transaction is concluded; and when nothing fails it either concludes
      the transaction or leaves one that the next such run concludes. Without its lease it does nothing,
      and without a look at the runtime it never reports success. */
  method ApplyTransaction(mutation: Engine.Mutation) returns (succeeded: bool)
    requires mutation.Valid()
    modifies mutation
    ensures mutation.Valid() && Reaches(mutation.preparation, old(mutation.Now()), mutation.Now())
    ensures succeeded ==> Concluded(mutation.preparation, old(mutation.state), mutation.Now()) && !mutation.blind
    ensures mutation.unleased ==> !succeeded && mutation.Now() == old(mutation.Now())
    ensures Favourable(mutation.preparation, mutation.healthy, old(mutation.Now())) ==>
      succeeded || (old(mutation.state).Active? && Upgrade.GivenUp(mutation.preparation, mutation.Now()))
    ensures Owes(mutation, old(mutation.Now()), succeeded)
    ensures mutation.healthy && old(mutation.state).Active? ==>
      Upgrade.Unrefused(mutation.preparation, old(mutation.Now())) ==> succeeded
  {
    ghost var p := mutation.preparation;
    ghost var before := mutation.Now();
    ReachesSelf(p, before);
    var readable: bool := *;
    if !readable && !mutation.recording {
      return false;
    }
    var plan := ClassifyRecovery(mutation.preparation.transaction, mutation.state, mutation.journal);
    var ok := mutation.Fence();
    RecoveryNeverRejects(p, before);
    if plan.None? || !ok {
      return false;
    }
    var materialized: bool := *;
    if mutation.state.Degraded? {
      succeeded := RestoreRun.RunRestore(mutation);
      if succeeded {
        Safety.FailedLeavesPredecessor(p, mutation.Now());
      }
    } else {
      if !materialized && !mutation.recording {
        return false;
      }
      succeeded := Upgrade.RunUpgrade(mutation);
      if succeeded {
        Safety.SucceededReplaces(p, mutation.Now());
      } else if Upgrade.Refused(p, mutation.Now()) {
        Upgrade.RefusedIsGivenUp(p, mutation.Now());
      }
    }
  }

  /** Two runs in which nothing fails finish any transaction that is not stuck, whatever crashes came
      before them. */
  method FinishTransaction(earlier: Engine.Mutation) returns (last: Engine.Mutation)
    requires earlier.Valid() && Favourable(earlier.preparation, true, earlier.Now())
    ensures last.preparation == earlier.preparation && last.Valid()
    ensures Reaches(earlier.preparation, earlier.Now(), last.Now()) && Completion.Finished(last.Now())
  {
    ghost var p, w0 := earlier.preparation, earlier.Now();
    last := new Engine.Mutation.Reopen(earlier, Engine.HEALTHY);
    var succeeded := ApplyTransaction(last);
    if !succeeded && last.state.Degraded? {
      ghost var w1 := last.Now();
      Restore.CoreIsCompleted(p, w1);
      last := new Engine.Mutation.Reopen(last, Engine.HEALTHY);
      succeeded := ApplyTransaction(last);
      ReachesTransitive(p, w0, w1, last.Now());
    }
  }
}
