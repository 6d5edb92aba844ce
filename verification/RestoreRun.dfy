/** One run of the restore: discard, rename back, restart, and the proof that it is done. */
module RestoreRun {
  import opened Protocol
  import opened Values
  import Completion
  import Effects
  import Engine
  import Facts
  import Restore
  import Safety
  import Settling
  import Upgrade
  import Workloads

  /** How far a restore has got: `stage` actions of its plan are satisfied. */
  ghost predicate Restoring(
    p: Workloads.Preparation, w: World, actions: seq<Action>, cursor: nat, sequence: int, stage: nat)
  {
    Reachable(p, w) && w.state.Degraded? && w.core > 0 && !RemoveSatisfied(p, w.journal) &&
    sequence == w.core + stage + 1 && sequence <= |w.journal| + 1 &&
    (stage > 0 ==> Satisfied(p, w.journal[sequence - 2])) &&
    if cursor < |actions| then actions == w.journal && cursor == sequence - 1
    else |w.journal| == sequence - 1
  }

  /** What is on record was planned for its stage. */
  lemma {:induction false} RestoringOnRecord(
      p: Workloads.Preparation, w: World, actions: seq<Action>, cursor: nat, sequence: int, stage: nat)
    requires Restoring(p, w, actions, cursor, sequence, stage) && cursor < |actions|
    requires stage < if CreateRecorded(w.journal, w.core) then 3 else 1
    ensures Settling.Positioned(p, w, Some(actions[cursor]), sequence,
                                RestoreEffect(p, CreateRecorded(w.journal, w.core), stage))
  {
  }

  /** What is not may be recorded next. */
  lemma {:induction false} RestoringBeyond(
      p: Workloads.Preparation, w: World, actions: seq<Action>, cursor: nat, sequence: int, stage: nat)
    requires Restoring(p, w, actions, cursor, sequence, stage) && cursor >= |actions|
    requires stage < if CreateRecorded(w.journal, w.core) then 3 else 1
    ensures Settling.Positioned(p, w, None, sequence, RestoreEffect(p, CreateRecorded(w.journal, w.core), stage))
  {
    if stage == 0 {
      Restore.CoreIsCompleted(p, w);
    }
    Facts.CompletedBehind(p, w);
  }

  lemma {:induction false} RestoringIsPositioned(
      p: Workloads.Preparation, w: World, actions: seq<Action>, cursor: nat, sequence: int, stage: nat)
    requires Restoring(p, w, actions, cursor, sequence, stage)
    requires stage < if CreateRecorded(w.journal, w.core) then 3 else 1
    ensures Settling.Positioned(p, w, Upgrade.NextUpgradeAction(actions, cursor).0, sequence,
                                RestoreEffect(p, CreateRecorded(w.journal, w.core), stage))
  {
    if cursor < |actions| {
      RestoringOnRecord(p, w, actions, cursor, sequence, stage);
    } else {
      RestoringBeyond(p, w, actions, cursor, sequence, stage);
    }
  }

  lemma {:induction false} RestoreAdvances(
      p: Workloads.Preparation, before: World, now: World, actions: seq<Action>, cursor: nat, sequence: int,
      stage: nat, e: Effects.Effect)
    requires Restoring(p, before, actions, cursor, sequence, stage)
    requires stage < if CreateRecorded(before.journal, before.core) then 3 else 1
    requires e == RestoreEffect(p, CreateRecorded(before.journal, before.core), stage)
    requires Settling.SettledAs(p, before, now, sequence, e, true, true)
    ensures Restoring(p, now, actions, Upgrade.NextUpgradeAction(actions, cursor).1, sequence + 1, stage + 1)
    ensures CreateRecorded(now.journal, now.core) == CreateRecorded(before.journal, before.core)
  {
    FirstIsKept(before, now, sequence);
    Facts.RestoreIsNotRemoved(p, now);
  }

  lemma {:induction false} FirstIsKept(before: World, now: World, sequence: int)
    requires 1 < sequence <= |now.journal| && sequence - 1 <= |before.journal|
    requires now.journal[..sequence - 1] == before.journal[..sequence - 1]
    ensures now.journal[0] == before.journal[0] && Base(now.journal) == Base(before.journal)
  {
    assert now.journal[0] == now.journal[..sequence - 1][0] == before.journal[..sequence - 1][0] == before.journal[0];
  }

  /** No action of the restore is on record as negative. */
  predicate Unspoilt(p: Workloads.Preparation, actions: seq<Action>, core: nat) {
    forall i | core <= i < |actions| :: !Negative(p, actions[i])
  }

  lemma {:induction false} NotStuckIsUnspoilt(p: Workloads.Preparation, w: World)
    requires Reachable(p, w) && w.state.Degraded? && !Completion.Stuck(p, w)
    ensures Unspoilt(p, w.journal, w.core)
  {
    Restore.CoreIsCompleted(p, w);
    forall i | w.core <= i < |w.journal|
      ensures !Negative(p, w.journal[i])
    {
      if Negative(p, w.journal[i]) {
        Facts.SettledAt(p, w, i);
      }
    }
  }

  lemma {:induction false} RestoreStageIsValid(p: Workloads.Preparation, w: World, stage: nat)
    requires Completion.WellPrepared(p) && w.core > 0
    ensures Effects.ValidEffect(p, RestoreEffect(p, CreateRecorded(w.journal, w.core), stage))
  {
    Completion.PlannedIsValid(p, w.journal, w.core, w.core + stage);
  }

  /** When lease, journal and runtime answer, whatever the operations do, what is not done has left the
      transaction stuck: one of the restore's actions is on record as negative. */
  ghost predicate Owes(mutation: Engine.Mutation, done: bool)
    reads mutation
  {
    mutation.responsive && Completion.WellPrepared(mutation.preparation) ==>
      done || Completion.Stuck(mutation.preparation, mutation.Now())
  }

  /** A restore action resolved negatively leaves the transaction stuck. */
  lemma {:induction false} NegativeIsStuck(
      p: Workloads.Preparation, before: World, now: World, sequence: int, e: Effects.Effect)
    requires Settling.SettledAs(p, before, now, sequence, e, false, true)
    requires before.state.Degraded? && sequence > before.core
    ensures Completion.Stuck(p, now)
  {
  }

  class RestoreExecution {
    const mutation: Engine.Mutation
    const actions: seq<Action>
    const journey: Restore.RestoreJourney
    var cursor: nat
    var sequence: int

    constructor (mutation: Engine.Mutation, actions: seq<Action>, journey: Restore.RestoreJourney)
      ensures this.mutation == mutation && this.actions == actions && this.journey == journey
      ensures cursor == journey.recoveryCursor && sequence == journey.nextSequence
    {
      this.mutation, this.actions, this.journey := mutation, actions, journey;
      cursor, sequence := journey.recoveryCursor, journey.nextSequence;
    }

    ghost predicate At(stage: nat)
      reads this, mutation
    {
      var w := mutation.Now();
      journey == Restore.InverseJourney(mutation.preparation, w) &&
      Restoring(mutation.preparation, w, actions, cursor, sequence, stage)
    }

    /** Nothing fails, and nothing has failed in an earlier restore. */
    ghost predicate Hale()
      reads this, mutation
    {
      mutation.healthy && Completion.WellPrepared(mutation.preparation) &&
      Unspoilt(mutation.preparation, actions, mutation.core)
    }

    lemma {:induction false} StageIsDue(stage: nat)
      requires At(stage) && stage < if journey.discard then 3 else 1
      ensures Settling.Positioned(mutation.preparation, mutation.Now(), Upgrade.NextUpgradeAction(actions, cursor).0,
                                  sequence,
                         RestoreEffect(mutation.preparation, journey.discard, stage))
      ensures Hale() ==>
        Effects.ValidEffect(mutation.preparation, RestoreEffect(mutation.preparation, journey.discard, stage)) &&
        (Upgrade.NextUpgradeAction(actions, cursor).0.Some? ==>
          !Negative(mutation.preparation, Upgrade.NextUpgradeAction(actions, cursor).0.value))
    {
      RestoringIsPositioned(mutation.preparation, mutation.Now(), actions, cursor, sequence, stage);
      if Hale() {
        RestoreStageIsValid(mutation.preparation, mutation.Now(), stage);
      }
    }

    method NextAction() returns (action: Option<Action>)
      modifies this`cursor
      ensures (action, cursor) == Upgrade.NextUpgradeAction(actions, old(cursor))
    {
      action, cursor := Upgrade.NextUpgradeAction(actions, cursor).0, Upgrade.NextUpgradeAction(actions, cursor).1;
    }

    /** What every stage keeps, and what it owes when the lease, the journal and the runtime answer. */
    ghost predicate Comes(before: World, stage: nat, done: bool)
      reads this, mutation
    {
      mutation.Valid() && Reaches(mutation.preparation, before, mutation.Now()) && (done ==> At(stage)) &&
      Owes(mutation, done)
    }

    /** Takes the restore one stage further. */
    method Advance(ghost before: World, ghost from: nat, ghost stage: nat, ghost e: Effects.Effect)
      requires Restoring(mutation.preparation, before, actions, from, sequence, stage)
      requires journey == Restore.InverseJourney(mutation.preparation, before)
      requires stage < if journey.discard then 3 else 1
      requires e == RestoreEffect(mutation.preparation, journey.discard, stage)
      requires Settling.SettledAs(mutation.preparation, before, mutation.Now(), sequence, e, true, true)
      requires cursor == Upgrade.NextUpgradeAction(actions, from).1
      modifies this`sequence
      ensures At(stage + 1)
    {
      RestoreAdvances(mutation.preparation, before, mutation.Now(), actions, from, sequence, stage, e);
      sequence := sequence + 1;
    }

    /** Removes the replacement, if its creation was on record. */
    method Discard() returns (done: bool)
      requires At(0)
      modifies mutation, this`cursor, this`sequence
      ensures Comes(old(mutation.Now()), if journey.discard then 1 else 0, done)
      ensures old(Hale()) ==> done
      ensures done ==> mutation.core == old(mutation.core)
    {
      ghost var before, from := mutation.Now(), cursor;
      ReachesSelf(mutation.preparation, before);
      if !journey.discard {
        return true;
      }
      StageIsDue(0);
      var action := NextAction();
      done := SettleWorkloadDiscard(mutation, action, sequence);
      if done {
        Advance(before, from, 0, Effects.DiscardEffect);
      }
    }

    /** Carries out one transition of the journey. */
    method SettleTransition(stage: nat, t: Workloads.Transition) returns (done: bool)
      requires At(stage) && stage < if journey.discard then 3 else 1
      requires Effects.TransitionEffect(t) == RestoreEffect(mutation.preparation, journey.discard, stage)
      modifies mutation, this`cursor, this`sequence
      ensures Comes(old(mutation.Now()), stage + 1, done)
      ensures old(Hale()) ==> done
      ensures done ==> mutation.core == old(mutation.core)
    {
      ghost var before, from := mutation.Now(), cursor;
      StageIsDue(stage);
      var action := NextAction();
      var satisfied, resolved, failed := Settling.SettleUpgradeTransition(mutation, action, sequence, t);
      TransitionIsOwed(before, stage, action, t, satisfied, resolved);
      if failed || !satisfied {
        return false;
      }
      Advance(before, from, stage, Effects.TransitionEffect(t));
      return true;
    }

    lemma {:induction false} TransitionIsOwed(
        before: World, stage: nat, action: Option<Action>, t: Workloads.Transition, satisfied: bool, resolved: bool)
      requires Effects.TransitionEffect(t) == RestoreEffect(mutation.preparation, journey.discard, stage)
      requires before.core > 0 && before.state.Degraded? && sequence > before.core
      requires journey == Restore.InverseJourney(mutation.preparation, before)
      requires Settling.SettledAs(mutation.preparation, before, mutation.Now(), sequence, Effects.TransitionEffect(t),
                                  satisfied, resolved)
      requires Settling.Promised(mutation, action, Effects.TransitionEffect(t), satisfied, resolved)
      ensures Owes(mutation, satisfied)
    {
      if Completion.WellPrepared(mutation.preparation) {
        RestoreStageIsValid(mutation.preparation, before, stage);
      }
      if resolved && !satisfied {
        NegativeIsStuck(mutation.preparation, before, mutation.Now(), sequence, Effects.TransitionEffect(t));
      }
    }

    /** Gives the predecessor its name back, if the upgrade had taken it away. */
    method Rename() returns (done: bool)
      requires At(if journey.discard then 1 else 0)
      modifies mutation, this`cursor, this`sequence
      ensures Comes(old(mutation.Now()), if journey.reverseRename then 2 else 0, done)
      ensures old(Hale()) ==> done
      ensures done ==> mutation.core == old(mutation.core)
    {
      ghost var before := mutation.Now();
      ReachesSelf(mutation.preparation, before);
      if !journey.reverseRename {
        return true;
      }
      done := SettleTransition(1, journey.rename);
    }

    /** Restarts the predecessor. */
    method Start() returns (done: bool)
      requires At(if journey.reverseRename then 2 else 0)
      modifies mutation, this`cursor, this`sequence
      ensures Comes(old(mutation.Now()), if journey.discard then 3 else 1, done)
      ensures old(Hale()) ==> done
    {
      done := SettleTransition(if journey.reverseRename then 2 else 0, journey.restoreStart);
    }
  }

  /** The verdict on record about a discard. */
  lemma {:induction false} DiscardReplays(
      p: Workloads.Preparation, w: World, action: Option<Action>, sequence: int)
    requires Settling.Positioned(p, w, action, sequence, Effects.DiscardEffect)
    requires action.Some? && action.value.state.Completed?
    ensures
      var missing :=
        Effects.WorkloadEvidence(Effects.AsMissing, Effects.WorkloadDiscard, p.workload, p.transaction, []);
      var done := action.value.postcondition == Some(missing);
      Settling.SettledAs(p, w, w, sequence, Effects.DiscardEffect, done, done) &&
      (!done ==> Negative(p, action.value) && sequence == |w.journal| && Upgrade.NegativeLast(p, w))
  {
    ReachesSelf(p, w);
    Settling.PositionedMatches(p, w, action, sequence, Effects.DiscardEffect);
    Settling.ReplayIsSettled(p, w, action, sequence, Effects.DiscardEffect);
  }

  method SettleWorkloadDiscard(mutation: Engine.Mutation, action: Option<Action>, sequence: int) returns (done: bool)
    requires Settling.Positioned(mutation.preparation, mutation.Now(), action, sequence, Effects.DiscardEffect)
    modifies mutation
    ensures Settling.SettledAs(mutation.preparation, old(mutation.Now()), mutation.Now(), sequence,
                               Effects.DiscardEffect, done, done)
    ensures mutation.healthy && Effects.ValidEffect(mutation.preparation, Effects.DiscardEffect) ==>
      done || (action.Some? && Negative(mutation.preparation, action.value))
    ensures mutation.responsive && Effects.ValidEffect(mutation.preparation, Effects.DiscardEffect) ==>
      done || (sequence == |mutation.journal| && Upgrade.NegativeLast(mutation.preparation, mutation.Now()))
  {
    var p := mutation.preparation;
    ghost var before := mutation.Now();
    ReachesSelf(p, before);
    if action.Some? {
      Settling.PositionedMatches(p, before, action, sequence, Effects.DiscardEffect);
      if !Matches(action.value, p.transaction, IntentOf(p, sequence, Effects.DiscardEffect)) {
        return false;
      }
      if action.value.state.Completed? {
        DiscardReplays(p, before, action, sequence);
        var expected := Effects.WorkloadEvidence(Effects.AsMissing, Effects.WorkloadDiscard, p.workload, p.transaction,
                                                 []);
        return action.value.postcondition == Some(expected);
      }
    }
    var result, failed := Settling.RunEffect(mutation, action, sequence, Effects.DiscardEffect);
    if Effects.ValidEffect(p, Effects.DiscardEffect) {
      Settling.OwedIsResolved(mutation, sequence, Effects.DiscardEffect, result);
    }
    return !failed && result.value.satisfied;
  }

  /** The restore plan is on record as done: nothing is open and the predecessor is back. */
  lemma {:induction false} RestoredIsBack(p: Workloads.Preparation, w: World)
    requires Reachable(p, w) && w.state.Degraded? && |w.journal| == PlanLength(w.journal, w.core)
    requires |w.journal| > w.core && Satisfied(p, w.journal[|w.journal| - 1])
    ensures AllCompleted(w.journal) && w.runtime.predecessor == Some(Workloads.Original(p))
  {
    Facts.CompletedBehind(p, w);
    Restore.CoreIsCompleted(p, w);
    Facts.Journal(p, w);
    Facts.Progresses(p, w);
    var rest := Facts.RestOrHeld(p, w);
    Safety.RestoredAtRest(p, w.journal, w.core, w.runtime);
  }

  /** Proves the predecessor restored and settles the transaction. */
  method CompleteRestore(mutation: Engine.Mutation, restore: Workloads.Transition) returns (restored: bool)
    requires mutation.Valid() && mutation.state.Degraded?
    requires restore == Workloads.RestoreStartTransition(mutation.preparation)
    requires |mutation.journal| == PlanLength(mutation.journal, mutation.core) && |mutation.journal| > mutation.core
    requires Satisfied(mutation.preparation, mutation.journal[|mutation.journal| - 1])
    modifies mutation
    ensures mutation.Valid() && Reaches(mutation.preparation, old(mutation.Now()), mutation.Now())
    ensures restored ==> mutation.state.Failed? && !mutation.blind
    ensures mutation.responsive ==> restored
  {
    ghost var p := mutation.preparation;
    ghost var before := mutation.Now();
    ReachesSelf(p, before);
    RestoredIsBack(p, before);
    var answers: bool := *;
    if (!answers && !mutation.responsive) || mutation.blind || mutation.runtime.predecessor != Some(restore.after) {
      return false;
    }
    restored := mutation.SetTransactionState(Failed);
    assert mutation.Now() == before || RestoredStep(p, before, mutation.Now());
    Facts.Extends(p, before, mutation.Now());
  }

  /** One run of the restore of a degraded upgrade. It reports success only when the transaction has
      failed in good order. While lease, journal and runtime answer, whatever the operations do, it
      succeeds or leaves the transaction stuck; and it does succeed when nothing fails, unless the
      transaction was stuck before. */
  method RunRestore(mutation: Engine.Mutation) returns (restored: bool)
    requires mutation.Valid() && mutation.state.Degraded?
    modifies mutation
    ensures mutation.Valid() && Reaches(mutation.preparation, old(mutation.Now()), mutation.Now())
    ensures restored ==> mutation.state.Failed? && !mutation.blind
    ensures CanRestore(mutation.preparation, mutation.healthy, old(mutation.Now())) ==> restored
    ensures Owes(mutation, restored)
  {
    ghost var p := mutation.preparation;
    ghost var before := mutation.Now();
    ReachesSelf(p, before);
    Restore.PreparesUnlessRemoved(p, before);
    var journey := Restore.PrepareRestoreJourney(mutation.preparation, mutation.journal);
    if journey.None? {
      return false;
    }
    restored := RunJourney(mutation, journey.value);
  }

  /** Nothing fails, and the transaction is not stuck. */
  predicate CanRestore(p: Workloads.Preparation, healthy: bool, w: World) {
    healthy && Completion.WellPrepared(p) && !Completion.Stuck(p, w)
  }

  /** Carries out the journey and proves that it is done. */
  method RunJourney(mutation: Engine.Mutation, journey: Restore.RestoreJourney) returns (restored: bool)
    requires mutation.Valid() && mutation.state.Degraded? && !RemoveSatisfied(mutation.preparation, mutation.journal)
    requires journey == Restore.InverseJourney(mutation.preparation, mutation.Now())
    modifies mutation
    ensures mutation.Valid() && Reaches(mutation.preparation, old(mutation.Now()), mutation.Now())
    ensures restored ==> mutation.state.Failed? && !mutation.blind
    ensures CanRestore(mutation.preparation, mutation.healthy, old(mutation.Now())) ==> restored
    ensures Owes(mutation, restored)
  {
    ghost var p := mutation.preparation;
    ghost var before := mutation.Now();
    if !Completion.Stuck(p, before) {
      NotStuckIsUnspoilt(p, before);
    }
    PreparedIsRestoring(p, before);
    var execution := new RestoreExecution(mutation, mutation.journal, journey);
    var done := RunStages(execution);
    ghost var staged := mutation.Now();
    if !done {
      return false;
    }
    RestoredIsComplete(p, staged, execution.actions, execution.cursor, execution.sequence,
                       if journey.discard then 3 else 1);
    restored := CompleteRestore(mutation, journey.restoreStart);
    ReachesTransitive(p, before, staged, mutation.Now());
  }

  /** The stages in their order; the first that is not done ends the run. */
  method RunStages(execution: RestoreExecution) returns (done: bool)
    requires execution.At(0)
    modifies execution.mutation, execution`cursor, execution`sequence
    ensures execution.Comes(old(execution.mutation.Now()), if execution.journey.discard then 3 else 1, done)
    ensures old(execution.Hale()) ==> done
  {
    ghost var p := execution.mutation.preparation;
    ghost var w0 := execution.mutation.Now();
    done := execution.Discard();
    if !done {
      return;
    }
    ghost var w1 := execution.mutation.Now();
    done := execution.Rename();
    ReachesTransitive(p, w0, w1, execution.mutation.Now());
    if !done {
      return;
    }
    ghost var w2 := execution.mutation.Now();
    done := execution.Start();
    ReachesTransitive(p, w0, w2, execution.mutation.Now());
  }

  lemma {:induction false} PreparedIsRestoring(p: Workloads.Preparation, w: World)
    requires Reachable(p, w) && w.state.Degraded? && !RemoveSatisfied(p, w.journal)
    ensures Restoring(p, w, w.journal, w.core, w.core + 1, 0)
  {
    Facts.Journal(p, w);
    Facts.Progresses(p, w);
  }

  lemma {:induction false} RestoredIsComplete(
      p: Workloads.Preparation, w: World, actions: seq<Action>, cursor: nat, sequence: int, stage: nat)
    requires Restoring(p, w, actions, cursor, sequence, stage)
    requires stage == if CreateRecorded(w.journal, w.core) then 3 else 1
    ensures |w.journal| == PlanLength(w.journal, w.core) && |w.journal| > w.core
    ensures Satisfied(p, w.journal[|w.journal| - 1])
  {
    Facts.Journal(p, w);
    Facts.Progresses(p, w);
  }
}
