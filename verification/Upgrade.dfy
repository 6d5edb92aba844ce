/** One run of the upgrade: image, stop, rename, create, start, remove, commit. */
module Upgrade {
  import opened Effects
  import opened Facts
  import opened Protocol
  import opened Settling
  import opened Values
  import opened Workloads
  import Completion
  import Engine
  import Invariant
  import Preservation
  import Safety
  import Store

  // ---------- what a run may find in the journal ----------

  /** The kinds that an upgrade records, in order. */
  function UpgradeActionKinds(withImage: bool): seq<ActionKind> {
    (if withImage then [ImagePull] else []) +
    [WorkloadStop, WorkloadRename, WorkloadCreate, WorkloadStart, WorkloadRemove]
  }

  predicate IsPrefix(kinds: seq<ActionKind>, expected: seq<ActionKind>) {
    |kinds| <= |expected| && forall i | 0 <= i < |kinds| :: kinds[i] == expected[i]
  }

  function Kinds(actions: seq<Action>): seq<ActionKind> {
    seq(|actions|, i requires 0 <= i < |actions| => actions[i].kind)
  }

  method ValidUpgradeActions(actions: seq<Action>) returns (valid: bool)
    ensures valid <==> IsPrefix(Kinds(actions), UpgradeActionKinds(WithImage(actions)))
  {
    if |actions| == 0 {
      return true;
    }
    var kinds: seq<ActionKind> := [];
    for i := 0 to |actions|
      invariant kinds == Kinds(actions)[..i]
    {
      kinds := kinds + [actions[i].kind];
    }
    assert kinds == Kinds(actions);
    var expected := UpgradeActionKinds(kinds[0].ImagePull?);
    if |kinds| > |expected| {
      return false;
    }
    for i := 0 to |kinds|
      invariant forall j | 0 <= j < i :: kinds[j] == expected[j]
    {
      if kinds[i] != expected[i] {
        return false;
      }
    }
    return true;
  }

  lemma {:induction false} PlannedKinds(p: Preparation, withImage: bool, i: nat)
    requires i < |UpgradeActionKinds(withImage)|
    ensures UpgradeActionKinds(withImage)[i] == KindOf(UpgradeEffect(p, withImage, i))
  {
  }

  lemma {:induction false} FollowingIsPrefix(p: Preparation, journal: seq<Action>)
    requires |journal| <= PlanLength(journal, 0)
    requires forall i | 0 <= i < |journal| :: journal[i].kind == KindOf(UpgradeEffect(p, WithImage(journal), i))
    ensures IsPrefix(Kinds(journal), UpgradeActionKinds(WithImage(journal)))
  {
    var expected := UpgradeActionKinds(WithImage(journal));
    forall i | 0 <= i < |journal|
      ensures Kinds(journal)[i] == expected[i]
    {
      PlannedKinds(p, WithImage(journal), i);
    }
  }

  /** An active transaction's journal is always one that a run accepts. */
  lemma {:induction false} ActiveJournalIsAccepted(p: Preparation, w: World)
    requires Reachable(p, w) && w.state.Active?
    ensures IsPrefix(Kinds(w.journal), UpgradeActionKinds(WithImage(w.journal)))
  {
    Journal(p, w);
    Progresses(p, w);
    forall i | 0 <= i < |w.journal|
      ensures w.journal[i].kind == KindOf(UpgradeEffect(p, WithImage(w.journal), i))
    {
      PlannedAt(p, w, i);
    }
    FollowingIsPrefix(p, w.journal);
  }

  // ---------- giving up ----------

  /** The evidence on record settles the transaction as `target`. */
  predicate MayResolve(p: Preparation, w: World, target: TransactionState) {
    w.state.Active? && |w.journal| > 0 &&
    var last := w.journal[|w.journal| - 1];
    match target
    case Failed => Negative(p, last) && (last.kind.ImagePull? || last.kind.WorkloadStop?)
    case Degraded =>
      |w.journal| > Base(w.journal) + 1 &&
      ((Negative(p, last) && !last.kind.ImagePull? && !last.kind.WorkloadStop?) ||
       (|w.journal| > Base(w.journal) + 2 && Satisfied(p, w.journal[Base(w.journal) + 2])))
    case _ => false
  }

  lemma {:induction false} MayResolveSettles(p: Preparation, w: World, target: TransactionState)
    requires Reachable(p, w) && MayResolve(p, w, target) && w.journal[|w.journal| - 1].state.Completed?
    ensures AllCompleted(w.journal) && Store.Settles(w.journal, w.state, target)
  {
    CompletedBehind(p, w);
  }

  method ResolveUpgradeFailure(mutation: Engine.Mutation, target: TransactionState)
    requires mutation.Valid() && MayResolve(mutation.preparation, mutation.Now(), target)
    modifies mutation
    ensures mutation.Valid() && Reaches(mutation.preparation, old(mutation.Now()), mutation.Now())
    ensures mutation.recording && old(mutation.journal[|mutation.journal| - 1].state.Completed?) ==>
      mutation.Now() == old(mutation.Now()).(state := target, core := mutation.core) &&
      (target.Degraded? ==> mutation.core == |mutation.journal|)
  {
    ghost var before := mutation.Now();
    if before.journal[|before.journal| - 1].state.Completed? {
      MayResolveSettles(mutation.preparation, before, target);
    }
    var ok := mutation.SetTransactionState(target);
    ghost var p := mutation.preparation;
    assert mutation.Now() == before || FailStep(p, before, mutation.Now()) || DegradeStep(p, before, mutation.Now());
    Extends(p, before, mutation.Now());
  }

  // ---------- the stages ----------

  /** A read-only look at the image; None when the runtime does not answer. */
  method ImagePresent(mutation: Engine.Mutation) returns (present: Option<bool>)
    ensures present.Some? ==> present.value == mutation.runtime.image
    ensures mutation.responsive ==> present.Some?
    ensures mutation.blind ==> present.None?
  {
    var answers: bool := *;
    if mutation.blind {
      return None;
    }
    return if answers || mutation.responsive then Some(mutation.runtime.image) else None;
  }

  /** A read-only look at what the desired name and the transaction select. */
  method ReadWorkload(mutation: Engine.Mutation) returns (selection: Option<Selection>)
    ensures selection.Some? ==> selection.value == Select(mutation.preparation, mutation.runtime)
    ensures mutation.responsive ==> selection.Some?
    ensures mutation.blind ==> selection.None?
  {
    var answers: bool := *;
    if mutation.blind {
      return None;
    }
    return if answers || mutation.responsive then Some(Select(mutation.preparation, mutation.runtime)) else None;
  }

  predicate CreatedIdentityMatches(p: Preparation, c: Container) {
    (c.lifecycle.Created? || c.lifecycle.Running?) && CreatedMatches(p, c.(lifecycle := Created), [])
  }

  /** The runtime holds the very container that the creation recorded. */
  predicate StillCreated(p: Preparation, r: Runtime, action: Action) {
    r.replacement.Some? && CreatedIdentityMatches(p, r.replacement.value) &&
    action.postcondition == Some(StoredDigest(p, AsObserved, WorkloadCreate, r.replacement.value))
  }

  /** A read-only check, by a later run, that a completed creation is still what it recorded. */
  method VerifyCompletedCreate(mutation: Engine.Mutation, action: Action) returns (verified: bool)
    ensures verified ==> StillCreated(mutation.preparation, mutation.runtime, action)
    ensures mutation.responsive ==> (verified <==> StillCreated(mutation.preparation, mutation.runtime, action))
    ensures mutation.blind ==> !verified
  {
    var selection := ReadWorkload(mutation);
    if selection.None? || !selection.value.Selected? ||
       !CreatedIdentityMatches(mutation.preparation, selection.value.container) {
      return false;
    }
    return action.postcondition ==
      Some(StoredDigest(mutation.preparation, AsObserved, WorkloadCreate, selection.value.container));
  }

  lemma {:induction false} CreatedLifecycle(p: Preparation, journal: seq<Action>, i: nat, n: nat)
    requires Invariant.Shape(p, journal, 0) && i < n <= |journal|
    requires journal[i].kind.WorkloadCreate? && Satisfied(p, journal[i])
    ensures Invariant.SettledLifecycle(p, journal, n) in [Some(Created), Some(Running)]
  {
    Invariant.PlannedEffect(p, journal, 0, i);
    Invariant.ShapeFollows(p, journal, 0);
    Invariant.CoreLifecycleForm(p, journal, 0, n);
  }

  lemma {:induction false} PlannedAfterCreate(p: Preparation, journal: seq<Action>, i: nat, n: nat)
    requires Invariant.Shape(p, journal, 0) && i < n < |journal| && journal[i].kind.WorkloadCreate?
    ensures EffectOf(journal[n]).StartEffect? || EffectOf(journal[n]).TransitionEffect?
  {
    Invariant.PlannedEffect(p, journal, 0, n);
    Invariant.PlannedEffect(p, journal, 0, i);
  }

  lemma {:induction false} CreatedWhenHeld(p: Preparation, journal: seq<Action>, n: nat, r: Runtime)
    requires n < |journal| && Invariant.Held(p, journal, n, r)
    requires Invariant.SettledLifecycle(p, journal, n) in [Some(Created), Some(Running)]
    requires EffectOf(journal[n]).StartEffect? || EffectOf(journal[n]).TransitionEffect?
    ensures r.replacement.Some? && CreatedIdentityMatches(p, r.replacement.value)
  {
  }

  lemma {:induction false} CreatedAtRest(p: Preparation, journal: seq<Action>, n: nat, r: Runtime)
    requires n <= |journal| && Invariant.AtRest(p, journal, n, r)
    requires Invariant.SettledLifecycle(p, journal, n) in [Some(Created), Some(Running)]
    ensures r.replacement.Some? && CreatedIdentityMatches(p, r.replacement.value)
  {
  }

  lemma {:induction false} CreatedStays(p: Preparation, w: World, i: nat)
    requires Reachable(p, w) && w.state.Active? && i < |w.journal|
    requires w.journal[i].kind.WorkloadCreate? && Satisfied(p, w.journal[i])
    ensures w.runtime.replacement.Some? && CreatedIdentityMatches(p, w.runtime.replacement.value)
  {
    Journal(p, w);
    var rest := RestOrHeld(p, w);
    CreatedLifecycle(p, w.journal, i, SettledLength(w.journal));
    if rest {
      CreatedAtRest(p, w.journal, SettledLength(w.journal), w.runtime);
    } else {
      PlannedAfterCreate(p, w.journal, i, |w.journal| - 1);
      CreatedWhenHeld(p, w.journal, |w.journal| - 1, w.runtime);
    }
  }

  /** While the transaction is active, the check fails only when the runtime does not answer. */
  lemma {:induction false} CompletedCreateVerifies(p: Preparation, w: World, i: nat)
    requires Reachable(p, w) && w.state.Active? && i < |w.journal|
    requires w.journal[i].kind.WorkloadCreate? && Satisfied(p, w.journal[i])
    ensures StillCreated(p, w.runtime, w.journal[i])
  {
    CreatedStays(p, w, i);
    IdentityIsRecorded(p, w, i);
  }

  lemma {:induction false} IdentityIsRecorded(p: Preparation, w: World, i: nat)
    requires Reachable(p, w) && i < |w.journal| && w.runtime.replacement.Some?
    requires w.journal[i].kind.WorkloadCreate? && Satisfied(p, w.journal[i])
    ensures w.journal[i].postcondition ==
            Some(StoredDigest(p, AsObserved, WorkloadCreate, w.runtime.replacement.value))
  {
    Preservation.ReachableInvariant(p, w);
    assert Invariant.Names(p, w.journal[i], w.runtime.replacement.value);
  }

  /** The runtime may have failed to show a creation that is on record. */
  ghost predicate Unseen(mutation: Engine.Mutation) {
    mutation.responsive ==> !ValidEffect(mutation.preparation, CreateEffect)
  }

  method SettleWorkloadCreate(mutation: Engine.Mutation, action: Option<Action>, sequence: int)
    returns (result: Option<Postcondition>, failed: bool)
    requires Positioned(mutation.preparation, mutation.Now(), action, sequence, CreateEffect)
    modifies mutation
    ensures SettledAs(mutation.preparation, old(mutation.Now()), mutation.Now(), sequence, CreateEffect,
                      result.Some? && result.value.satisfied, result.Some?)
    ensures failed || result.Some?
    ensures mutation.state.Active? ==>
      Promised(mutation, action, CreateEffect, result.Some? && result.value.satisfied, result.Some?) &&
      (failed && result.Some? && result.value.satisfied ==> Unseen(mutation))
    ensures action.Some? && Satisfied(mutation.preparation, action.value) ==>
      result.Some? && result.value.satisfied && mutation.Now() == old(mutation.Now()) && (mutation.blind ==> failed)
  {
    var p := mutation.preparation;
    ghost var before := mutation.Now();
    ReachesSelf(p, before);
    if action.Some? {
      PositionedMatches(p, before, action, sequence, CreateEffect);
      if !Matches(action.value, p.transaction, IntentOf(p, sequence, CreateEffect)) {
        return None, true;
      }
      if action.value.state.Completed? {
        ReplayIsSettled(p, before, action, sequence, CreateEffect);
        var missing := WorkloadEvidence(AsMissing, WorkloadCreate, p.workload, p.transaction, []);
        if action.value.postcondition == Some(missing) {
          return Some(Postcondition(missing, false)), false;
        }
        if mutation.state.Active? {
          CompletedCreateVerifies(p, before, sequence - 1);
        }
        var verified := VerifyCompletedCreate(mutation, action.value);
        return Some(Postcondition(action.value.postcondition.value, true)), !verified;
      }
    }
    result, failed := RunEffect(mutation, action, sequence, CreateEffect);
    if ValidEffect(p, CreateEffect) {
      OwedIsResolved(mutation, sequence, CreateEffect, result);
    }
  }

  /** The recorded verdict on a start is the one a probe still gives. */
  lemma {:induction false} CompletedStartReplays(p: Preparation, w: World, action: Option<Action>, sequence: int)
    requires Positioned(p, w, action, sequence, StartEffect) && w.state.Active?
    requires action.Some? && action.value.state.Completed?
    requires Probe(p, StartEffect, [], w.runtime).Some?
    requires Some(Probe(p, StartEffect, [], w.runtime).value.postcondition.digest) == action.value.postcondition
    ensures Probe(p, StartEffect, [], w.runtime).value.postcondition.satisfied <==> Satisfied(p, action.value)
  {
    PositionedMatches(p, w, action, sequence, StartEffect);
    ReplayIsSettled(p, w, action, sequence, StartEffect);
  }

  lemma {:induction false} StartedLifecycle(p: Preparation, journal: seq<Action>, i: nat, n: nat)
    requires Invariant.Shape(p, journal, 0) && i < n <= |journal|
    requires journal[i].kind.WorkloadStart? && Satisfied(p, journal[i])
    ensures Invariant.SettledLifecycle(p, journal, n) == Some(Running)
  {
    Invariant.PlannedEffect(p, journal, 0, i);
    Invariant.ShapeFollows(p, journal, 0);
    Invariant.CoreLifecycleForm(p, journal, 0, n);
  }

  lemma {:induction false} PlannedAfterStart(p: Preparation, journal: seq<Action>, i: nat, n: nat)
    requires Invariant.Shape(p, journal, 0) && i < n < |journal| && journal[i].kind.WorkloadStart?
    ensures EffectOf(journal[n]).TransitionEffect?
  {
    Invariant.PlannedEffect(p, journal, 0, n);
    Invariant.PlannedEffect(p, journal, 0, i);
  }

  lemma {:induction false} StartedRuns(p: Preparation, w: World, i: nat)
    requires Reachable(p, w) && w.state.Active? && i < |w.journal|
    requires w.journal[i].kind.WorkloadStart? && Satisfied(p, w.journal[i])
    ensures w.runtime.replacement.Some? && StartedMatches(p, w.runtime.replacement.value)
  {
    Journal(p, w);
    var rest := RestOrHeld(p, w);
    StartedLifecycle(p, w.journal, i, SettledLength(w.journal));
    if !rest {
      PlannedAfterStart(p, w.journal, i, |w.journal| - 1);
    }
  }

  lemma {:induction false} UnstartedLifecycle(p: Preparation, journal: seq<Action>)
    requires Invariant.Shape(p, journal, 0) && Invariant.Progress(p, journal, 0) && journal != []
    requires journal[|journal| - 1].kind.WorkloadStart? && Negative(p, journal[|journal| - 1])
    ensures Invariant.SettledLifecycle(p, journal, |journal|) == Some(Created)
  {
    var n := |journal| - 1;
    Invariant.PlannedEffect(p, journal, 0, n);
    Safety.NegativeIsNotSatisfied(p, journal, 0, n);
    Invariant.ShapeFollows(p, journal, 0);
    Invariant.CoreLifecycleForm(p, journal, 0, |journal|);
  }

  lemma {:induction false} UnstartedStays(p: Preparation, w: World)
    requires Reachable(p, w) && w.state.Active? && w.journal != []
    requires w.journal[|w.journal| - 1].kind.WorkloadStart? && Negative(p, w.journal[|w.journal| - 1])
    ensures w.runtime.replacement.Some? && CreatedMatches(p, w.runtime.replacement.value, [])
  {
    Journal(p, w);
    Progresses(p, w);
    var rest := RestOrHeld(p, w);
    UnstartedLifecycle(p, w.journal);
  }

  lemma {:induction false} StartIsRecorded(p: Preparation, w: World, i: nat)
    requires Reachable(p, w) && i < |w.journal| && w.runtime.replacement.Some?
    ensures Invariant.Names(p, w.journal[i], w.runtime.replacement.value)
  {
    Preservation.ReachableInvariant(p, w);
  }

  /** While the transaction is active, a probe of a completed start gives the evidence on record. */
  lemma {:induction false} CompletedStartIsSeen(p: Preparation, w: World, i: nat)
    requires Reachable(p, w) && w.state.Active? && i < |w.journal|
    requires w.journal[i].kind.WorkloadStart? && w.journal[i].state.Completed?
    ensures Probe(p, StartEffect, [], w.runtime).Some?
    ensures w.journal[i].postcondition == Some(Probe(p, StartEffect, [], w.runtime).value.postcondition.digest)
  {
    SettledAt(p, w, i);
    PlannedAt(p, w, i);
    if Satisfied(p, w.journal[i]) {
      StartedRuns(p, w, i);
    } else {
      Journal(p, w);
      UnstartedStays(p, w);
    }
    StartIsRecorded(p, w, i);
  }

  /** A completed start is probed again: its evidence has to be the one on record. */
  method ReplayStart(mutation: Engine.Mutation, action: Option<Action>, sequence: int)
    returns (result: Option<Postcondition>)
    requires Positioned(mutation.preparation, mutation.Now(), action, sequence, StartEffect)
    requires mutation.state.Active? && action.Some? && action.value.state.Completed?
    modifies mutation
    ensures SettledAs(mutation.preparation, old(mutation.Now()), mutation.Now(), sequence, StartEffect,
                      result.Some? && result.value.satisfied, result.Some?)
    ensures mutation.responsive ==> result.Some?
    ensures mutation.blind ==> result.None?
    ensures result.Some? && !result.value.satisfied ==> Negative(mutation.preparation, action.value)
  {
    var p := mutation.preparation;
    ghost var before := mutation.Now();
    ReachesSelf(p, before);
    PositionedMatches(p, before, action, sequence, StartEffect);
    CompletedStartIsSeen(p, before, sequence - 1);
    var effect := new Engine.RuntimeEffect(StartEffect);
    result := mutation.ProbeEffect(effect);
    if result.None? || action.value.postcondition != Some(result.value.digest) {
      return None;
    }
    CompletedStartReplays(p, before, action, sequence);
    ReplayIsSettled(p, before, action, sequence, StartEffect);
  }

  method SettleWorkloadStart(mutation: Engine.Mutation, action: Option<Action>, sequence: int)
    returns (result: Option<Postcondition>, failed: bool)
    requires Positioned(mutation.preparation, mutation.Now(), action, sequence, StartEffect)
    requires mutation.state.Active?
    modifies mutation
    ensures SettledAs(mutation.preparation, old(mutation.Now()), mutation.Now(), sequence, StartEffect,
                      result.Some? && result.value.satisfied, result.Some?)
    ensures failed || result.Some?
    ensures failed ==> result.None? || !result.value.satisfied
    ensures Promised(mutation, action, StartEffect, result.Some? && result.value.satisfied, result.Some?)
  {
    var p := mutation.preparation;
    ghost var before := mutation.Now();
    ReachesSelf(p, before);
    if action.Some? {
      PositionedMatches(p, before, action, sequence, StartEffect);
      if !Matches(action.value, p.transaction, IntentOf(p, sequence, StartEffect)) {
        return None, true;
      }
      if action.value.state.Completed? {
        result := ReplayStart(mutation, action, sequence);
        return result, result.None?;
      }
    }
    result, failed := RunEffect(mutation, action, sequence, StartEffect);
    if ValidEffect(p, StartEffect) {
      OwedIsResolved(mutation, sequence, StartEffect, result);
    }
  }

  // ---------- the run ----------

  /** How far a run has got: the first `sequence - 1` actions are satisfied, and the run's copy of the
      journal is either the journal itself, read up to here, or used up. */
  ghost predicate Stands(
    p: Preparation, w: World, actions: seq<Action>, cursor: nat, sequence: int, stage: nat)
  {
    Reachable(p, w) && w.state.Active? && sequence == Base(w.journal) + stage + 1 &&
    0 < sequence <= |w.journal| + 1 && (w.journal == [] ==> w.runtime.image) &&
    (sequence > 1 ==> Satisfied(p, w.journal[sequence - 2])) &&
    if cursor < |actions| then actions == w.journal && cursor == sequence - 1
    else |w.journal| == sequence - 1
  }

  function NextUpgradeAction(actions: seq<Action>, cursor: nat): (Option<Action>, nat) {
    if cursor >= |actions| then (None, cursor) else (Some(actions[cursor]), cursor + 1)
  }

  /** What is on record was planned for its stage. */
  lemma {:induction false} StandingOnRecord(
      p: Preparation, w: World, actions: seq<Action>, cursor: nat, sequence: int, stage: nat)
    requires Stands(p, w, actions, cursor, sequence, stage) && stage < 5 && cursor < |actions|
    ensures Positioned(p, w, Some(actions[cursor]), sequence, UpgradeEffect(p, WithImage(w.journal), sequence - 1))
  {
    Journal(p, w);
  }

  /** What is not may be recorded next. */
  lemma {:induction false} StandingBeyond(
      p: Preparation, w: World, actions: seq<Action>, cursor: nat, sequence: int, stage: nat)
    requires Stands(p, w, actions, cursor, sequence, stage) && stage < 5 && cursor >= |actions|
    ensures Positioned(p, w, None, sequence, UpgradeEffect(p, WithImage(w.journal), sequence - 1))
  {
    Journal(p, w);
    CompletedBehind(p, w);
  }

  lemma {:induction false} StandingIsPositioned(
      p: Preparation, w: World, actions: seq<Action>, cursor: nat, sequence: int, stage: nat)
    requires Stands(p, w, actions, cursor, sequence, stage) && stage < 5
    ensures Positioned(p, w, NextUpgradeAction(actions, cursor).0, sequence,
                       UpgradeEffect(p, WithImage(w.journal), sequence - 1))
  {
    if cursor < |actions| {
      StandingOnRecord(p, w, actions, cursor, sequence, stage);
    } else {
      StandingBeyond(p, w, actions, cursor, sequence, stage);
    }
  }

  /** A satisfied stage takes the run one stage further. */
  lemma {:induction false} StageAdvances(
      p: Preparation, before: World, now: World, actions: seq<Action>, cursor: nat, sequence: int, stage: nat,
      e: Effect)
    requires Stands(p, before, actions, cursor, sequence, stage) && stage < 5
    requires e == UpgradeEffect(p, WithImage(before.journal), sequence - 1)
    requires SettledAs(p, before, now, sequence, e, true, true)
    ensures Stands(p, now, actions, NextUpgradeAction(actions, cursor).1, sequence + 1, stage + 1)
    ensures Base(now.journal) == Base(before.journal)
  {
    FirstActionStays(p, before, now, sequence, e);
  }

  lemma {:induction false} FirstActionStays(p: Preparation, before: World, now: World, sequence: int, e: Effect)
    requires Reachable(p, before) && 0 < sequence <= |before.journal| + 1
    requires e == UpgradeEffect(p, WithImage(before.journal), sequence - 1) && sequence > Base(before.journal)
    requires SettledAs(p, before, now, sequence, e, true, true) || SettledAs(p, before, now, sequence, e, false, true)
    ensures Base(now.journal) == Base(before.journal)
  {
    Journal(p, now);
    Progresses(p, now);
    PlannedAt(p, now, sequence - 1);
    if sequence > 1 {
      assert now.journal[0] == now.journal[..sequence - 1][0] == before.journal[..sequence - 1][0] == before.journal[0];
    }
  }

  lemma {:induction false} UpgradeKind(p: Preparation, withImage: bool, stage: nat)
    requires stage < 5
    ensures
      var kind := KindOf(UpgradeEffect(p, withImage, if withImage then stage + 1 else stage));
      kind.ImagePull? || kind.WorkloadStop? <==> stage == 0
  {
  }

  /** The kind of the action that a stage has come to. */
  lemma {:induction false} StageKind(p: Preparation, w: World, stage: nat)
    requires Reachable(p, w) && w.state.Active? && stage < 5 && |w.journal| == Base(w.journal) + stage + 1
    ensures FailsOutright(w.journal) <==> stage == 0
  {
    Journal(p, w);
    PlannedAt(p, w, |w.journal| - 1);
    UpgradeKind(p, WithImage(w.journal), stage);
  }

  /** A resolved verdict that is not satisfied settles the transaction. */
  lemma {:induction false} NegativeResolves(
      p: Preparation, before: World, now: World, actions: seq<Action>, cursor: nat, sequence: int, stage: nat,
      e: Effect)
    requires Stands(p, before, actions, cursor, sequence, stage) && stage < 5
    requires e == UpgradeEffect(p, WithImage(before.journal), sequence - 1)
    requires SettledAs(p, before, now, sequence, e, false, true)
    ensures MayResolve(p, now, if stage == 0 then Failed else Degraded) && NegativeLast(p, now)
    ensures FailsOutright(now.journal) <==> stage == 0
  {
    FirstActionStays(p, before, now, sequence, e);
    StageKind(p, now, stage);
  }

  /** So does a completed creation that cannot be verified, wherever the journal has got to. */
  lemma {:induction false} UnverifiedResolves(
      p: Preparation, before: World, now: World, actions: seq<Action>, cursor: nat, sequence: int)
    requires Stands(p, before, actions, cursor, sequence, 2)
    requires SettledAs(p, before, now, sequence, CreateEffect, true, true)
    ensures MayResolve(p, now, Degraded)
  {
    FirstActionStays(p, before, now, sequence, CreateEffect);
  }

  /** Every operation is acceptable, and a missing image can be pulled. */
  predicate WellObtainable(p: Preparation, w: World) {
    Completion.WellPrepared(p) && Completion.Obtainable(p, w)
  }

  /** The journal ends in a negative verdict. */
  predicate NegativeLast(p: Preparation, w: World) {
    w.journal != [] && Negative(p, w.journal[|w.journal| - 1])
  }

  /** Nothing was refused so far, and nothing needs to be. */
  predicate Unrefused(p: Preparation, w: World) {
    WellObtainable(p, w) && !NegativeLast(p, w)
  }

  /** A verdict on its last action concerns an operation that leaves the predecessor untouched. */
  predicate FailsOutright(journal: seq<Action>) {
    journal != [] && (journal[|journal| - 1].kind.ImagePull? || journal[|journal| - 1].kind.WorkloadStop?)
  }

  /** The run has recorded or found a negative verdict and settled the transaction on it: a pull or a
      stop fails it, any later action degrades it. */
  predicate Refused(p: Preparation, w: World) {
    NegativeLast(p, w) &&
    if FailsOutright(w.journal) then w.state.Failed? else w.state.Degraded? && w.core == |w.journal|
  }

  lemma {:induction false} RefusedIsGivenUp(p: Preparation, w: World)
    requires Reachable(p, w) && Refused(p, w)
    ensures GivenUp(p, w)
  {
    Journal(p, w);
    SettledAt(p, w, |w.journal| - 1);
  }

  /** A negative action that a run comes to is the last one. */
  lemma {:induction false} NegativeIsLast(
      p: Preparation, w: World, action: Option<Action>, sequence: int, e: Effect)
    requires Positioned(p, w, action, sequence, e)
    ensures action.Some? && Negative(p, action.value) ==> NegativeLast(p, w)
  {
    if action.Some? && Negative(p, action.value) {
      ReplayIsSettled(p, w, action, sequence, e);
    }
  }

  predicate LastCompleted(w: World) {
    w.journal != [] && w.journal[|w.journal| - 1].state.Completed?
  }

  /** The transaction, degraded over the journal as it is. */
  function Degrading(w: World): World {
    w.(state := Degraded, core := |w.journal|)
  }

  /** Nothing is open, and the creation of the replacement is on record. */
  predicate CreateStands(p: Preparation, w: World) {
    AllCompleted(w.journal) && |w.journal| > Base(w.journal) + 2 && Satisfied(p, w.journal[Base(w.journal) + 2])
  }

  /** What a satisfied action leaves at the end of the journal. */
  lemma {:induction false} SatisfiedKeepsLast(p: Preparation, before: World, now: World, sequence: int, e: Effect)
    requires SettledAs(p, before, now, sequence, e, true, true)
    ensures !NegativeLast(p, before) ==> !NegativeLast(p, now)
  {
    if now.journal != before.journal {
      SettledAt(p, now, sequence - 1);
    }
  }

  /** A run that is not done has settled the transaction in a way that a restore can take up. */
  predicate GivenUp(p: Preparation, w: World) {
    w.state.Failed? || (w.state.Degraded? && !Completion.Stuck(p, w))
  }

  /** The operations of a well-prepared upgrade are ones that its effects accept. */
  lemma {:induction false} StageIsValid(p: Preparation, w: World, sequence: int)
    requires Completion.WellPrepared(p) && sequence > Base(w.journal)
    ensures ValidEffect(p, UpgradeEffect(p, WithImage(w.journal), sequence - 1))
  {
    Completion.PlannedIsValid(p, w.journal, 0, sequence - 1);
  }

  /** Nothing fails, and every operation is acceptable. */
  ghost predicate Able(mutation: Engine.Mutation) {
    mutation.healthy && Completion.WellPrepared(mutation.preparation)
  }

  /** When lease, journal and runtime answer, what is not done has been refused; or a removal is left
      half done, and only because the runtime did not finish it. */
  ghost predicate Owes(mutation: Engine.Mutation, done: bool)
    reads mutation
  {
    mutation.responsive && Completion.WellPrepared(mutation.preparation) ==>
      done || Refused(mutation.preparation, mutation.Now()) || LeftHalf(mutation)
  }

  /** Where nothing was refused before, nothing is refused when nothing fails. */
  ghost predicate Thrives(mutation: Engine.Mutation, before: World, done: bool)
    reads mutation
  {
    !NegativeLast(mutation.preparation, before) ==>
      (Able(mutation) ==> done) && (done ==> !NegativeLast(mutation.preparation, mutation.Now()))
  }

  class UpgradeExecution {
    const mutation: Engine.Mutation
    const actions: seq<Action>
    var cursor: nat
    var sequence: int

    constructor (mutation: Engine.Mutation, actions: seq<Action>, cursor: nat, sequence: int)
      ensures this.mutation == mutation && this.actions == actions
      ensures this.cursor == cursor && this.sequence == sequence
    {
      this.mutation, this.actions, this.cursor, this.sequence := mutation, actions, cursor, sequence;
    }

    /** The stages before this one are done: 0 stop, 1 rename, 2 create, 3 start, 4 remove, 5 commit. */
    ghost predicate At(stage: nat)
      reads this, mutation
    {
      Stands(mutation.preparation, mutation.Now(), actions, cursor, sequence, stage)
    }

    method NextAction() returns (action: Option<Action>)
      modifies this`cursor
      ensures (action, cursor) == NextUpgradeAction(actions, old(cursor))
    {
      action, cursor := NextUpgradeAction(actions, cursor).0, NextUpgradeAction(actions, cursor).1;
    }

    /** The next action is on record as satisfied. */
    ghost predicate OnRecord()
      reads this, mutation
    {
      0 < sequence <= |mutation.journal| && Satisfied(mutation.preparation, mutation.journal[sequence - 1])
    }

    /** Before the creation, everything is on record once the creation is. */
    lemma {:induction false} StandsOnRecord(stage: nat)
      requires At(stage) && stage <= 2
      ensures CreateStands(mutation.preparation, mutation.Now()) ==> OnRecord() && LastCompleted(mutation.Now())
    {
      Progresses(mutation.preparation, mutation.Now());
      Journal(mutation.preparation, mutation.Now());
    }

    /** What every stage keeps, what it owes when the lease, the journal and the runtime answer, and
        that it gets done when nothing fails and nothing has been refused before. */
    ghost predicate Comes(before: World, stage: nat, done: bool)
      reads this, mutation
    {
      mutation.Valid() && Reaches(mutation.preparation, before, mutation.Now()) && (done ==> At(stage + 1)) &&
      Owes(mutation, done) && Thrives(mutation, before, done)
    }

    /** Settles the transaction on a negative verdict. */
    method Refuse(ghost before: World, ghost from: nat, stage: nat, ghost e: Effect, target: TransactionState)
      requires Stands(mutation.preparation, before, actions, from, sequence, stage) && stage < 5
      requires e == UpgradeEffect(mutation.preparation, WithImage(before.journal), sequence - 1)
      requires SettledAs(mutation.preparation, before, mutation.Now(), sequence, e, false, true)
      requires target == (if stage == 0 then Failed else Degraded)
      requires !NegativeLast(mutation.preparation, before) ==> !Able(mutation)
      modifies mutation
      ensures Comes(before, stage, false)
    {
      ghost var settled := mutation.Now();
      NegativeResolves(mutation.preparation, before, settled, actions, from, sequence, stage, e);
      ResolveUpgradeFailure(mutation, target);
      ReachesTransitive(mutation.preparation, before, settled, mutation.Now());
    }

    /** Takes the run one stage further. */
    method Advance(ghost before: World, ghost from: nat, stage: nat, ghost e: Effect)
      requires Stands(mutation.preparation, before, actions, from, sequence, stage) && stage < 5
      requires e == UpgradeEffect(mutation.preparation, WithImage(before.journal), sequence - 1)
      requires SettledAs(mutation.preparation, before, mutation.Now(), sequence, e, true, true)
      requires cursor == NextUpgradeAction(actions, from).1
      modifies this`sequence
      ensures Comes(before, stage, true)
    {
      SatisfiedKeepsLast(mutation.preparation, before, mutation.Now(), sequence, e);
      StageAdvances(mutation.preparation, before, mutation.Now(), actions, from, sequence, stage, e);
      SettledReaches(mutation.preparation, before, mutation.Now(), sequence, e);
      sequence := sequence + 1;
    }

    /** Takes the run one stage further, or settles the transaction on a negative verdict. */
    method Conclude(
        ghost before: World, ghost from: nat, stage: nat, ghost e: Effect, satisfied: bool, resolved: bool,
        target: TransactionState)
      returns (done: bool)
      requires Stands(mutation.preparation, before, actions, from, sequence, stage) && stage < 5
      requires e == UpgradeEffect(mutation.preparation, WithImage(before.journal), sequence - 1)
      requires SettledAs(mutation.preparation, before, mutation.Now(), sequence, e, satisfied, resolved)
      requires cursor == NextUpgradeAction(actions, from).1
      requires target == (if stage == 0 then Failed else Degraded)
      requires Promised(mutation, NextUpgradeAction(actions, from).0, e, satisfied, resolved)
      modifies mutation, this`sequence
      ensures Comes(before, stage, done)
      ensures satisfied ==> done && mutation.Now() == old(mutation.Now())
    {
      PromiseIsOwed(before, from, stage, e, satisfied, resolved);
      if satisfied {
        Advance(before, from, stage, e);
      } else if resolved {
        Refuse(before, from, stage, e, target);
      }
      return satisfied;
    }

    lemma {:induction false} PromiseIsOwed(
        before: World, from: nat, stage: nat, e: Effect, satisfied: bool, resolved: bool)
      requires Stands(mutation.preparation, before, actions, from, sequence, stage) && stage < 5
      requires e == UpgradeEffect(mutation.preparation, WithImage(before.journal), sequence - 1)
      requires Promised(mutation, NextUpgradeAction(actions, from).0, e, satisfied, resolved)
      ensures mutation.responsive && Completion.WellPrepared(mutation.preparation) ==>
        satisfied || resolved || LeftHalf(mutation)
      ensures Able(mutation) && !NegativeLast(mutation.preparation, before) ==> satisfied
    {
      if Completion.WellPrepared(mutation.preparation) {
        StageIsValid(mutation.preparation, before, sequence);
      }
      StandingIsPositioned(mutation.preparation, before, actions, from, sequence, stage);
      NegativeIsLast(mutation.preparation, before, NextUpgradeAction(actions, from).0, sequence, e);
    }

    lemma {:induction false} StageIsDue(stage: nat)
      requires At(stage) && stage < 5
      ensures Positioned(mutation.preparation, mutation.Now(), NextUpgradeAction(actions, cursor).0, sequence,
                         UpgradeEffect(mutation.preparation, WithImage(mutation.journal), sequence - 1))
    {
      StandingIsPositioned(mutation.preparation, mutation.Now(), actions, cursor, sequence, stage);
    }

    /** Stop, rename and remove: a transition that is not satisfied settles the transaction. */
    method SettleTransition(stage: nat, t: Transition, target: TransactionState) returns (done: bool)
      requires At(stage) && stage < 5 && target == (if stage == 0 then Failed else Degraded)
      requires TransitionEffect(t) == UpgradeEffect(mutation.preparation, WithImage(mutation.journal), sequence - 1)
      modifies mutation, this`cursor, this`sequence
      ensures Comes(old(mutation.Now()), stage, done)
      ensures old(OnRecord()) ==> done && mutation.Now() == old(mutation.Now())
    {
      ghost var before, from := mutation.Now(), cursor;
      StageIsDue(stage);
      var action := NextAction();
      var satisfied, resolved, failed := SettleUpgradeTransition(mutation, action, sequence, t);
      done := Conclude(before, from, stage, TransitionEffect(t), satisfied, resolved, target);
    }

    method Stop() returns (done: bool)
      requires At(0)
      modifies mutation, this`cursor, this`sequence
      ensures Comes(old(mutation.Now()), 0, done)
      ensures old(OnRecord()) ==> done && mutation.Now() == old(mutation.Now())
    {
      done := SettleTransition(0, NewUpgradeJourney(mutation.preparation).stop, Failed);
    }

    method Rename() returns (done: bool)
      requires At(1)
      modifies mutation, this`cursor, this`sequence
      ensures Comes(old(mutation.Now()), 1, done)
      ensures old(OnRecord()) ==> done && mutation.Now() == old(mutation.Now())
    {
      done := SettleTransition(1, NewUpgradeJourney(mutation.preparation).rename, Degraded);
    }

    /** Degrades the transaction over a completed creation that could not be verified. */
    method Abandon(ghost before: World, ghost from: nat)
      requires Stands(mutation.preparation, before, actions, from, sequence, 2)
      requires SettledAs(mutation.preparation, before, mutation.Now(), sequence, CreateEffect, true, true)
      requires Unseen(mutation)
      modifies mutation
      ensures Comes(before, 2, false)
      ensures mutation.recording && old(LastCompleted(mutation.Now())) ==>
        mutation.Now() == Degrading(old(mutation.Now()))
    {
      ghost var settled := mutation.Now();
      UnverifiedResolves(mutation.preparation, before, settled, actions, from, sequence);
      ResolveUpgradeFailure(mutation, Degraded);
      ReachesTransitive(mutation.preparation, before, settled, mutation.Now());
    }

    method Create() returns (done: bool)
      requires At(2)
      modifies mutation, this`cursor, this`sequence
      ensures Comes(old(mutation.Now()), 2, done)
      ensures old(OnRecord() && LastCompleted(mutation.Now())) && mutation.recording && mutation.blind ==>
        !done && mutation.Now() == Degrading(old(mutation.Now()))
    {
      ghost var p := mutation.preparation;
      ghost var before, from := mutation.Now(), cursor;
      ReachesSelf(p, before);
      var materialized: bool := *;
      if !materialized && !mutation.recording {
        return false;
      }
      done := SettleCreate();
    }

    method SettleCreate() returns (done: bool)
      requires At(2)
      modifies mutation, this`cursor, this`sequence
      ensures Comes(old(mutation.Now()), 2, done)
      ensures old(OnRecord() && LastCompleted(mutation.Now())) && mutation.recording && mutation.blind ==>
        !done && mutation.Now() == Degrading(old(mutation.Now()))
    {
      ghost var before, from := mutation.Now(), cursor;
      StageIsDue(2);
      RecordIsNext(2);
      var action := NextAction();
      var result, failed := SettleWorkloadCreate(mutation, action, sequence);
      done := ConcludeCreate(before, from, result.Some? && result.value.satisfied, result.Some?, failed);
    }

    /** What is on record is what the run comes to next. */
    lemma {:induction false} RecordIsNext(stage: nat)
      requires At(stage)
      ensures OnRecord() ==> NextUpgradeAction(actions, cursor).0 == Some(mutation.journal[sequence - 1])
    {
    }

    /** A creation that is on record and could not be verified degrades the transaction. */
    method ConcludeCreate(ghost before: World, ghost from: nat, satisfied: bool, resolved: bool, failed: bool)
      returns (done: bool)
      requires Stands(mutation.preparation, before, actions, from, sequence, 2)
      requires SettledAs(mutation.preparation, before, mutation.Now(), sequence, CreateEffect, satisfied, resolved)
      requires cursor == NextUpgradeAction(actions, from).1 && (satisfied ==> resolved)
      requires Promised(mutation, NextUpgradeAction(actions, from).0, CreateEffect, satisfied, resolved)
      requires failed && satisfied ==> Unseen(mutation)
      modifies mutation, this`sequence
      ensures Comes(before, 2, done)
      ensures failed && satisfied && mutation.recording && old(LastCompleted(mutation.Now())) ==>
        !done && mutation.Now() == Degrading(old(mutation.Now()))
    {
      if failed && satisfied {
        Abandon(before, from);
        return false;
      }
      done := Conclude(before, from, 2, CreateEffect, satisfied, resolved, Degraded);
    }

    method Start() returns (done: bool)
      requires At(3)
      modifies mutation, this`cursor, this`sequence
      ensures Comes(old(mutation.Now()), 3, done)
    {
      ghost var before, from := mutation.Now(), cursor;
      StageIsDue(3);
      var action := NextAction();
      var result, failed := SettleWorkloadStart(mutation, action, sequence);
      done := Conclude(before, from, 3, StartEffect, result.Some? && result.value.satisfied, result.Some?, Degraded);
    }

    method Remove() returns (done: bool)
      requires At(4)
      modifies mutation, this`cursor, this`sequence
      ensures Comes(old(mutation.Now()), 4, done)
    {
      done := SettleTransition(4, NewUpgradeJourney(mutation.preparation).remove, Degraded);
    }
  }

  // ---------- the image ----------

  /** Once the pull is on record as done, the image is there. */
  lemma {:induction false} PulledImageStays(p: Preparation, w: World)
    requires Reachable(p, w) && w.journal != [] && w.journal[0].kind.ImagePull? && Satisfied(p, w.journal[0])
    ensures w.runtime.image
  {
    Safety.EffectsHoldOnce(p, w, 0);
    ImageFollowsHold(p, w);
  }

  lemma {:induction false} ImageFollowsHold(p: Preparation, w: World)
    requires Reachable(p, w) && WithImage(w.journal)
    ensures |w.holds| == |w.journal| && (w.runtime.image <==> w.holds[0] != 0)
  {
    Preservation.ReachableInvariant(p, w);
  }

  method SettleUpgradeImagePull(mutation: Engine.Mutation, actions: seq<Action>)
    returns (result: Option<Postcondition>, failed: bool)
    requires mutation.Valid() && mutation.state.Active? && actions == mutation.journal
    requires |actions| > 0 && actions[0].kind.ImagePull?
    modifies mutation
    ensures SettledAs(mutation.preparation, old(mutation.Now()), mutation.Now(), 1, PullEffect,
                      result.Some? && result.value.satisfied, result.Some?)
    ensures failed || result.Some?
    ensures mutation.responsive ==> result.Some? && (failed ==> !result.value.satisfied)
    ensures mutation.healthy && result.Some? && !result.value.satisfied ==>
      NegativeLast(mutation.preparation, old(mutation.Now()))
    ensures mutation.blind ==> failed || !result.value.satisfied
  {
    var p := mutation.preparation;
    ghost var before := mutation.Now();
    ReachesSelf(p, before);
    PullIsPositioned(p, before);
    var action := Some(actions[0]);
    PositionedMatches(p, before, action, 1, PullEffect);
    if !Matches(action.value, p.transaction, IntentOf(p, 1, PullEffect)) {
      return None, true;
    }
    if action.value.state.Completed? {
      ReplayIsSettled(p, before, action, 1, PullEffect);
      if Satisfied(p, action.value) {
        PulledImageStays(p, before);
      }
      var missing := ImageEvidence(AsMissing, p.workload.image);
      if action.value.postcondition == Some(missing) {
        return Some(Postcondition(missing, false)), false;
      }
      var observed := ImageEvidence(AsObserved, p.workload.image);
      if action.value.postcondition != Some(observed) {
        return None, true;
      }
      var present := ImagePresent(mutation);
      return Some(Postcondition(observed, true)), present != Some(true);
    }
    result, failed := RunEffect(mutation, action, 1, PullEffect);
    OwedIsResolved(mutation, 1, PullEffect, result);
  }

  lemma {:induction false} PullIsPositioned(p: Preparation, w: World)
    requires Reachable(p, w) && w.state.Active? && |w.journal| > 0 && w.journal[0].kind.ImagePull?
    ensures Positioned(p, w, Some(w.journal[0]), 1, PullEffect)
  {
    Journal(p, w);
    Progresses(p, w);
  }

  lemma {:induction false} FirstPullIsPositioned(p: Preparation, w: World)
    requires Reachable(p, w) && w.state.Active? && w.journal == [] && !w.runtime.image
    ensures Positioned(p, w, None, 1, PullEffect)
  {
    Journal(p, w);
    Progresses(p, w);
  }

  /** Where the run stands once the image is there. */
  lemma {:induction false} PulledStands(p: Preparation, before: World, now: World, actions: seq<Action>, cursor: nat)
    requires Reachable(p, before) && before.state.Active? && before.journal == actions
    requires SettledAs(p, before, now, 1, PullEffect, true, true)
    requires cursor == if |actions| > 0 then 1 else 0
    ensures Stands(p, now, actions, cursor, 2, 0)
  {
    Journal(p, now);
    Progresses(p, now);
    PlannedAt(p, now, 0);
  }

  lemma {:induction false} JournalStands(p: Preparation, w: World)
    requires Reachable(p, w) && w.state.Active? && (w.journal == [] ==> w.runtime.image)
    requires w.journal != [] ==> !w.journal[0].kind.ImagePull?
    ensures Stands(p, w, w.journal, 0, 1, 0)
  {
  }

  lemma {:induction false} NegativePullResolves(p: Preparation, before: World, now: World)
    requires Reachable(p, before) && before.state.Active?
    requires SettledAs(p, before, now, 1, PullEffect, false, true)
    ensures MayResolve(p, now, Failed) && NegativeLast(p, now)
  {
    Journal(p, now);
    Progresses(p, now);
    PlannedAt(p, now, 0);
  }

  lemma {:induction false} SettledReaches(p: Preparation, before: World, now: World, sequence: int, e: Effect)
    requires SettledAs(p, before, now, sequence, e, true, true)
    ensures Reachable(p, now) && Reaches(p, before, now)
  {
  }

  /** A verdict on the pull either lets the run go on or settles the transaction. */
  lemma {:induction false} PullSettles(
      p: Preparation, before: World, now: World, cursor: nat, result: Option<Postcondition>)
    requires Reachable(p, before) && before.state.Active? && cursor == if |before.journal| > 0 then 1 else 0
    requires SettledAs(p, before, now, 1, PullEffect, result.Some? && result.value.satisfied, result.Some?)
    ensures result.Some? && !result.value.satisfied ==> MayResolve(p, now, Failed) && NegativeLast(p, now)
    ensures result.Some? && result.value.satisfied ==>
      Stands(p, now, before.journal, cursor, 2, 0) && (!NegativeLast(p, before) ==> !NegativeLast(p, now))
  {
    if result.Some? && result.value.satisfied {
      PulledStands(p, before, now, before.journal, cursor);
      SatisfiedKeepsLast(p, before, now, 1, PullEffect);
    } else if result.Some? {
      NegativePullResolves(p, before, now);
    }
  }

  /** Settles the image: pulled now or before, or already there. `negative` reports a pull that is on
      record as having found no image. */
  method SettleUpgradeImage(mutation: Engine.Mutation, actions: seq<Action>)
    returns (cursor: nat, sequence: int, negative: bool, failed: bool)
    requires mutation.Valid() && mutation.state.Active? && actions == mutation.journal
    modifies mutation
    ensures mutation.Valid() && Reaches(mutation.preparation, old(mutation.Now()), mutation.Now())
    ensures !failed ==>
      Stands(mutation.preparation, mutation.Now(), actions, cursor, sequence, 0)
    ensures failed && negative ==>
      MayResolve(mutation.preparation, mutation.Now(), Failed) && NegativeLast(mutation.preparation, mutation.Now())
    ensures mutation.responsive && WellObtainable(mutation.preparation, old(mutation.Now())) ==> !failed || negative
    ensures WellObtainable(mutation.preparation, old(mutation.Now())) ==>
      Thrives(mutation, old(mutation.Now()), !failed)
    ensures actions != [] && !WithImage(actions) ==> !failed && mutation.Now() == old(mutation.Now())
    ensures mutation.blind && (actions == [] || WithImage(actions)) ==> failed
  {
    var p := mutation.preparation;
    ghost var before := mutation.Now();
    ReachesSelf(p, before);
    cursor, sequence, negative, failed := 0, 0, false, true;
    if |actions| > 0 && actions[0].kind.ImagePull? {
      PlannedAt(p, before, 0);
      if !p.workload.image.origin.Registry? {
        return;
      }
      var result, pullFailed := SettleUpgradeImagePull(mutation, actions);
      PullSettles(p, before, mutation.Now(), 1, result);
      return 1, 2, result.Some? && !result.value.satisfied, pullFailed || !result.value.satisfied;
    }
    if |actions| > 0 {
      JournalStands(p, before);
      return 0, 1, false, false;
    }
    var present := ImagePresent(mutation);
    if present.None? {
      return 0, 0, false, true;
    }
    if present.value {
      JournalStands(p, before);
      return 0, 1, false, false;
    }
    if p.workload.image.origin.DockerArchive? {
      return 0, 0, false, true;
    }
    FirstPullIsPositioned(p, before);
    var result, pullFailed := RunEffect(mutation, None, 1, PullEffect);
    if ValidEffect(p, PullEffect) {
      OwedIsResolved(mutation, 1, PullEffect, result);
    }
    PullSettles(p, before, mutation.Now(), 0, result);
    return 0, 2, result.Some? && !result.value.satisfied, pullFailed;
  }

  // ---------- the whole run ----------

  /** Once the removal is on record, nothing is open and the replacement runs. */
  lemma {:induction false} RemovedIsReplaced(p: Preparation, w: World)
    requires Reachable(p, w) && w.state.Active? && RemoveSatisfied(p, w.journal)
    ensures AllCompleted(w.journal)
    ensures w.runtime.replacement.Some? && StartedMatches(p, w.runtime.replacement.value)
  {
    Completion.PlanIsNotExceeded(p, w);
    assert |w.journal| == Base(w.journal) + 5;
    CompletedBehind(p, w);
    Completion.ReplacedBeforeCommit(p, w);
  }

  /** The last stage: the replacement is proved running once more and becomes the baseline. */
  method CompleteAppliedMutation(mutation: Engine.Mutation) returns (committed: bool)
    requires mutation.Valid() && mutation.state.Active? && RemoveSatisfied(mutation.preparation, mutation.journal)
    modifies mutation
    ensures mutation.Valid() && Reaches(mutation.preparation, old(mutation.Now()), mutation.Now())
    ensures committed ==> mutation.state.Succeeded?
    ensures mutation.responsive ==> committed
    ensures mutation.blind ==> !committed
  {
    ghost var p := mutation.preparation;
    ghost var before := mutation.Now();
    ReachesSelf(p, before);
    RemovedIsReplaced(p, before);
    var selection := ReadWorkload(mutation);
    if selection.None? || !selection.value.Selected? ||
       !StartedMatches(mutation.preparation, selection.value.container) {
      return false;
    }
    committed := mutation.CommitAppliedService();
    assert mutation.Now() == before || CommitStep(p, before, mutation.Now());
    Extends(p, before, mutation.Now());
  }

  lemma {:induction false} StandingAtCommit(p: Preparation, w: World, actions: seq<Action>, cursor: nat, sequence: int)
    requires Stands(p, w, actions, cursor, sequence, 5)
    ensures RemoveSatisfied(p, w.journal)
  {
    Journal(p, w);
    Progresses(p, w);
    PlannedAt(p, w, sequence - 2);
  }

  /** One run of an active upgrade. Whatever fails in it, the protocol takes only its own steps, and it
      reports success only when the transaction has succeeded. While lease, journal and runtime answer,
      whatever the operations do, it succeeds or settles the transaction on a negative verdict, unless a
      removal is left half done. When nothing fails and nothing was refused before, it succeeds. When the
      journal answers and the runtime does not, a transaction with its creation on record is degraded,
      even if its removal is on record too. */
  method RunUpgrade(mutation: Engine.Mutation) returns (succeeded: bool)
    requires mutation.Valid() && mutation.state.Active?
    modifies mutation
    ensures mutation.Valid() && Reaches(mutation.preparation, old(mutation.Now()), mutation.Now())
    ensures succeeded ==> mutation.state.Succeeded? && !mutation.blind
    ensures WellObtainable(mutation.preparation, old(mutation.Now())) ==> Owes(mutation, succeeded)
    ensures mutation.healthy && Unrefused(mutation.preparation, old(mutation.Now())) ==> succeeded
    ensures mutation.recording && mutation.blind && old(Strandable(mutation)) ==>
      !succeeded && mutation.Now() == Degrading(old(mutation.Now()))
  {
    ghost var p := mutation.preparation;
    ghost var w0 := mutation.Now();
    ReachesSelf(p, w0);
    ActiveJournalIsAccepted(p, w0);
    var actions := mutation.journal;
    var valid := ValidUpgradeActions(actions);
    if !valid {
      return false;
    }
    var cursor, sequence, negative, failed := SettleUpgradeImage(mutation, actions);
    ghost var w1 := mutation.Now();
    if failed {
      if negative {
        GiveUpOnImage(mutation);
        ReachesTransitive(p, w0, w1, mutation.Now());
      }
      return false;
    }
    var materialized: bool := *;
    if !materialized && !mutation.recording {
      return false;
    }
    succeeded := RunFrom(mutation, actions, cursor, sequence);
    ReachesTransitive(p, w0, w1, mutation.Now());
  }

  /** The stages, and the commit behind them. */
  method RunFrom(mutation: Engine.Mutation, actions: seq<Action>, cursor: nat, sequence: int)
    returns (succeeded: bool)
    requires Stands(mutation.preparation, mutation.Now(), actions, cursor, sequence, 0)
    modifies mutation
    ensures mutation.Valid() && Reaches(mutation.preparation, old(mutation.Now()), mutation.Now())
    ensures succeeded ==> mutation.state.Succeeded? && !mutation.blind
    ensures Owes(mutation, succeeded)
    ensures Able(mutation) && !NegativeLast(mutation.preparation, old(mutation.Now())) ==> succeeded
    ensures mutation.recording && mutation.blind &&
            old(CreateStands(mutation.preparation, mutation.Now())) ==>
      !succeeded && mutation.Now() == Degrading(old(mutation.Now()))
  {
    ghost var p := mutation.preparation;
    ghost var w1 := mutation.Now();
    var execution := new UpgradeExecution(mutation, actions, cursor, sequence);
    var done := RunStages(execution);
    if !done {
      return false;
    }
    ghost var w2 := mutation.Now();
    StandingAtCommit(p, w2, actions, execution.cursor, execution.sequence);
    succeeded := CompleteAppliedMutation(mutation);
    ReachesTransitive(p, w1, w2, mutation.Now());
  }

  ghost predicate Strandable(mutation: Engine.Mutation)
    reads mutation
  {
    CreateStands(mutation.preparation, mutation.Now()) && !WithImage(mutation.journal)
  }

  method GiveUpOnImage(mutation: Engine.Mutation)
    requires mutation.Valid() && MayResolve(mutation.preparation, mutation.Now(), Failed)
    requires NegativeLast(mutation.preparation, mutation.Now())
    modifies mutation
    ensures mutation.Valid() && Reaches(mutation.preparation, old(mutation.Now()), mutation.Now())
    ensures mutation.recording ==> Refused(mutation.preparation, mutation.Now())
  {
    ResolveUpgradeFailure(mutation, Failed);
  }

  /** A run in the order of its stages: protocol steps alone, and what is owed for them. */
  ghost predicate Runs(mutation: Engine.Mutation, before: World, done: bool)
    reads mutation
  {
    mutation.Valid() && Reaches(mutation.preparation, before, mutation.Now()) && Owes(mutation, done) &&
    Thrives(mutation, before, done)
  }

  /** Stop and rename. */
  method SetAside(execution: UpgradeExecution) returns (done: bool)
    requires execution.At(0)
    modifies execution.mutation, execution`cursor, execution`sequence
    ensures Runs(execution.mutation, old(execution.mutation.Now()), done) && (done ==> execution.At(2))
    ensures old(CreateStands(execution.mutation.preparation, execution.mutation.Now())) ==>
      done && execution.mutation.Now() == old(execution.mutation.Now())
  {
    ghost var p := execution.mutation.preparation;
    ghost var w0 := execution.mutation.Now();
    execution.StandsOnRecord(0);
    done := execution.Stop();
    if !done {
      return;
    }
    ghost var w1 := execution.mutation.Now();
    execution.StandsOnRecord(1);
    done := execution.Rename();
    ReachesTransitive(p, w0, w1, execution.mutation.Now());
  }

  /** Start and remove. */
  method TakeOver(execution: UpgradeExecution) returns (done: bool)
    requires execution.At(3)
    modifies execution.mutation, execution`cursor, execution`sequence
    ensures Runs(execution.mutation, old(execution.mutation.Now()), done) && (done ==> execution.At(5))
  {
    ghost var p := execution.mutation.preparation;
    ghost var w3 := execution.mutation.Now();
    done := execution.Start();
    if !done {
      return;
    }
    ghost var w4 := execution.mutation.Now();
    done := execution.Remove();
    ReachesTransitive(p, w3, w4, execution.mutation.Now());
  }

  /** The stages in their order; the first that is not done ends the run. */
  method RunStages(execution: UpgradeExecution) returns (done: bool)
    requires execution.At(0)
    modifies execution.mutation, execution`cursor, execution`sequence
    ensures Runs(execution.mutation, old(execution.mutation.Now()), done) && (done ==> execution.At(5))
    ensures execution.mutation.recording && execution.mutation.blind &&
            old(CreateStands(execution.mutation.preparation, execution.mutation.Now())) ==>
      !done && execution.mutation.Now() == Degrading(old(execution.mutation.Now()))
  {
    ghost var p := execution.mutation.preparation;
    ghost var w0 := execution.mutation.Now();
    done := SetAside(execution);
    if !done {
      return;
    }
    ghost var w2 := execution.mutation.Now();
    execution.StandsOnRecord(2);
    done := execution.Create();
    ReachesTransitive(p, w0, w2, execution.mutation.Now());
    if !done {
      return;
    }
    ghost var w3 := execution.mutation.Now();
    done := TakeOver(execution);
    ReachesTransitive(p, w0, w3, execution.mutation.Now());
  }
}
