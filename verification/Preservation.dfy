/** Every step of the protocol keeps the invariant. */
module Preservation {
  import opened Effects
  import opened Invariant
  import opened Protocol
  import opened Values
  import opened Workloads

  lemma {:induction false} InitialInvariant(p: Preparation, w: World)
    requires Initial(p, w)
    ensures Inv(p, w)
  {
  }

  /** Appending to or rewriting the end of the journal leaves the settled prefix as it was. */
  lemma {:induction false} SamePrefix(p: Preparation, left: seq<Action>, right: seq<Action>, n: nat)
    requires n <= |left| && n <= |right| && left[..n] == right[..n]
    ensures SettledPredecessor(p, left, n) == SettledPredecessor(p, right, n)
    ensures SettledLifecycle(p, left, n) == SettledLifecycle(p, right, n)
    ensures forall i | 0 <= i < n :: left[i] == right[i]
    ensures forall i | 0 <= i < n :: ExpectedHolds(p, left, i) == ExpectedHolds(p, right, i)
  {
    SettledPrefix(p, left, right, n);
    forall i | 0 <= i < n
      ensures left[i] == right[i]
      ensures ExpectedHolds(p, left, i) == ExpectedHolds(p, right, i)
    {
      assert left[i] == left[..n][i] == right[..n][i] == right[i];
      assert left[..i] == left[..n][..i] == right[..n][..i] == right[..i];
      SettledPrefix(p, left, right, i);
    }
  }

  lemma {:induction false} SameStart(left: seq<Action>, right: seq<Action>)
    requires |left| > 0 && |right| > 0 && left[0].kind == right[0].kind
    ensures Base(left) == Base(right) && WithImage(left) == WithImage(right)
  {
  }

  // ---------- recording an intent ----------

  lemma {:induction false} AppendKeepsShape(p: Preparation, journal: seq<Action>, core: nat, a: Action)
    requires Shape(p, journal, core) && WellPlanned(p, journal + [a], core, |journal|)
    requires |journal| < PlanLength(journal + [a], core)
    ensures Shape(p, journal + [a], core)
  {
    var longer := journal + [a];
    if journal != [] {
      SameStart(journal, longer);
    }
    forall i | 0 <= i < |longer|
      ensures WellPlanned(p, longer, core, i)
    {
      if i < |journal| {
        assert WellPlanned(p, journal, core, i);
      }
    }
  }

  lemma {:induction false} PlannedIsWellPlanned(p: Preparation, w: World, w': World, e: Effect)
    requires Shape(p, w.journal, w.core) && StateAgrees(p, w) && PlansEffect(p, w, w', e)
    ensures w'.journal == w.journal + [Planned(p, w, e)]
    ensures |w.journal| < PlanLength(w'.journal, w.core) && WellPlanned(p, w'.journal, w.core, |w.journal|)
    ensures EffectOf(w'.journal[|w.journal|]) == e
  {
    var n := |w.journal|;
    EffectOfPlanned(p, w'.journal[n], n + 1, e);
    if n > 0 {
      SameStart(w.journal, w'.journal);
    }
    assert e == PlanEffect(p, w'.journal, w.core, n);
  }

  /** An unresolved action may follow the satisfied ones, or the one that degraded the transaction. */
  lemma {:induction false} AppendKeepsProgress(p: Preparation, journal: seq<Action>, core: nat, a: Action)
    requires Progress(p, journal, core) && core <= |journal| && !a.state.Completed?
    requires journal == [] || |journal| == core || Satisfied(p, journal[|journal| - 1])
    requires core > 0 ==> !RemoveSatisfied(p, journal)
    ensures Progress(p, journal + [a], core)
  {
    var longer := journal + [a];
    forall i | 0 <= i < |journal|
      ensures i + 1 != core ==> Satisfied(p, longer[i])
    {
      assert longer[i] == journal[i];
    }
    if core > 0 {
      SameStart(journal, longer);
    }
  }

  lemma {:induction false} PlanKeepsProgress(p: Preparation, w: World, w': World, e: Effect)
    requires Shape(p, w.journal, w.core) && Progress(p, w.journal, w.core) && StateAgrees(p, w)
    requires PlansEffect(p, w, w', e)
    ensures Progress(p, w'.journal, w'.core) && StateAgrees(p, w')
  {
    AppendKeepsProgress(p, w.journal, w.core, Planned(p, w, e));
  }

  lemma {:induction false} AppendKeepsHolds(p: Preparation, journal: seq<Action>, holds: seq<nat>, a: Action)
    requires |holds| == |journal| && HoldsAgree(p, journal, holds) && a.state.Intent?
    ensures HoldsAgree(p, journal + [a], holds + [0])
  {
    var longer := journal + [a];
    assert longer[..|journal|] == journal[..|journal|];
    SamePrefix(p, journal, longer, |journal|);
    forall i | 0 <= i < |longer|
      ensures if longer[i].state.EffectOutcomeUnknown? then (holds + [0])[i] <= 1
              else (holds + [0])[i] == ExpectedHolds(p, longer, i)
    {
      if i < |journal| {
        assert longer[i] == journal[i] && (holds + [0])[i] == holds[i];
      }
    }
  }

  lemma {:induction false} AppendKeepsRuntime(
      p: Preparation, journal: seq<Action>, holds: seq<nat>, r: Runtime, a: Action)
    requires |holds| == |journal| && RuntimeAgrees(p, journal, holds, r) && !a.state.Completed?
    requires AllCompleted(journal) && (journal == [] && a.kind.ImagePull? ==> !r.image)
    ensures RuntimeAgrees(p, journal + [a], holds + [0], r)
  {
    var longer := journal + [a];
    assert longer[..|journal|] == journal[..|journal|];
    SettledPrefix(p, journal, longer, |journal|);
    assert AtRest(p, longer, |journal|, r);
    if journal != [] {
      SameStart(journal, longer);
    }
  }

  lemma {:induction false} AppendKeepsIdentity(p: Preparation, journal: seq<Action>, r: Runtime, a: Action)
    requires IdentityAgrees(p, journal, r) && !a.state.Completed?
    ensures IdentityAgrees(p, journal + [a], r)
  {
    if r.replacement.Some? {
      forall i | 0 <= i < |journal| + 1
        ensures Names(p, (journal + [a])[i], r.replacement.value)
      {
        if i < |journal| {
          assert Names(p, journal[i], r.replacement.value);
        }
      }
    }
  }

  lemma {:induction false} PlanKeeps(p: Preparation, w: World, w': World)
    requires Inv(p, w) && PlanStep(p, w, w')
    ensures Inv(p, w')
  {
    var e: Effect :| PlansEffect(p, w, w', e);
    var a := Planned(p, w, e);
    PlannedIsWellPlanned(p, w, w', e);
    AppendKeepsShape(p, w.journal, w.core, a);
    PlanKeepsProgress(p, w, w', e);
    AppendKeepsHolds(p, w.journal, w.holds, a);
    AppendKeepsRuntime(p, w.journal, w.holds, w.runtime, a);
    AppendKeepsIdentity(p, w.journal, w.runtime, a);
  }

  // ---------- rewriting the last action ----------

  /** The last action changes its state and its evidence, nothing else. */
  predicate Rewrites(journal: seq<Action>, rewritten: seq<Action>, a: Action) {
    |journal| > 0 && rewritten == journal[|journal| - 1 := a] && ValidState(a) &&
    !journal[|journal| - 1].state.Completed? &&
    var last := journal[|journal| - 1];
    a.transaction == last.transaction && a.sequence == last.sequence && a.kind == last.kind &&
    a.intent == last.intent
  }

  lemma {:induction false} RewriteKeepsShape(
      p: Preparation, journal: seq<Action>, rewritten: seq<Action>, core: nat, a: Action)
    requires Shape(p, journal, core) && Rewrites(journal, rewritten, a)
    ensures Shape(p, rewritten, core) && Base(journal) == Base(rewritten)
    ensures EffectOf(a) == EffectOf(journal[|journal| - 1])
  {
    SameStart(journal, rewritten);
    forall i | 0 <= i < |journal|
      ensures WellPlanned(p, rewritten, core, i)
    {
      assert WellPlanned(p, journal, core, i);
    }
  }

  lemma {:induction false} RewriteKeepsPrefix(p: Preparation, journal: seq<Action>, rewritten: seq<Action>, a: Action)
    requires Rewrites(journal, rewritten, a)
    ensures
      var n := |journal| - 1;
      SettledPredecessor(p, journal, n) == SettledPredecessor(p, rewritten, n) &&
      SettledLifecycle(p, journal, n) == SettledLifecycle(p, rewritten, n)
    ensures forall i | 0 <= i < |journal| - 1 ::
      journal[i] == rewritten[i] && ExpectedHolds(p, journal, i) == ExpectedHolds(p, rewritten, i)
  {
    var n := |journal| - 1;
    assert journal[..n] == rewritten[..n];
    SamePrefix(p, journal, rewritten, n);
  }

  /** The restore plan holds no removal of the predecessor. */
  lemma {:induction false} RestoreRemovesNothing(p: Preparation, journal: seq<Action>, core: nat, i: nat)
    requires Shape(p, journal, core) && 0 < core <= i < |journal|
    ensures !journal[i].kind.WorkloadRemove?
  {
    PlannedEffect(p, journal, core, i);
  }

  lemma {:induction false} RewriteKeepsProgress(
      p: Preparation, journal: seq<Action>, rewritten: seq<Action>, core: nat, a: Action)
    requires Shape(p, journal, core) && Progress(p, journal, core) && Rewrites(journal, rewritten, a)
    requires a.state.Completed? ==> Satisfied(p, a) || Negative(p, a)
    ensures Progress(p, rewritten, core)
  {
    SameStart(journal, rewritten);
    if core > 0 {
      assert core < |journal| && rewritten[core - 1] == journal[core - 1];
      RestoreRemovesNothing(p, journal, core, |journal| - 1);
      assert !RemoveSatisfied(p, rewritten);
    }
  }

  // ---------- marking ----------

  lemma {:induction false} MarkKeepsHolds(
      p: Preparation, journal: seq<Action>, holds: seq<nat>, marked: seq<Action>, a: Action)
    requires |holds| == |journal| && HoldsAgree(p, journal, holds)
    requires Rewrites(journal, marked, a) && a.state.EffectOutcomeUnknown?
    ensures HoldsAgree(p, marked, holds)
  {
    RewriteKeepsPrefix(p, journal, marked, a);
    forall i | 0 <= i < |marked|
      ensures if marked[i].state.EffectOutcomeUnknown? then holds[i] <= 1 else holds[i] == ExpectedHolds(p, marked, i)
    {
      if i < |journal| - 1 {
        assert marked[i] == journal[i];
      }
    }
  }

  lemma {:induction false} MarkKeepsRuntime(
      p: Preparation, journal: seq<Action>, holds: seq<nat>, r: Runtime, marked: seq<Action>, a: Action)
    requires |holds| == |journal| && RuntimeAgrees(p, journal, holds, r)
    requires Rewrites(journal, marked, a) && a.state.EffectOutcomeUnknown?
    ensures RuntimeAgrees(p, marked, holds, r)
  {
    RewriteKeepsPrefix(p, journal, marked, a);
    SameStart(journal, marked);
    assert EffectOf(marked[|journal| - 1]) == EffectOf(journal[|journal| - 1]);
  }

  lemma {:induction false} RewriteKeepsIdentity(
      p: Preparation, journal: seq<Action>, r: Runtime, rewritten: seq<Action>, a: Action)
    requires IdentityAgrees(p, journal, r) && Rewrites(journal, rewritten, a)
    requires r.replacement.Some? ==> Names(p, a, r.replacement.value)
    ensures IdentityAgrees(p, rewritten, r)
  {
    if r.replacement.Some? {
      forall i | 0 <= i < |journal|
        ensures Names(p, rewritten[i], r.replacement.value)
      {
        if i < |journal| - 1 {
          assert Names(p, journal[i], r.replacement.value);
        }
      }
    }
  }

  lemma {:induction false} MarkKeeps(p: Preparation, w: World, w': World)
    requires Inv(p, w) && MarkStep(p, w, w')
    ensures Inv(p, w')
  {
    var n := |w.journal| - 1;
    var a := w.journal[n].(state := EffectOutcomeUnknown);
    PlannedEffect(p, w.journal, w.core, n);
    RewriteKeepsShape(p, w.journal, w'.journal, w.core, a);
    RewriteKeepsProgress(p, w.journal, w'.journal, w.core, a);
    MarkKeepsHolds(p, w.journal, w.holds, w'.journal, a);
    MarkKeepsRuntime(p, w.journal, w.holds, w.runtime, w'.journal, a);
    RewriteKeepsIdentity(p, w.journal, w.runtime, w'.journal, a);
  }

  // ---------- what may be fired when ----------

  /** The names differ as soon as the rename has been planned. */
  lemma {:induction false} RetainedNameDiffers(p: Preparation, journal: seq<Action>, core: nat)
    requires Shape(p, journal, core) && |journal| > Base(journal) + 1
    ensures Retained(p).name != p.workload.container
  {
    PlannedEffect(p, journal, core, Base(journal) + 1);
  }

  /** Where the runtime stands while an active transaction goes forward. */
  predicate Advancing(p: Preparation, journal: seq<Action>, r: Runtime) {
    0 < |journal| <= Base(journal) + 5 &&
    r.predecessor == CorePredecessor(p, journal, |journal| - 1) &&
    LifecycleIs(p, r, CoreLifecycle(p, journal, |journal| - 1)) &&
    EffectOf(journal[|journal| - 1]) == UpgradeEffect(p, WithImage(journal), |journal| - 1)
  }

  lemma {:induction false} AdvancingAtRest(p: Preparation, journal: seq<Action>, r: Runtime)
    requires Shape(p, journal, 0) && |journal| > 0 && AtRest(p, journal, |journal| - 1, r)
    ensures Advancing(p, journal, r)
  {
    var n := |journal| - 1;
    ShapeFollows(p, journal, 0);
    CorePredecessorForm(p, journal, 0, n);
    CoreLifecycleForm(p, journal, 0, n);
  }

  lemma {:induction false} ReadyWhileActive(p: Preparation, journal: seq<Action>, r: Runtime)
    requires Shape(p, journal, 0) && Progress(p, journal, 0) && |journal| > 0
    requires AtRest(p, journal, |journal| - 1, r)
    requires EffectOf(journal[|journal| - 1]).PullEffect? ==> !r.image
    ensures Ready(p, EffectOf(journal[|journal| - 1]), r)
  {
    AdvancingAtRest(p, journal, r);
    if |journal| - 1 > Base(journal) {
      RetainedNameDiffers(p, journal, 0);
    }
    ReadyToAdvance(p, journal, r);
  }

  lemma {:induction false} ReadyToAdvance(p: Preparation, journal: seq<Action>, r: Runtime)
    requires Progress(p, journal, 0) && Advancing(p, journal, r)
    requires EffectOf(journal[|journal| - 1]).PullEffect? ==> !r.image
    requires |journal| - 1 > Base(journal) ==> Retained(p).name != p.workload.container
    ensures Ready(p, EffectOf(journal[|journal| - 1]), r)
  {
  }

  /** Where the runtime stands while a degraded transaction is undone. */
  predicate Undoing(p: Preparation, journal: seq<Action>, core: nat, r: Runtime) {
    0 < core < |journal| &&
    r.predecessor == RestoredPredecessor(p, journal, core, |journal| - 1) &&
    LifecycleIs(p, r, RestoredLifecycle(p, journal, core, |journal| - 1)) &&
    EffectOf(journal[|journal| - 1]) == PlanEffect(p, journal, core, |journal| - 1)
  }

  lemma {:induction false} ReadyToUndo(p: Preparation, journal: seq<Action>, core: nat, r: Runtime)
    requires Shape(p, journal, core) && Progress(p, journal, core) && Undoing(p, journal, core, r)
    requires CreateRecorded(journal, core) && Retained(p).name != p.workload.container
    ensures Ready(p, EffectOf(journal[|journal| - 1]), r)
  {
    if core == Base(journal) + 5 {
      PlannedEffect(p, journal, core, core - 1);
    }
  }

  lemma {:induction false} ReadyToRestart(p: Preparation, journal: seq<Action>, core: nat, r: Runtime)
    requires Shape(p, journal, core) && Progress(p, journal, core) && Undoing(p, journal, core, r)
    requires !CreateRecorded(journal, core)
    ensures Ready(p, EffectOf(journal[|journal| - 1]), r)
  {
  }

  lemma {:induction false} UndoingAtRest(p: Preparation, journal: seq<Action>, core: nat, r: Runtime)
    requires Shape(p, journal, core) && 0 < core < |journal| && AtRest(p, journal, |journal| - 1, r)
    ensures Undoing(p, journal, core, r)
  {
    var n := |journal| - 1;
    ShapeFollows(p, journal, core);
    RestoredPredecessorForm(p, journal, core, n);
    RestoredLifecycleForm(p, journal, core, n);
  }

  lemma {:induction false} ReadyWhileDegraded(p: Preparation, journal: seq<Action>, core: nat, r: Runtime)
    requires Shape(p, journal, core) && Progress(p, journal, core) && 0 < core < |journal|
    requires AtRest(p, journal, |journal| - 1, r)
    ensures Ready(p, EffectOf(journal[|journal| - 1]), r)
  {
    UndoingAtRest(p, journal, core, r);
    if CreateRecorded(journal, core) {
      RetainedNameDiffers(p, journal, core);
      ReadyToUndo(p, journal, core, r);
    } else {
      ReadyToRestart(p, journal, core, r);
    }
  }

  lemma {:induction false} ReadyWhenDue(p: Preparation, journal: seq<Action>, core: nat, r: Runtime)
    requires Shape(p, journal, core) && Progress(p, journal, core) && core < |journal|
    requires AtRest(p, journal, |journal| - 1, r)
    requires EffectOf(journal[|journal| - 1]).PullEffect? ==> !r.image
    ensures Ready(p, EffectOf(journal[|journal| - 1]), r)
  {
    if core == 0 {
      ReadyWhileActive(p, journal, r);
    } else {
      ReadyWhileDegraded(p, journal, core, r);
    }
  }

  /** The only action that pulls is the first. */
  lemma {:induction false} PullIsFirst(p: Preparation, journal: seq<Action>, core: nat, i: nat)
    requires Shape(p, journal, core) && i < |journal| && EffectOf(journal[i]).PullEffect?
    ensures i == 0 && WithImage(journal)
  {
    PlannedEffect(p, journal, core, i);
  }

  /** Before the unresolved action has taken hold, its operation may be fired. */
  lemma {:induction false} ReadyAtRest(p: Preparation, w: World)
    requires Inv(p, w) && Unresolved(w) && w.holds[|w.journal| - 1] == 0
    ensures Ready(p, LastEffect(w), w.runtime)
  {
    if LastEffect(w).PullEffect? {
      PullIsFirst(p, w.journal, w.core, |w.journal| - 1);
    }
    ReadyWhenDue(p, w.journal, w.core, w.runtime);
  }

  /** Once the operation of the unresolved action has taken hold, it cannot take hold again. */
  lemma {:induction false} NotReadyWhenHeld(p: Preparation, journal: seq<Action>, r: Runtime, after: Runtime)
    requires |journal| > 0 && Held(p, journal, |journal| - 1, r)
    requires ValidEffect(p, EffectOf(journal[|journal| - 1]))
    requires Ready(p, EffectOf(journal[|journal| - 1]), r)
    ensures !TakesHold(p, EffectOf(journal[|journal| - 1]), r, after)
  {
  }

  // ---------- running the operation ----------

  lemma {:induction false} ApplyFindsNothingHeld(p: Preparation, w: World, w': World)
    requires Inv(p, w) && ApplyStep(p, w, w')
    ensures w.holds[|w.journal| - 1] == 0
  {
    var n := |w.journal| - 1;
    if w.holds[n] != 0 {
      PlannedEffect(p, w.journal, w.core, n);
      NotReadyWhenHeld(p, w.journal, w.runtime, w'.runtime);
    }
  }

  lemma {:induction false} HoldingKeepsRest(p: Preparation, journal: seq<Action>, n: nat, r: Runtime, r': Runtime)
    requires n < |journal| && AtRest(p, journal, n, r)
    requires Ready(p, EffectOf(journal[n]), r) && TakesHold(p, EffectOf(journal[n]), r, r')
    ensures Held(p, journal, n, r')
  {
  }

  lemma {:induction false} ApplyKeepsHolds(p: Preparation, journal: seq<Action>, holds: seq<nat>, holds': seq<nat>)
    requires |holds| == |journal| > 0 && HoldsAgree(p, journal, holds) && holds[|journal| - 1] == 0
    requires journal[|journal| - 1].state.EffectOutcomeUnknown? && holds' == holds[|journal| - 1 := 1]
    ensures HoldsAgree(p, journal, holds')
  {
  }

  /** The image is there exactly when the pull has taken hold. */
  lemma {:induction false} ApplyKeepsImage(
      p: Preparation, journal: seq<Action>, core: nat, holds: seq<nat>, holds': seq<nat>, r: Runtime, r': Runtime)
    requires Shape(p, journal, core) && |holds| == |journal| > 0 && holds' == holds[|journal| - 1 := 1]
    requires TakesHold(p, EffectOf(journal[|journal| - 1]), r, r')
    requires WithImage(journal) ==> (r.image <==> holds[0] != 0)
    ensures WithImage(journal) ==> (r'.image <==> holds'[0] != 0)
  {
    PlannedEffect(p, journal, core, |journal| - 1);
  }

  lemma {:induction false} ApplyKeepsRuntime(
      p: Preparation, journal: seq<Action>, core: nat, holds: seq<nat>, holds': seq<nat>, r: Runtime, r': Runtime)
    requires Shape(p, journal, core) && |holds| == |journal| > 0 && RuntimeAgrees(p, journal, holds, r)
    requires !journal[|journal| - 1].state.Completed? && holds[|journal| - 1] == 0
    requires Ready(p, EffectOf(journal[|journal| - 1]), r) && TakesHold(p, EffectOf(journal[|journal| - 1]), r, r')
    requires holds' == holds[|journal| - 1 := 1]
    ensures RuntimeAgrees(p, journal, holds', r')
  {
    ApplyKeepsImage(p, journal, core, holds, holds', r, r');
    HoldingKeepsRest(p, journal, |journal| - 1, r, r');
  }

  lemma {:induction false} ApplyKeepsAgreement(p: Preparation, w: World, w': World)
    requires Inv(p, w) && ApplyStep(p, w, w')
    ensures |w'.holds| == |w'.journal|
    ensures HoldsAgree(p, w'.journal, w'.holds) && RuntimeAgrees(p, w'.journal, w'.holds, w'.runtime)
  {
    ApplyFindsNothingHeld(p, w, w');
    ApplyKeepsHolds(p, w.journal, w.holds, w'.holds);
    ApplyKeepsRuntime(p, w.journal, w.core, w.holds, w'.holds, w.runtime, w'.runtime);
  }

  /** Nothing was created or started before a creation. */
  lemma {:induction false} NoCreateBefore(p: Preparation, journal: seq<Action>, core: nat, i: nat)
    requires Shape(p, journal, core) && i < |journal| - 1 && EffectOf(journal[|journal| - 1]).CreateEffect?
    ensures !journal[i].kind.WorkloadCreate? && !journal[i].kind.WorkloadStart?
  {
    PlannedEffect(p, journal, core, |journal| - 1);
    PlannedEffect(p, journal, core, i);
  }

  lemma {:induction false} ApplyKeepsIdentity(
      p: Preparation, journal: seq<Action>, core: nat, r: Runtime, r': Runtime)
    requires Shape(p, journal, core) && |journal| > 0 && !journal[|journal| - 1].state.Completed?
    requires IdentityAgrees(p, journal, r) && TakesHold(p, EffectOf(journal[|journal| - 1]), r, r')
    ensures IdentityAgrees(p, journal, r')
  {
    if r'.replacement.Some? {
      forall i | 0 <= i < |journal|
        ensures Names(p, journal[i], r'.replacement.value)
      {
        if !EffectOf(journal[|journal| - 1]).CreateEffect? {
          assert Names(p, journal[i], r.replacement.value);
        } else if i < |journal| - 1 {
          NoCreateBefore(p, journal, core, i);
        }
      }
    }
  }

  lemma {:induction false} ApplyKeeps(p: Preparation, w: World, w': World)
    requires Inv(p, w) && ApplyStep(p, w, w')
    ensures Inv(p, w')
  {
    ApplyKeepsAgreement(p, w, w');
    ApplyKeepsIdentity(p, w.journal, w.core, w.runtime, w'.runtime);
  }

  /** The runtime finishes a removal it had begun. */
  lemma {:induction false} ResumeKeeps(p: Preparation, w: World, w': World)
    requires Inv(p, w) && ResumeStep(p, w, w')
    ensures Inv(p, w')
  {
    var n := |w.journal| - 1;
    PlannedEffect(p, w.journal, w.core, n);
    if w.holds[n] == 0 {
      ReadyAtRest(p, w);
      assert false;
    }
    assert Held(p, w.journal, n, w'.runtime);
  }

  // ---------- what a probe of the last action tells ----------

  predicate Resolves(p: Preparation, e: Effect, verdict: Postcondition) {
    if verdict.satisfied then SatisfiedDigest(p, e, verdict.digest) else NegativeDigest(p, e, verdict.digest)
  }

  /** The probe answers, and says `satisfied` exactly when the operation has taken hold or there
      was nothing left to discard; a removal is incomplete only after it has begun. */
  predicate Tells(p: Preparation, e: Effect, r: Runtime, held: bool) {
    var observation := Probe(p, e, [], r);
    observation.Some? &&
    if observation.value.incomplete then held
    else
      var verdict := observation.value.postcondition;
      Resolves(p, e, verdict) &&
      (verdict.satisfied <==> held || (e.DiscardEffect? && r.replacement.None?))
  }

  lemma {:induction false} TellsWhenReady(p: Preparation, e: Effect, r: Runtime)
    requires Ready(p, e, r) && ValidEffect(p, e)
    requires r.replacement.Some? ==> DiscardMatches(p, r.replacement.value)
    ensures Tells(p, e, r, false)
  {
  }

  lemma {:induction false} TellsWhenHeld(p: Preparation, journal: seq<Action>, n: nat, r: Runtime)
    requires n < |journal| && Held(p, journal, n, r) && ValidEffect(p, EffectOf(journal[n]))
    requires EffectOf(journal[n]).DiscardEffect? ==> Select(p, r).SelectedNone?
    ensures Tells(p, EffectOf(journal[n]), r, true)
  {
  }

  /** While a discard is the last action, the predecessor does not hold the desired name. */
  lemma {:induction false} DiscardFindsNoOther(p: Preparation, journal: seq<Action>, core: nat, r: Runtime)
    requires Shape(p, journal, core) && Progress(p, journal, core) && core <= |journal| - 1
    requires EffectOf(journal[|journal| - 1]).DiscardEffect?
    requires r.predecessor == SettledPredecessor(p, journal, |journal| - 1)
    ensures !Select(p, r).SelectedOther?
  {
    var n := |journal| - 1;
    PlannedEffect(p, journal, core, n);
    ShapeFollows(p, journal, core);
    RestoredPredecessorForm(p, journal, core, n);
    RetainedNameDiffers(p, journal, core);
    NoOtherToDiscard(p, journal, core, r);
  }

  lemma {:induction false} NoOtherToDiscard(p: Preparation, journal: seq<Action>, core: nat, r: Runtime)
    requires |journal| > 0 && InPlace(journal, core) && Progress(p, journal, core) && core <= |journal| - 1
    requires PlanEffect(p, journal, core, |journal| - 1).DiscardEffect?
    requires r.predecessor == RestoredPredecessor(p, journal, core, |journal| - 1)
    requires Retained(p).name != p.workload.container
    ensures !Select(p, r).SelectedOther?
  {
  }

  lemma {:induction false} LifecycleIsKnown(p: Preparation, journal: seq<Action>, n: nat)
    requires n <= |journal|
    ensures SettledLifecycle(p, journal, n) in [None, Some(Created), Some(Running)]
  {
    if n > 0 {
      LifecycleIsKnown(p, journal, n - 1);
    }
  }

  lemma {:induction false} TellsBefore(p: Preparation, journal: seq<Action>, core: nat, r: Runtime)
    requires Shape(p, journal, core) && Progress(p, journal, core) && core < |journal|
    requires AtRest(p, journal, |journal| - 1, r)
    requires EffectOf(journal[|journal| - 1]).PullEffect? ==> !r.image
    ensures Tells(p, EffectOf(journal[|journal| - 1]), r, false)
  {
    var n := |journal| - 1;
    PlannedEffect(p, journal, core, n);
    ReadyWhenDue(p, journal, core, r);
    LifecycleIsKnown(p, journal, n);
    TellsWhenReady(p, EffectOf(journal[n]), r);
  }

  lemma {:induction false} TellsAfter(p: Preparation, journal: seq<Action>, core: nat, r: Runtime)
    requires Shape(p, journal, core) && Progress(p, journal, core) && core < |journal|
    requires Held(p, journal, |journal| - 1, r)
    ensures Tells(p, EffectOf(journal[|journal| - 1]), r, true)
  {
    var n := |journal| - 1;
    PlannedEffect(p, journal, core, n);
    if EffectOf(journal[n]).DiscardEffect? {
      DiscardFindsNoOther(p, journal, core, r);
    }
    TellsWhenHeld(p, journal, n, r);
  }

  lemma {:induction false} InFlightAgrees(p: Preparation, w: World)
    requires Inv(p, w) && Unresolved(w)
    ensures w.core < |w.journal|
    ensures
      var n := |w.journal| - 1;
      if w.holds[n] == 0 then
        AtRest(p, w.journal, n, w.runtime) && (EffectOf(w.journal[n]).PullEffect? ==> !w.runtime.image)
      else Held(p, w.journal, n, w.runtime)
  {
    if LastEffect(w).PullEffect? {
      PullIsFirst(p, w.journal, w.core, |w.journal| - 1);
    }
  }

  lemma {:induction false} TellsInFlight(p: Preparation, journal: seq<Action>, core: nat, r: Runtime, held: bool)
    requires Shape(p, journal, core) && Progress(p, journal, core) && core < |journal|
    requires
      var n := |journal| - 1;
      if held then Held(p, journal, n, r)
      else AtRest(p, journal, n, r) && (EffectOf(journal[n]).PullEffect? ==> !r.image)
    ensures Tells(p, EffectOf(journal[|journal| - 1]), r, held)
  {
    if held {
      TellsAfter(p, journal, core, r);
    } else {
      TellsBefore(p, journal, core, r);
    }
  }

  /** A probe of the unresolved action is truthful about whether its operation has taken hold. */
  lemma {:induction false} ProbeTells(p: Preparation, w: World)
    requires Inv(p, w) && Unresolved(w)
    ensures Tells(p, LastEffect(w), w.runtime, w.holds[|w.journal| - 1] != 0)
  {
    InFlightAgrees(p, w);
    TellsInFlight(p, w.journal, w.core, w.runtime, w.holds[|w.journal| - 1] != 0);
  }

  lemma {:induction false} EvidenceIsExclusive(p: Preparation, e: Effect, d: Evidence)
    requires ValidEffect(p, e)
    ensures !(SatisfiedDigest(p, e, d) && NegativeDigest(p, e, d))
  {
  }

  // ---------- completing ----------

  /** What completing the last action with the probe's verdict records. */
  predicate Verdict(p: Preparation, w: World, w': World, verdict: Postcondition, a: Action) {
    Unresolved(w) && Rewrites(w.journal, w'.journal, a) && EffectOf(a) == LastEffect(w) &&
    a.state.Completed? && a.postcondition == Some(verdict.digest) &&
    Probe(p, LastEffect(w), [], w.runtime) == Some(Observation(verdict, false)) &&
    (verdict.satisfied <==> Satisfied(p, a)) && (verdict.satisfied <==> !Negative(p, a)) &&
    (verdict.satisfied <==>
      w.holds[|w.journal| - 1] != 0 || (LastEffect(w).DiscardEffect? && w.runtime.replacement.None?)) &&
    w' == w.(journal := w'.journal)
  }

  lemma {:induction false} VerdictOfProbe(p: Preparation, w: World, w': World)
    requires CompleteStep(p, w, w') && ValidEffect(p, LastEffect(w))
    requires Tells(p, LastEffect(w), w.runtime, w.holds[|w.journal| - 1] != 0)
    ensures
      Verdict(p, w, w', Probe(p, LastEffect(w), [], w.runtime).value.postcondition, w'.journal[|w.journal| - 1])
  {
    EvidenceIsExclusive(p, LastEffect(w), Probe(p, LastEffect(w), [], w.runtime).value.postcondition.digest);
  }

  lemma {:induction false} CompleteRecordsVerdict(p: Preparation, w: World, w': World)
    returns (verdict: Postcondition, a: Action)
    requires Inv(p, w) && CompleteStep(p, w, w')
    ensures Verdict(p, w, w', verdict, a)
  {
    var n := |w.journal| - 1;
    ProbeTells(p, w);
    PlannedEffect(p, w.journal, w.core, n);
    VerdictOfProbe(p, w, w');
    verdict := Probe(p, LastEffect(w), [], w.runtime).value.postcondition;
    a := w'.journal[n];
  }

  lemma {:induction false} CompleteKeepsRuntime(p: Preparation, w: World, w': World, verdict: Postcondition, a: Action)
    requires |w.holds| == |w.journal| && RuntimeAgrees(p, w.journal, w.holds, w.runtime)
    requires Verdict(p, w, w', verdict, a)
    ensures AtRest(p, w'.journal, |w'.journal|, w'.runtime)
  {
    RewriteKeepsPrefix(p, w.journal, w'.journal, a);
  }

  lemma {:induction false} CompleteKeepsHolds(p: Preparation, w: World, w': World, verdict: Postcondition, a: Action)
    requires |w.holds| == |w.journal| && RuntimeAgrees(p, w.journal, w.holds, w.runtime)
    requires HoldsAgree(p, w.journal, w.holds) && Verdict(p, w, w', verdict, a)
    ensures HoldsAgree(p, w'.journal, w'.holds)
  {
    var n := |w.journal| - 1;
    RewriteKeepsPrefix(p, w.journal, w'.journal, a);
    assert w.holds[n] <= 1;
    assert w.holds[n] == ExpectedHolds(p, w'.journal, n);
  }

  lemma {:induction false} CompleteKeepsIdentity(p: Preparation, w: World, w': World, verdict: Postcondition, a: Action)
    requires IdentityAgrees(p, w.journal, w.runtime) && Verdict(p, w, w', verdict, a)
    ensures IdentityAgrees(p, w'.journal, w'.runtime)
  {
    RewriteKeepsIdentity(p, w.journal, w.runtime, w'.journal, a);
  }

  lemma {:induction false} CompleteKeeps(p: Preparation, w: World, w': World)
    requires Inv(p, w) && CompleteStep(p, w, w')
    ensures Inv(p, w')
  {
    var verdict, a := CompleteRecordsVerdict(p, w, w');
    RewriteKeepsShape(p, w.journal, w'.journal, w.core, a);
    RewriteKeepsProgress(p, w.journal, w'.journal, w.core, a);
    CompleteKeepsRuntime(p, w, w', verdict, a);
    CompleteKeepsHolds(p, w, w', verdict, a);
    CompleteKeepsIdentity(p, w, w', verdict, a);
    SameStart(w.journal, w'.journal);
  }

  // ---------- settling the transaction ----------

  lemma {:induction false} DegradeKeeps(p: Preparation, w: World, w': World)
    requires Inv(p, w) && DegradeStep(p, w, w')
    ensures Inv(p, w')
  {
    forall i | 0 <= i < |w'.journal|
      ensures WellPlanned(p, w'.journal, w'.core, i)
    {
      assert WellPlanned(p, w.journal, w.core, i);
    }
    PlannedEffect(p, w.journal, w.core, |w.journal| - 1);
  }

  lemma {:induction false} FailKeeps(p: Preparation, w: World, w': World)
    requires Inv(p, w) && FailStep(p, w, w')
    ensures Inv(p, w')
  {
  }

  lemma {:induction false} RestoredKeeps(p: Preparation, w: World, w': World)
    requires Inv(p, w) && RestoredStep(p, w, w')
    ensures Inv(p, w')
  {
  }

  lemma {:induction false} CommitKeeps(p: Preparation, w: World, w': World)
    requires Inv(p, w) && CommitStep(p, w, w')
    ensures Inv(p, w')
  {
  }

  lemma {:induction false} StepKeepsInvariant(p: Preparation, w: World, w': World)
    requires Inv(p, w) && Step(p, w, w')
    ensures Inv(p, w')
  {
    if PlanStep(p, w, w') {
      PlanKeeps(p, w, w');
    } else if MarkStep(p, w, w') {
      MarkKeeps(p, w, w');
    } else if ApplyStep(p, w, w') {
      ApplyKeeps(p, w, w');
    } else if ResumeStep(p, w, w') {
      ResumeKeeps(p, w, w');
    } else if CompleteStep(p, w, w') {
      CompleteKeeps(p, w, w');
    } else if DegradeStep(p, w, w') {
      DegradeKeeps(p, w, w');
    } else if FailStep(p, w, w') {
      FailKeeps(p, w, w');
    } else if RestoredStep(p, w, w') {
      RestoredKeeps(p, w, w');
    } else {
      CommitKeeps(p, w, w');
    }
  }

  lemma {:induction false} RunKeepsInvariant(p: Preparation, trace: seq<World>, n: nat)
    requires IsRun(p, trace) && Inv(p, trace[0]) && n < |trace|
    ensures Inv(p, trace[n])
  {
    if n > 0 {
      RunKeepsInvariant(p, trace, n - 1);
      StepKeepsInvariant(p, trace[n - 1], trace[n]);
    }
  }

  lemma {:induction false} ReachesKeepsInvariant(p: Preparation, w: World, w': World)
    requires Inv(p, w) && Reaches(p, w, w')
    ensures Inv(p, w')
  {
    var trace: seq<World> :| IsRun(p, trace) && trace[0] == w && trace[|trace| - 1] == w';
    RunKeepsInvariant(p, trace, |trace| - 1);
  }

  /** Every world that any number of runs, crashes and reruns can reach satisfies the invariant. */
  lemma {:induction false} ReachableInvariant(p: Preparation, w: World)
    requires Reachable(p, w)
    ensures Inv(p, w)
  {
    var start: World :| Initial(p, start) && Reaches(p, start, w);
    InitialInvariant(p, start);
    ReachesKeepsInvariant(p, start, w);
  }
}
