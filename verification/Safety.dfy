/** What holds of every world that the protocol can reach, over any crashes and reruns. */
module Safety {
  import opened Invariant
  import opened Protocol
  import opened Values
  import opened Workloads
  import Effects
  import Facts
  import Preservation

  /** The journal records that the replacement was seen running. */
  predicate StartSatisfied(p: Preparation, journal: seq<Action>) {
    var i := Base(journal) + 3;
    |journal| > i && journal[i].kind.WorkloadStart? && Satisfied(p, journal[i])
  }

  // ---------- terminal states ----------

  /** A pull or stop that ends the journal is all there is, bar the pull before a stop. */
  lemma {:induction false} EarlyKindsComeFirst(p: Preparation, journal: seq<Action>)
    requires Shape(p, journal, 0) && journal != []
    requires journal[|journal| - 1].kind.ImagePull? || journal[|journal| - 1].kind.WorkloadStop?
    ensures |journal| <= Base(journal) + 1
  {
    PlannedEffect(p, journal, 0, |journal| - 1);
  }

  lemma {:induction false} NegativeIsNotSatisfied(p: Preparation, journal: seq<Action>, core: nat, i: nat)
    requires Shape(p, journal, core) && i < |journal| && Negative(p, journal[i])
    ensures !Satisfied(p, journal[i])
  {
    PlannedEffect(p, journal, core, i);
    Preservation.EvidenceIsExclusive(p, EffectOf(journal[i]), journal[i].postcondition.value);
  }

  lemma {:induction false} FailedEarly(p: Preparation, w: World)
    requires Reachable(p, w) && w.state.Failed? && w.core == 0
    ensures 0 < |w.journal| <= Base(w.journal) + 1 && Facts.SettledLength(w.journal) == |w.journal|
    ensures !Satisfied(p, w.journal[|w.journal| - 1])
  {
    Facts.Journal(p, w);
    EarlyKindsComeFirst(p, w.journal);
    NegativeIsNotSatisfied(p, w.journal, 0, |w.journal| - 1);
  }

  lemma {:induction false} FailedBeforeDegrading(p: Preparation, w: World)
    requires Reachable(p, w) && w.state.Failed? && w.core == 0
    ensures w.runtime.predecessor == Some(Original(p)) && w.runtime.replacement.None?
  {
    FailedEarly(p, w);
    Facts.Journal(p, w);
    var rest := Facts.RestOrHeld(p, w);
    UntouchedAtRest(p, w.journal, w.runtime);
  }

  lemma {:induction false} UntouchedAtRest(p: Preparation, journal: seq<Action>, r: Effects.Runtime)
    requires Shape(p, journal, 0) && 0 < |journal| <= Base(journal) + 1 && AtRest(p, journal, |journal|, r)
    requires !Satisfied(p, journal[|journal| - 1])
    ensures r.predecessor == Some(Original(p)) && r.replacement.None?
  {
    ShapeFollows(p, journal, 0);
    CorePredecessorForm(p, journal, 0, |journal|);
    CoreLifecycleForm(p, journal, 0, |journal|);
  }

  lemma {:induction false} FailedAfterRestoring(p: Preparation, w: World)
    requires Reachable(p, w) && w.state.Failed? && w.core > 0
    ensures w.runtime.predecessor == Some(Original(p)) && w.runtime.replacement.None?
  {
    Facts.Journal(p, w);
    Facts.Progresses(p, w);
    var rest := Facts.RestOrHeld(p, w);
    RestoredAtRest(p, w.journal, w.core, w.runtime);
  }

  lemma {:induction false} RestoredAtRest(p: Preparation, journal: seq<Action>, core: nat, r: Effects.Runtime)
    requires Shape(p, journal, core) && Progress(p, journal, core) && core > 0
    requires |journal| == PlanLength(journal, core) && AtRest(p, journal, |journal|, r)
    requires Satisfied(p, journal[|journal| - 1])
    ensures r.predecessor == Some(Original(p)) && r.replacement.None?
  {
    ShapeFollows(p, journal, core);
    RestoredPredecessorForm(p, journal, core, |journal|);
    RestoredLifecycleForm(p, journal, core, |journal|);
  }

  /** A failed transaction leaves the predecessor exactly as it found it and nothing of its own. */
  lemma {:induction false} FailedLeavesPredecessor(p: Preparation, w: World)
    requires Reachable(p, w) && w.state.Failed?
    ensures w.runtime.predecessor == Some(Original(p)) && w.runtime.replacement.None?
  {
    if w.core == 0 {
      FailedBeforeDegrading(p, w);
    } else {
      FailedAfterRestoring(p, w);
    }
  }

  lemma {:induction false} ReplacedAtRest(p: Preparation, journal: seq<Action>, r: Effects.Runtime)
    requires Shape(p, journal, 0) && Progress(p, journal, 0) && RemoveSatisfied(p, journal)
    requires AtRest(p, journal, |journal|, r)
    ensures r.predecessor.None? && r.replacement.Some? && Effects.StartedMatches(p, r.replacement.value)
  {
    ShapeFollows(p, journal, 0);
    CorePredecessorForm(p, journal, 0, |journal|);
    CoreLifecycleForm(p, journal, 0, |journal|);
  }

  /** A succeeded transaction leaves its replacement running under the desired name, alone. */
  lemma {:induction false} SucceededReplaces(p: Preparation, w: World)
    requires Reachable(p, w) && w.state.Succeeded?
    ensures w.runtime.predecessor.None?
    ensures w.runtime.replacement.Some? && Effects.StartedMatches(p, w.runtime.replacement.value)
  {
    Facts.Journal(p, w);
    Facts.Progresses(p, w);
    var rest := Facts.RestOrHeld(p, w);
    ReplacedAtRest(p, w.journal, w.runtime);
  }

  /** The container as a later transaction finds it. */
  function AsFound(c: Effects.Container): ExistingWorkload {
    ExistingWorkload(c.id, c.name, c.configuration, c.lifecycle, c.ownership)
  }

  /** The next upgrade of the service starts from the generation that this one has recorded. */
  predicate Follows(q: Preparation, p: Preparation, c: Effects.Container) {
    q.applied == Effects.Baseline(p, c) && q.workload.service == p.workload.service &&
    q.workload.container == p.workload.container
  }

  /** What a succeeded transaction leaves is, field by field, the running predecessor of the next one. */
  lemma {:induction false} SuccessorTakesOver(p: Preparation, w: World, q: Preparation)
    requires Reachable(p, w) && w.state.Succeeded?
    requires w.runtime.replacement.Some? ==> Follows(q, p, w.runtime.replacement.value)
    ensures w.runtime.replacement.Some? && AsFound(w.runtime.replacement.value) == Original(q)
    ensures
      var found := w.runtime.(predecessor := Some(AsFound(w.runtime.replacement.value)), replacement := None);
      Initial(q, World([], Active, found, [], 0))
  {
    SucceededReplaces(p, w);
  }

  // ---------- every reachable state ----------

  /** The predecessor is untouched, stopped, set aside, being removed, or gone; while a workload of
      this transaction exists the predecessor is out of its way. */
  predicate Orderly(p: Preparation, r: Effects.Runtime) {
    r.predecessor in
      [None, Some(Original(p)), Some(Stopped(p)), Some(Retained(p)), Some(Retained(p).(lifecycle := Removing))] &&
    (r.replacement.Some? ==>
      r.replacement.value.name == p.workload.container && Retained(p).name != p.workload.container &&
      r.predecessor in [None, Some(Retained(p)), Some(Retained(p).(lifecycle := Removing))])
  }

  lemma {:induction false} CoreRestIsOrderly(
      p: Preparation, journal: seq<Action>, core: nat, n: nat, r: Effects.Runtime)
    requires Shape(p, journal, core) && Progress(p, journal, core) && n <= |journal|
    requires core == 0 || n <= core
    requires AtRest(p, journal, n, r)
    ensures Orderly(p, r)
  {
    ShapeFollows(p, journal, core);
    CorePredecessorForm(p, journal, core, n);
    CoreLifecycleForm(p, journal, core, n);
    if n > Base(journal) + 2 {
      Preservation.RetainedNameDiffers(p, journal, core);
    }
  }

  lemma {:induction false} RestIsOrderly(p: Preparation, journal: seq<Action>, core: nat, n: nat, r: Effects.Runtime)
    requires Shape(p, journal, core) && Progress(p, journal, core) && core <= n <= |journal|
    requires AtRest(p, journal, n, r)
    ensures Orderly(p, r)
  {
    if core == 0 || n == core {
      CoreRestIsOrderly(p, journal, core, n, r);
    } else {
      ShapeFollows(p, journal, core);
      RestoredPredecessorForm(p, journal, core, n);
      RestoredLifecycleForm(p, journal, core, n);
      Preservation.RetainedNameDiffers(p, journal, core);
    }
  }

  /** Transitions of the plans lead from one of the predecessor's places to another. */
  predicate Moves(p: Preparation, e: Effects.Effect) {
    e.TransitionEffect? ==>
      e.transition.before in [Original(p), Stopped(p), Retained(p)] &&
      (e.transition.kind.Remove? ==> e.transition.before == Retained(p)) &&
      (!e.transition.kind.Remove? ==> e.transition.after in [Original(p), Stopped(p), Retained(p)])
  }

  lemma {:induction false} HoldingIsOrderly(
      p: Preparation, e: Effects.Effect, before: Effects.Runtime, after: Effects.Runtime)
    requires Orderly(p, before) && Effects.Ready(p, e, before) && Effects.TakesHold(p, e, before, after) && Moves(p, e)
    ensures Orderly(p, after)
  {
  }

  /** The runtime in which the operation of the unresolved action n was fired. */
  function BeforeHeld(p: Preparation, journal: seq<Action>, n: nat, r: Effects.Runtime): Effects.Runtime
    requires n < |journal|
  {
    var lifecycle := SettledLifecycle(p, journal, n);
    Effects.Runtime(
      r.image && !EffectOf(journal[n]).PullEffect?,
      SettledPredecessor(p, journal, n),
      if lifecycle.None? then None
      else if r.replacement.Some? then Some(r.replacement.value.(lifecycle := lifecycle.value))
      else Some(Effects.Container([1], p.workload.container, 1, 0, true, true, lifecycle.value,
                                  Effects.ReplacementOwnership(p))))
  }

  /** A runtime in which an operation has taken hold comes from one in which it could be fired. */
  lemma {:induction false} HeldComesFromReady(p: Preparation, journal: seq<Action>, core: nat, r: Effects.Runtime)
    requires Shape(p, journal, core) && Progress(p, journal, core) && core < |journal|
    requires Held(p, journal, |journal| - 1, r)
    ensures
      var n := |journal| - 1;
      var before := BeforeHeld(p, journal, n, r);
      AtRest(p, journal, n, before) && Effects.Ready(p, EffectOf(journal[n]), before) &&
      Effects.TakesHold(p, EffectOf(journal[n]), before, r)
  {
    var n := |journal| - 1;
    var before := BeforeHeld(p, journal, n, r);
    assert AtRest(p, journal, n, before);
    Preservation.ReadyWhenDue(p, journal, core, before);
  }

  lemma {:induction false} PlansMove(p: Preparation, journal: seq<Action>, core: nat, i: nat)
    ensures Moves(p, PlanEffect(p, journal, core, i))
  {
  }

  lemma {:induction false} HeldIsOrderly(p: Preparation, journal: seq<Action>, core: nat, r: Effects.Runtime)
    requires Shape(p, journal, core) && Progress(p, journal, core) && core < |journal|
    requires Held(p, journal, |journal| - 1, r)
    ensures Orderly(p, r)
  {
    var n := |journal| - 1;
    var before := BeforeHeld(p, journal, n, r);
    HeldComesFromReady(p, journal, core, r);
    ThenIsOrderly(p, journal, core, before, r);
  }

  lemma {:induction false} ThenIsOrderly(
      p: Preparation, journal: seq<Action>, core: nat, before: Effects.Runtime, r: Effects.Runtime)
    requires Shape(p, journal, core) && Progress(p, journal, core) && core < |journal|
    requires AtRest(p, journal, |journal| - 1, before)
    requires Effects.Ready(p, EffectOf(journal[|journal| - 1]), before)
    requires Effects.TakesHold(p, EffectOf(journal[|journal| - 1]), before, r)
    ensures Orderly(p, r)
  {
    var n := |journal| - 1;
    RestIsOrderly(p, journal, core, n, before);
    PlannedEffect(p, journal, core, n);
    PlansMove(p, journal, core, n);
    HoldingIsOrderly(p, EffectOf(journal[n]), before, r);
  }

  lemma {:induction false} EveryWorldIsOrderly(p: Preparation, w: World)
    requires Reachable(p, w)
    ensures Orderly(p, w.runtime)
  {
    Facts.Journal(p, w);
    Facts.Progresses(p, w);
    var rest := Facts.RestOrHeld(p, w);
    if rest {
      RestIsOrderly(p, w.journal, w.core, Facts.SettledLength(w.journal), w.runtime);
    } else {
      HeldIsOrderly(p, w.journal, w.core, w.runtime);
    }
  }

  /** The two generations never run together, and never share the desired name. */
  lemma {:induction false} GenerationsNeverOverlap(p: Preparation, w: World)
    requires Reachable(p, w)
    ensures Orderly(p, w.runtime)
    ensures w.runtime.replacement.Some? && w.runtime.predecessor.Some? ==>
              !w.runtime.predecessor.value.lifecycle.Running? &&
              w.runtime.predecessor.value.name != w.runtime.replacement.value.name
  {
    EveryWorldIsOrderly(p, w);
  }

  predicate KeepsIdentity(p: Preparation, workload: ExistingWorkload) {
    workload.id == Original(p).id && workload.configuration == Original(p).configuration &&
    workload.ownership == Original(p).ownership
  }

  lemma {:induction false} GoneAtRest(p: Preparation, journal: seq<Action>, core: nat, n: nat)
    requires Shape(p, journal, core) && core <= n <= |journal| && SettledPredecessor(p, journal, n).None?
    ensures |journal| > Base(journal) + 4 && (core > 0 ==> core == Base(journal) + 5)
  {
    ShapeFollows(p, journal, core);
    if core == 0 {
      CorePredecessorForm(p, journal, 0, n);
    } else {
      RestoredPredecessorForm(p, journal, core, n);
    }
  }

  lemma {:induction false} GoneWhenHeld(p: Preparation, journal: seq<Action>, core: nat, r: Effects.Runtime)
    requires Shape(p, journal, core) && core < |journal|
    requires Held(p, journal, |journal| - 1, r) && r.predecessor.None?
    ensures |journal| > Base(journal) + 4 && (core > 0 ==> core == Base(journal) + 5)
  {
    var n := |journal| - 1;
    PlannedEffect(p, journal, core, n);
    if !EffectOf(journal[n]).TransitionEffect? {
      GoneAtRest(p, journal, core, n);
    }
  }

  lemma {:induction false} StartedBeforeRemove(p: Preparation, journal: seq<Action>, core: nat)
    requires Shape(p, journal, core) && Progress(p, journal, core)
    requires |journal| > Base(journal) + 4 && (core > 0 ==> core == Base(journal) + 5)
    ensures StartSatisfied(p, journal)
  {
    PlannedEffect(p, journal, core, Base(journal) + 3);
  }

  lemma {:induction false} GoneOnlyAfterStart(p: Preparation, w: World)
    requires Reachable(p, w) && w.runtime.predecessor.None?
    ensures StartSatisfied(p, w.journal)
  {
    Facts.Journal(p, w);
    Facts.Progresses(p, w);
    var rest := Facts.RestOrHeld(p, w);
    if rest {
      GoneAtRest(p, w.journal, w.core, Facts.SettledLength(w.journal));
    } else {
      GoneWhenHeld(p, w.journal, w.core, w.runtime);
    }
    StartedBeforeRemove(p, w.journal, w.core);
  }

  /** Until the start of the replacement is on record, the predecessor exists, whole. */
  lemma {:induction false} PredecessorOutlivesUnprovenReplacement(p: Preparation, w: World)
    requires Reachable(p, w) && !StartSatisfied(p, w.journal)
    ensures w.runtime.predecessor.Some? && KeepsIdentity(p, w.runtime.predecessor.value)
  {
    EveryWorldIsOrderly(p, w);
    if w.runtime.predecessor.None? {
      GoneOnlyAfterStart(p, w);
    }
  }

  // ---------- exactly once ----------

  /** Over all runs together, the operation of a satisfied action has taken hold exactly once (a
      discard that found nothing: never), that of a negative action never, any other at most once. */
  lemma {:induction false} EffectsHoldOnce(p: Preparation, w: World, i: nat)
    requires Reachable(p, w) && i < |w.journal|
    ensures |w.holds| == |w.journal| && w.holds[i] <= 1
    ensures Satisfied(p, w.journal[i]) && !w.journal[i].kind.WorkloadDiscard? ==> w.holds[i] == 1
    ensures Negative(p, w.journal[i]) || w.journal[i].state.Intent? ==> w.holds[i] == 0
  {
    Preservation.ReachableInvariant(p, w);
    Facts.PlannedAt(p, w, i);
    if Negative(p, w.journal[i]) {
      Facts.SettledAt(p, w, i);
    }
  }

  /** No completed action and no other operation ever meets a half-finished removal. */
  lemma {:induction false} HalfRemovalIsUnresolved(p: Preparation, w: World)
    requires Reachable(p, w) && w.runtime.predecessor.Some?
    requires w.runtime.predecessor.value.lifecycle.Removing?
    ensures |w.journal| > 0 && w.journal[|w.journal| - 1].kind.WorkloadRemove?
    ensures w.journal[|w.journal| - 1].state.EffectOutcomeUnknown?
  {
    Facts.Journal(p, w);
    Facts.Progresses(p, w);
    var rest := Facts.RestOrHeld(p, w);
    if rest {
      RestIsSettled(p, w.journal, w.core, Facts.SettledLength(w.journal), w.runtime);
    } else {
      HalfRemovalHeld(p, w.journal, w.core, w.runtime);
    }
  }

  lemma {:induction false} HalfRemovalHeld(p: Preparation, journal: seq<Action>, core: nat, r: Effects.Runtime)
    requires Shape(p, journal, core) && Progress(p, journal, core) && core < |journal|
    requires Held(p, journal, |journal| - 1, r)
    requires r.predecessor.Some? && r.predecessor.value.lifecycle.Removing?
    ensures journal[|journal| - 1].kind.WorkloadRemove?
  {
    HeldComesFromReady(p, journal, core, r);
    OnlyRemovalHalves(p, journal, core, BeforeHeld(p, journal, |journal| - 1, r), r);
  }

  lemma {:induction false} OnlyRemovalHalves(
      p: Preparation, journal: seq<Action>, core: nat, before: Effects.Runtime, r: Effects.Runtime)
    requires Shape(p, journal, core) && core < |journal| && AtRest(p, journal, |journal| - 1, before)
    requires Effects.TakesHold(p, EffectOf(journal[|journal| - 1]), before, r)
    requires r.predecessor.Some? && r.predecessor.value.lifecycle.Removing?
    ensures journal[|journal| - 1].kind.WorkloadRemove?
  {
    var n := |journal| - 1;
    RestIsSettled(p, journal, core, n, before);
    PlannedEffect(p, journal, core, n);
    PlansMove(p, journal, core, n);
  }

  lemma {:induction false} RestIsSettled(p: Preparation, journal: seq<Action>, core: nat, n: nat, r: Effects.Runtime)
    requires Shape(p, journal, core) && core <= n <= |journal| && AtRest(p, journal, n, r)
    ensures r.predecessor in [None, Some(Original(p)), Some(Stopped(p)), Some(Retained(p))]
  {
    ShapeFollows(p, journal, core);
    if core == 0 {
      CorePredecessorForm(p, journal, 0, n);
    } else {
      RestoredPredecessorForm(p, journal, core, n);
    }
  }
}
