/** Which worlds can still be brought to an end, and how one is left stranded. */
module Completion {
  import opened Facts
  import opened Protocol
  import opened Values
  import opened Workloads
  import Effects
  import Invariant
  import Preservation
  import Safety

  /** Every operation the transaction may need is one its effects accept. */
  predicate WellPrepared(p: Preparation) {
    var journey := NewUpgradeJourney(p);
    p.transaction != [] && ValidTransition(journey.stop) && ValidTransition(journey.rename) &&
    ValidTransition(journey.remove) && ValidEffectWorkload(p.workload)
  }

  /** A missing image can be pulled. */
  predicate Obtainable(p: Preparation, w: World) {
    w.journal == [] && !w.runtime.image ==> p.workload.image.origin.Registry?
  }

  predicate Finished(w: World) {
    w.state.Failed? || w.state.Succeeded?
  }

  /** A degraded transaction is stuck once its predecessor is recorded as removed, or once a
      restore action is recorded as negative. */
  predicate Stuck(p: Preparation, w: World) {
    w.state.Degraded? &&
    (RemoveSatisfied(p, w.journal) ||
     (|w.journal| > w.core && Negative(p, w.journal[|w.journal| - 1])))
  }

  // ---------- a stuck transaction takes no further step ----------

  lemma {:induction false} StuckTakesNoStep(p: Preparation, w: World, w': World)
    requires Reachable(p, w) && Stuck(p, w)
    ensures !Step(p, w, w')
  {
    Journal(p, w);
    Progresses(p, w);
    if w.journal[|w.journal| - 1].state.Completed? {
      CompletedBehind(p, w);
      SettledAt(p, w, |w.journal| - 1);
    }
  }

  lemma {:induction false} FinishedTakesNoStep(p: Preparation, w: World, w': World)
    requires Reachable(p, w) && Finished(w)
    ensures !Step(p, w, w')
  {
    Journal(p, w);
  }

  lemma {:induction false} StuckForEver(p: Preparation, w: World, w': World)
    requires Reachable(p, w) && Stuck(p, w) && Reaches(p, w, w')
    ensures w' == w
  {
    var trace: seq<World> :| IsRun(p, trace) && trace[0] == w && trace[|trace| - 1] == w';
    if |trace| > 1 {
      assert Step(p, trace[0], trace[1]);
      StuckTakesNoStep(p, w, trace[1]);
    }
  }

  // ---------- every other transaction can be finished ----------

  lemma {:induction false} PlannedIsValid(p: Preparation, journal: seq<Action>, core: nat, i: nat)
    requires WellPrepared(p) && (WithImage(journal) ==> i > 0)
    ensures Effects.ValidEffect(p, PlanEffect(p, journal, core, i))
  {
  }

  predicate Idle(w: World) {
    w.journal == [] || w.journal[|w.journal| - 1].state.Completed?
  }

  function Plans(p: Preparation, w: World, e: Effects.Effect): World {
    w.(journal := w.journal + [Planned(p, w, e)], holds := w.holds + [0])
  }

  /** The next world of a run in which every operation succeeds. */
  function Advance(p: Preparation, w: World): World {
    var n := |w.journal|;
    if Unresolved(w) then AdvanceAction(p, w)
    else if Finished(w) then w
    else if n == 0 then
      Plans(p, w, if w.runtime.image then Effects.TransitionEffect(NewUpgradeJourney(p).stop) else Effects.PullEffect)
    else if w.state.Active? && Negative(p, w.journal[n - 1]) then
      if w.journal[n - 1].kind.ImagePull? || w.journal[n - 1].kind.WorkloadStop? then w.(state := Failed)
      else w.(state := Degraded, core := n)
    else if n < PlanLength(w.journal, w.core) then Plans(p, w, PlanEffect(p, w.journal, w.core, n))
    else w.(state := if w.state.Active? then Succeeded else Failed)
  }

  function AdvanceAction(p: Preparation, w: World): World
    requires |w.journal| > 0 && |w.holds| == |w.journal|
  {
    var n := |w.journal| - 1;
    var observation := Effects.Probe(p, LastEffect(w), [], w.runtime);
    if w.journal[n].state.Intent? then w.(journal := w.journal[n := w.journal[n].(state := EffectOutcomeUnknown)])
    else if observation.None? then w
    else if observation.value.incomplete then w.(runtime := w.runtime.(predecessor := None))
    else if observation.value.postcondition.satisfied then Completing(w, observation.value.postcondition.digest)
    else w.(runtime := Outcome(p, LastEffect(w), w.runtime), holds := w.holds[n := w.holds[n] + 1])
  }

  /** How far the last action still is from being settled. */
  function Remaining(p: Preparation, w: World): nat {
    if Idle(w) then 0
    else if w.journal[|w.journal| - 1].state.Intent? then 4
    else
      var observation := Effects.Probe(p, LastEffect(w), [], w.runtime);
      if observation.None? then 4
      else if observation.value.incomplete then 2
      else if observation.value.postcondition.satisfied then 1
      else 3
  }

  function Rank(state: TransactionState): nat {
    match state
    case Active => 2
    case Degraded => 1
    case _ => 0
  }

  lemma {:induction false} MarkAdvances(p: Preparation, w: World)
    requires Reachable(p, w) && Unresolved(w) && w.journal[|w.journal| - 1].state.Intent?
    ensures Step(p, w, AdvanceAction(p, w)) && Remaining(p, AdvanceAction(p, w)) < 4
  {
    var w' := AdvanceAction(p, w);
    assert MarkStep(p, w, w');
    Extends(p, w, w');
    ProbeOfLast(p, w');
  }

  lemma {:induction false} ResumeAdvances(p: Preparation, w: World)
    requires Reachable(p, w) && Uncertain(w)
    requires Effects.Probe(p, LastEffect(w), [], w.runtime).Some?
    requires Effects.Probe(p, LastEffect(w), [], w.runtime).value.incomplete
    ensures Step(p, w, AdvanceAction(p, w)) && Remaining(p, AdvanceAction(p, w)) == 1
  {
    var w' := AdvanceAction(p, w);
    assert ResumeStep(p, w, w');
  }

  lemma {:induction false} ApplyAdvances(p: Preparation, w: World)
    requires Reachable(p, w) && Uncertain(w)
    requires Effects.Probe(p, LastEffect(w), [], w.runtime).Some?
    requires !Effects.Probe(p, LastEffect(w), [], w.runtime).value.incomplete
    requires !Effects.Probe(p, LastEffect(w), [], w.runtime).value.postcondition.satisfied
    ensures Step(p, w, AdvanceAction(p, w)) && Remaining(p, AdvanceAction(p, w)) == 1
  {
    var w' := AdvanceAction(p, w);
    ProbeOfLast(p, w);
    UnsatisfiedIsDue(p, w);
    OutcomeTakesHold(p, LastEffect(w), w.runtime);
    PlannedAt(p, w, |w.journal| - 1);
    OutcomeIsSeen(p, LastEffect(w), w.runtime);
    assert ApplyStep(p, w, w');
  }

  lemma {:induction false} CompleteAdvances(p: Preparation, w: World)
    requires Reachable(p, w) && Uncertain(w)
    requires Effects.Probe(p, LastEffect(w), [], w.runtime).Some?
    requires !Effects.Probe(p, LastEffect(w), [], w.runtime).value.incomplete
    requires Effects.Probe(p, LastEffect(w), [], w.runtime).value.postcondition.satisfied
    ensures Step(p, w, AdvanceAction(p, w)) && Remaining(p, AdvanceAction(p, w)) == 0
    ensures !Negative(p, AdvanceAction(p, w).journal[|w.journal| - 1])
  {
    var w' := AdvanceAction(p, w);
    assert CompleteStep(p, w, w');
    var verdict, a := CompletionRecords(p, w, w');
  }

  lemma {:induction false} UnresolvedIsBeyondCore(p: Preparation, w: World)
    requires Reachable(p, w) && Unresolved(w)
    ensures w.core < |w.journal|
  {
    Journal(p, w);
    Progresses(p, w);
  }

  lemma {:induction false} ActionAdvances(p: Preparation, w: World)
    requires Reachable(p, w) && Unresolved(w)
    ensures Step(p, w, AdvanceAction(p, w)) && Remaining(p, AdvanceAction(p, w)) < Remaining(p, w)
    ensures !Stuck(p, AdvanceAction(p, w))
  {
    var observation := Effects.Probe(p, LastEffect(w), [], w.runtime);
    ProbeOfLast(p, w);
    UnresolvedIsBeyondCore(p, w);
    var w' := AdvanceAction(p, w);
    if w.journal[|w.journal| - 1].state.Intent? {
      MarkAdvances(p, w);
    } else if observation.value.incomplete {
      ResumeAdvances(p, w);
    } else if observation.value.postcondition.satisfied {
      CompleteAdvances(p, w);
    } else {
      ApplyAdvances(p, w);
    }
    Extends(p, w, w');
    if w'.state.Degraded? {
      RestoreIsNotRemoved(p, w');
    }
  }

  // ---------- between two actions ----------

  /** With nothing unresolved, everything is completed and the last verdict is clear. */
  lemma {:induction false} IdleIsCompleted(p: Preparation, w: World)
    requires Reachable(p, w) && !Finished(w) && !Unresolved(w)
    ensures AllCompleted(w.journal) && w.core <= |w.journal| && (w.core > 0 <==> w.state.Degraded?)
    ensures w.journal != [] ==>
      (Negative(p, w.journal[|w.journal| - 1]) <==> !Satisfied(p, w.journal[|w.journal| - 1]))
  {
    Journal(p, w);
    CompletedBehind(p, w);
    if w.journal != [] {
      SettledAt(p, w, |w.journal| - 1);
    }
  }

  lemma {:induction false} AppendedIsNotRemoved(p: Preparation, journal: seq<Action>, a: Action)
    requires journal != [] && !a.state.Completed? && !RemoveSatisfied(p, journal)
    ensures !RemoveSatisfied(p, journal + [a])
  {
    Preservation.SameStart(journal, journal + [a]);
  }

  lemma {:induction false} PlanAdvances(p: Preparation, w: World, e: Effects.Effect)
    requires MayPlan(p, w, e) && (w.state.Degraded? ==> w.journal != [])
    ensures Step(p, w, Plans(p, w, e)) && !Stuck(p, Plans(p, w, e))
  {
    var w' := Plans(p, w, e);
    assert PlansEffect(p, w, w', e);
    assert PlanStep(p, w, w');
    if w.state.Degraded? {
      AppendedIsNotRemoved(p, w.journal, Planned(p, w, e));
    }
  }

  lemma {:induction false} FirstAdvances(p: Preparation, w: World)
    requires Reachable(p, w) && w.journal == [] && w.state.Active? && WellPrepared(p) && Obtainable(p, w)
    ensures Step(p, w, Advance(p, w)) && !Stuck(p, Advance(p, w))
  {
    PlanAdvances(
      p, w, if w.runtime.image then Effects.TransitionEffect(NewUpgradeJourney(p).stop) else Effects.PullEffect);
  }

  lemma {:induction false} ActiveMayPlan(p: Preparation, w: World, e: Effects.Effect)
    requires w.state.Active? && w.journal != [] && AllCompleted(w.journal) && Effects.ValidEffect(p, e)
    requires Satisfied(p, w.journal[|w.journal| - 1]) && |w.journal| < PlanLength(w.journal, w.core)
    requires e == PlanEffect(p, w.journal, w.core, |w.journal|)
    ensures MayPlan(p, w, e)
  {
  }

  lemma {:induction false} DegradedMayPlan(p: Preparation, w: World, e: Effects.Effect)
    requires w.state.Degraded? && w.journal != [] && AllCompleted(w.journal) && Effects.ValidEffect(p, e) &&
      !Stuck(p, w)
    requires w.core == |w.journal| ||
      (w.core < |w.journal| &&
       (Negative(p, w.journal[|w.journal| - 1]) <==> !Satisfied(p, w.journal[|w.journal| - 1])))
    requires |w.journal| < PlanLength(w.journal, w.core) && e == PlanEffect(p, w.journal, w.core, |w.journal|)
    ensures MayPlan(p, w, e)
  {
  }

  lemma {:induction false} NextAdvances(p: Preparation, w: World)
    requires Reachable(p, w) && w.journal != [] && WellPrepared(p) && !Finished(w) && !Unresolved(w)
    requires !Stuck(p, w) && (w.state.Active? ==> Satisfied(p, w.journal[|w.journal| - 1]))
    requires |w.journal| < PlanLength(w.journal, w.core)
    ensures MayPlan(p, w, PlanEffect(p, w.journal, w.core, |w.journal|))
  {
    var e := PlanEffect(p, w.journal, w.core, |w.journal|);
    IdleIsCompleted(p, w);
    PlannedIsValid(p, w.journal, w.core, |w.journal|);
    if w.state.Active? {
      ActiveMayPlan(p, w, e);
    } else {
      DegradedMayPlan(p, w, e);
    }
  }

  lemma {:induction false} NegativeIsNotRemoved(p: Preparation, journal: seq<Action>)
    requires Invariant.Shape(p, journal, 0) && journal != [] && Negative(p, journal[|journal| - 1])
    ensures !RemoveSatisfied(p, journal)
    ensures journal[|journal| - 1].kind.ImagePull? || journal[|journal| - 1].kind.WorkloadStop? ||
            |journal| > Base(journal) + 1
  {
    Invariant.PlannedEffect(p, journal, 0, |journal| - 1);
    Safety.NegativeIsNotSatisfied(p, journal, 0, |journal| - 1);
  }

  lemma {:induction false} NegativeAdvances(p: Preparation, w: World)
    requires Reachable(p, w) && w.state.Active? && !Unresolved(w) && w.journal != []
    requires Negative(p, w.journal[|w.journal| - 1])
    ensures Step(p, w, Advance(p, w)) && !Stuck(p, Advance(p, w))
  {
    var last := w.journal[|w.journal| - 1];
    IdleIsCompleted(p, w);
    Journal(p, w);
    NegativeIsNotRemoved(p, w.journal);
    if last.kind.ImagePull? || last.kind.WorkloadStop? {
      assert FailStep(p, w, Advance(p, w));
    } else {
      assert DegradeStep(p, w, Advance(p, w));
    }
  }

  lemma {:induction false} LastIsRemove(p: Preparation, journal: seq<Action>)
    requires Invariant.Shape(p, journal, 0) && |journal| == PlanLength(journal, 0) &&
      Satisfied(p, journal[|journal| - 1])
    ensures RemoveSatisfied(p, journal)
  {
    Invariant.PlannedEffect(p, journal, 0, |journal| - 1);
  }

  /** All is on record as satisfied: the replacement runs, and only the commit is missing. */
  lemma {:induction false} ReplacedBeforeCommit(p: Preparation, w: World)
    requires Reachable(p, w) && w.state.Active? && !Unresolved(w)
    requires |w.journal| == PlanLength(w.journal, 0) && Satisfied(p, w.journal[|w.journal| - 1])
    ensures RemoveSatisfied(p, w.journal) && w.runtime.predecessor.None?
    ensures w.runtime.replacement.Some? && Effects.StartedMatches(p, w.runtime.replacement.value)
  {
    Journal(p, w);
    Progresses(p, w);
    LastIsRemove(p, w.journal);
    var rest := RestOrHeld(p, w);
    Safety.ReplacedAtRest(p, w.journal, w.runtime);
  }

  lemma {:induction false} CommitAdvances(p: Preparation, w: World)
    requires Reachable(p, w) && w.state.Active? && !Unresolved(w)
    requires |w.journal| == PlanLength(w.journal, 0) && Satisfied(p, w.journal[|w.journal| - 1])
    ensures Step(p, w, Advance(p, w)) && Finished(Advance(p, w))
  {
    IdleIsCompleted(p, w);
    ReplacedBeforeCommit(p, w);
    assert CommitStep(p, w, Advance(p, w));
  }

  lemma {:induction false} RestoredAdvances(p: Preparation, w: World)
    requires Reachable(p, w) && w.state.Degraded? && !Unresolved(w)
    requires |w.journal| == PlanLength(w.journal, w.core) && Satisfied(p, w.journal[|w.journal| - 1])
    ensures Step(p, w, Advance(p, w)) && Finished(Advance(p, w))
  {
    IdleIsCompleted(p, w);
    Journal(p, w);
    Progresses(p, w);
    var rest := RestOrHeld(p, w);
    Safety.RestoredAtRest(p, w.journal, w.core, w.runtime);
    assert RestoredStep(p, w, Advance(p, w));
  }

  lemma {:induction false} PlanIsNotExceeded(p: Preparation, w: World)
    requires Reachable(p, w)
    ensures |w.journal| <= PlanLength(w.journal, w.core) <= 9
    ensures w.state.Active? ==> w.core == 0
  {
    Journal(p, w);
  }

  /** A transaction with nothing unresolved plans its next action, settles a negative one, commits
      or is restored. */
  lemma {:induction false} IdleAdvances(p: Preparation, w: World)
    requires Reachable(p, w) && !Finished(w) && !Unresolved(w) && !Stuck(p, w)
    requires WellPrepared(p) && Obtainable(p, w)
    ensures Step(p, w, Advance(p, w)) && !Stuck(p, Advance(p, w))
  {
    var n := |w.journal|;
    IdleIsCompleted(p, w);
    PlanIsNotExceeded(p, w);
    if n == 0 {
      FirstAdvances(p, w);
    } else if w.state.Active? && Negative(p, w.journal[n - 1]) {
      NegativeAdvances(p, w);
    } else if n < PlanLength(w.journal, w.core) {
      NextAdvances(p, w);
      PlanAdvances(p, w, PlanEffect(p, w.journal, w.core, n));
    } else if w.state.Active? {
      CommitAdvances(p, w);
    } else {
      RestoredAdvances(p, w);
    }
  }

  lemma {:induction false} AdvanceDecreases(p: Preparation, w: World)
    requires !Finished(w)
    ensures
      var w' := Advance(p, w);
      Rank(w'.state) < Rank(w.state) ||
      (w'.state == w.state &&
       (|w'.journal| == |w.journal| + 1 ||
        (Unresolved(w) && w' == AdvanceAction(p, w) && |w'.journal| == |w.journal|)))
  {
  }

  lemma {:induction false} GoesOn(p: Preparation, w: World)
    requires Reachable(p, w) && !Finished(w) && !Stuck(p, w) && WellPrepared(p) && Obtainable(p, w)
    ensures
      var w' := Advance(p, w);
      Reaches(p, w, w') && Reachable(p, w') && !Stuck(p, w') &&
      (Unresolved(w) ==> Remaining(p, w') < Remaining(p, w))
  {
    if Unresolved(w) {
      ActionAdvances(p, w);
    } else {
      IdleAdvances(p, w);
    }
    Extends(p, w, Advance(p, w));
  }

  /** A transaction that is not stuck can be brought to an end from wherever it is. */
  lemma {:induction false} CanFinish(p: Preparation, w: World) returns (end: World)
    requires Reachable(p, w) && WellPrepared(p) && Obtainable(p, w) && !Stuck(p, w)
    ensures Reaches(p, w, end) && Finished(end)
    decreases Rank(w.state), 9 - |w.journal|, Remaining(p, w)
  {
    ReachesSelf(p, w);
    if Finished(w) {
      return w;
    }
    var w' := Advance(p, w);
    GoesOn(p, w);
    AdvanceDecreases(p, w);
    PlanIsNotExceeded(p, w');
    end := CanFinish(p, w');
    ReachesTransitive(p, w, w', end);
  }

  /** The transactions that can be brought to an end are exactly those that are not stuck. */
  lemma {:induction false} FinishableExactlyWhenNotStuck(p: Preparation, w: World)
    requires Reachable(p, w) && WellPrepared(p) && Obtainable(p, w)
    ensures (exists end: World :: Reaches(p, w, end) && Finished(end)) <==> !Stuck(p, w)
  {
    if Stuck(p, w) {
      forall end: World | Reaches(p, w, end)
        ensures !Finished(end)
      {
        StuckForEver(p, w, end);
      }
    } else {
      var end := CanFinish(p, w);
    }
  }

  // ---------- how a transaction gets stranded ----------

  /** Nothing has gone wrong so far. */
  predicate AllWell(p: Preparation, w: World) {
    w.state.Active? && (Idle(w) && w.journal != [] ==> Satisfied(p, w.journal[|w.journal| - 1]))
  }

  lemma {:induction false} ActionKeepsAllWell(p: Preparation, w: World)
    requires Reachable(p, w) && w.state.Active? && Unresolved(w) && Step(p, w, AdvanceAction(p, w))
    ensures AllWell(p, AdvanceAction(p, w))
  {
    var w' := AdvanceAction(p, w);
    ProbeOfLast(p, w);
    if !w.journal[|w.journal| - 1].state.Intent? &&
       Effects.Probe(p, LastEffect(w), [], w.runtime).value.postcondition.satisfied {
      SatisfiedIsComplete(p, LastEffect(w), w.runtime);
      assert CompleteStep(p, w, w');
      var verdict, a := CompletionRecords(p, w, w');
    }
  }

  lemma {:induction false} AdvanceKeepsAllWell(p: Preparation, w: World)
    requires Reachable(p, w) && AllWell(p, w) && WellPrepared(p) && Obtainable(p, w)
    requires |w.journal| < PlanLength(w.journal, 0) || Unresolved(w)
    ensures Step(p, w, Advance(p, w)) && AllWell(p, Advance(p, w))
    ensures Unresolved(w) ==> Remaining(p, Advance(p, w)) < Remaining(p, w)
  {
    if Unresolved(w) {
      ActionAdvances(p, w);
      ActionKeepsAllWell(p, w);
    } else {
      IdleAdvances(p, w);
      IdleKeepsAllWell(p, w);
    }
  }

  lemma {:induction false} IdleKeepsAllWell(p: Preparation, w: World)
    requires Reachable(p, w) && AllWell(p, w) && !Unresolved(w) && |w.journal| < PlanLength(w.journal, 0)
    ensures AllWell(p, Advance(p, w))
  {
    IdleIsCompleted(p, w);
  }

  /** With every operation succeeding, a run reaches the point where only the commit is missing. */
  lemma {:induction false} RunThrough(p: Preparation, w: World) returns (end: World)
    requires Reachable(p, w) && AllWell(p, w) && WellPrepared(p) && Obtainable(p, w)
    ensures Reaches(p, w, end) && Reachable(p, end) && AllWell(p, end) && !Unresolved(end)
    ensures |end.journal| == PlanLength(end.journal, 0)
    decreases 9 - |w.journal|, Remaining(p, w)
  {
    ReachesSelf(p, w);
    PlanIsNotExceeded(p, w);
    if !Unresolved(w) && |w.journal| == PlanLength(w.journal, 0) {
      return w;
    }
    var w' := Advance(p, w);
    AdvanceKeepsAllWell(p, w);
    Extends(p, w, w');
    AdvanceDecreases(p, w);
    PlanIsNotExceeded(p, w');
    end := RunThrough(p, w');
    ReachesTransitive(p, w, w', end);
  }

  /** A completed creation that cannot be verified strands a transaction that only has to commit. */
  lemma {:induction false} Strands(p: Preparation, before: World) returns (end: World)
    requires Reachable(p, before) && AllWell(p, before) && !Unresolved(before)
    requires |before.journal| == PlanLength(before.journal, 0)
    ensures Step(p, before, end) && end.state.Degraded? && Stuck(p, end)
    ensures end.runtime.predecessor.None? && end.runtime.replacement.Some?
  {
    IdleIsCompleted(p, before);
    ReplacedBeforeCommit(p, before);
    SettledAt(p, before, Base(before.journal) + 2);
    end := before.(state := Degraded, core := |before.journal|);
    assert DegradeStep(p, before, end);
  }

  /** Every upgrade can strand: a run stops after the removal was recorded and before the commit, and
      the next one cannot verify the completed creation. The transaction is then degraded with its
      replacement running, its predecessor gone, and no step left to take. */
  lemma {:induction false} EveryUpgradeCanStrand(p: Preparation, start: World) returns (end: World)
    requires Initial(p, start) && WellPrepared(p) && Obtainable(p, start)
    ensures Reaches(p, start, end) && end.state.Degraded? && Stuck(p, end)
    ensures end.runtime.predecessor.None? && end.runtime.replacement.Some?
  {
    ReachesSelf(p, start);
    var before := RunThrough(p, start);
    end := Strands(p, before);
    ReachesStep(p, start, before, end);
  }
}
