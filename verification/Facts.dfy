/** What the invariant says of a reachable world, one fact at a time. */
module Facts {
  import opened Effects
  import opened Protocol
  import opened Values
  import Invariant
  import Preservation
  import Workloads

  /** One more step, or none, from a reachable world. */
  lemma {:induction false} Extends(p: Workloads.Preparation, before: World, now: World)
    requires Reachable(p, before) && (now == before || Step(p, before, now))
    ensures Reachable(p, now) && Reaches(p, before, now)
  {
    ReachesSelf(p, before);
    if now != before {
      var start: World :| Initial(p, start) && Reaches(p, start, before);
      ReachesStep(p, start, before, now);
      ReachesStep(p, before, before, now);
    }
  }

  lemma {:induction false} Journal(p: Workloads.Preparation, w: World)
    requires Reachable(p, w)
    ensures |w.holds| == |w.journal| && Invariant.Shape(p, w.journal, w.core)
    ensures Invariant.StateAgrees(p, w)
  {
    Preservation.ReachableInvariant(p, w);
  }

  lemma {:induction false} Progresses(p: Workloads.Preparation, w: World)
    requires Reachable(p, w)
    ensures Invariant.Progress(p, w.journal, w.core)
  {
    Preservation.ReachableInvariant(p, w);
  }

  lemma {:induction false} PlannedAt(p: Workloads.Preparation, w: World, i: nat)
    requires Reachable(p, w) && i < |w.journal|
    ensures EffectOf(w.journal[i]) == PlanEffect(p, w.journal, w.core, i)
    ensures w.journal[i].kind == KindOf(EffectOf(w.journal[i]))
    ensures ValidEffect(p, EffectOf(w.journal[i])) && ValidState(w.journal[i])
    ensures i < PlanLength(w.journal, w.core) && Invariant.InPlace(w.journal, w.core)
  {
    Journal(p, w);
    Invariant.PlannedEffect(p, w.journal, w.core, i);
  }

  /** The last action belongs to this transaction and is numbered by its place. */
  lemma {:induction false} LastBelongs(p: Workloads.Preparation, w: World)
    requires Reachable(p, w) && w.journal != []
    ensures
      var last := w.journal[|w.journal| - 1];
      last.transaction == p.transaction && last.sequence == |w.journal| && ValidState(last)
  {
    Journal(p, w);
    assert Invariant.WellPlanned(p, w.journal, w.core, |w.journal| - 1);
  }

  /** Completed evidence is satisfied or negative, never both. */
  lemma {:induction false} SettledAt(p: Workloads.Preparation, w: World, i: nat)
    requires Reachable(p, w) && i < |w.journal| && w.journal[i].state.Completed?
    ensures Satisfied(p, w.journal[i]) <==> !Negative(p, w.journal[i])
    ensures Negative(p, w.journal[i]) ==> i + 1 == |w.journal| || i + 1 == w.core
  {
    PlannedAt(p, w, i);
    Progresses(p, w);
    Preservation.EvidenceIsExclusive(p, EffectOf(w.journal[i]), w.journal[i].postcondition.value);
  }

  /** Only the last action can be unresolved. */
  lemma {:induction false} CompletedBehind(p: Workloads.Preparation, w: World)
    requires Reachable(p, w)
    requires w.journal == [] || w.journal[|w.journal| - 1].state.Completed?
    ensures AllCompleted(w.journal)
  {
    Progresses(p, w);
    Journal(p, w);
  }

  lemma {:induction false} RestOrHeld(p: Workloads.Preparation, w: World) returns (rest: bool)
    requires Reachable(p, w)
    ensures w.core <= SettledLength(w.journal) <= |w.journal|
    ensures rest ==> Invariant.AtRest(p, w.journal, SettledLength(w.journal), w.runtime)
    ensures !rest ==> w.core < |w.journal| && Invariant.Held(p, w.journal, |w.journal| - 1, w.runtime)
    ensures !rest ==> w.journal[|w.journal| - 1].state.EffectOutcomeUnknown?
    ensures SettledLength(w.journal) == |w.journal| ==> rest
  {
    Preservation.ReachableInvariant(p, w);
    rest := RestOrHeldIn(p, w);
  }

  lemma {:induction false} RestOrHeldIn(p: Workloads.Preparation, w: World) returns (rest: bool)
    requires Invariant.Inv(p, w)
    ensures w.core <= SettledLength(w.journal) <= |w.journal|
    ensures rest ==> Invariant.AtRest(p, w.journal, SettledLength(w.journal), w.runtime)
    ensures !rest ==> w.core < |w.journal| && Invariant.Held(p, w.journal, |w.journal| - 1, w.runtime)
    ensures !rest ==> w.journal[|w.journal| - 1].state.EffectOutcomeUnknown?
    ensures SettledLength(w.journal) == |w.journal| ==> rest
  {
    rest := RestOrHeldOf(p, w.journal, w.core, w.holds, w.runtime);
  }

  lemma {:induction false} RestOrHeldOf(
      p: Workloads.Preparation, journal: seq<Action>, core: nat, holds: seq<nat>, r: Runtime) returns (rest: bool)
    requires Invariant.InPlace(journal, core) && Invariant.CoreAgrees(p, journal, core)
    requires |holds| == |journal| && Invariant.HoldsAgree(p, journal, holds)
    requires Invariant.RuntimeAgrees(p, journal, holds, r)
    ensures core <= SettledLength(journal) <= |journal|
    ensures rest ==> Invariant.AtRest(p, journal, SettledLength(journal), r)
    ensures !rest ==> core < |journal| && Invariant.Held(p, journal, |journal| - 1, r)
    ensures !rest ==> journal[|journal| - 1].state.EffectOutcomeUnknown?
    ensures SettledLength(journal) == |journal| ==> rest
  {
    var n := |journal| - 1;
    rest := journal == [] || journal[n].state.Completed? || holds[n] == 0;
  }

  /** The last action that has not been resolved, if any, counts as not yet settled. */
  function SettledLength(journal: seq<Action>): nat {
    if journal != [] && !journal[|journal| - 1].state.Completed? then |journal| - 1 else |journal|
  }

  /** The probe of the last action, told apart by whether its operation has taken hold. */
  lemma {:induction false} ProbeOfLast(p: Workloads.Preparation, w: World)
    requires Reachable(p, w) && Unresolved(w)
    ensures Preservation.Tells(p, LastEffect(w), w.runtime, w.holds[|w.journal| - 1] != 0)
  {
    Preservation.ReachableInvariant(p, w);
    Preservation.ProbeTells(p, w);
  }

  lemma {:induction false} SatisfiedIsComplete(p: Workloads.Preparation, e: Effect, r: Runtime)
    requires Probe(p, e, [], r).Some? && Probe(p, e, [], r).value.postcondition.satisfied
    ensures !Probe(p, e, [], r).value.incomplete
  {
  }

  /** An operation that its probe found undone is due. */
  lemma {:induction false} UnsatisfiedIsDue(p: Workloads.Preparation, w: World)
    requires Reachable(p, w) && Uncertain(w)
    requires Probe(p, LastEffect(w), [], w.runtime).Some?
    requires !Probe(p, LastEffect(w), [], w.runtime).value.incomplete
    requires !Probe(p, LastEffect(w), [], w.runtime).value.postcondition.satisfied
    ensures Ready(p, LastEffect(w), w.runtime)
  {
    ProbeOfLast(p, w);
    Preservation.ReachableInvariant(p, w);
    Preservation.ReadyAtRest(p, w);
  }

  /** So is one that was never fired. */
  lemma {:induction false} IntentIsDue(p: Workloads.Preparation, w: World)
    requires Reachable(p, w) && Unresolved(w) && w.journal[|w.journal| - 1].state.Intent?
    ensures Ready(p, LastEffect(w), w.runtime)
  {
    Preservation.ReachableInvariant(p, w);
    assert w.holds[|w.journal| - 1] == 0;
    Preservation.ReadyAtRest(p, w);
  }

  /** Once a degraded transaction has begun its restore, no removal is on record. */
  lemma {:induction false} RestoreIsNotRemoved(p: Workloads.Preparation, w: World)
    requires Reachable(p, w) && w.state.Degraded? && w.core < |w.journal|
    ensures !RemoveSatisfied(p, w.journal)
  {
    Journal(p, w);
    Progresses(p, w);
  }

  /** What completing the last action records. */
  lemma {:induction false} CompletionRecords(p: Workloads.Preparation, w: World, w': World)
    returns (verdict: Postcondition, a: Action)
    requires Reachable(p, w) && CompleteStep(p, w, w')
    ensures Preservation.Verdict(p, w, w', verdict, a)
  {
    Preservation.ReachableInvariant(p, w);
    verdict, a := Preservation.CompleteRecordsVerdict(p, w, w');
  }

  /** What an operation leaves behind when it does all it should. */
  function Outcome(p: Workloads.Preparation, e: Effect, r: Runtime): Runtime {
    match e
    case PullEffect => r.(image := true)
    case TransitionEffect(t) => r.(predecessor := if t.kind.Remove? then None else Some(t.after))
    case CreateEffect =>
      r.(replacement :=
        Some(Container([1], p.workload.container, 1, 0, true, true, Workloads.Created, ReplacementOwnership(p))))
    case StartEffect =>
      if r.replacement.None? then r else r.(replacement := Some(r.replacement.value.(lifecycle := Workloads.Running)))
    case DiscardEffect => r.(replacement := None)
  }

  lemma {:induction false} OutcomeTakesHold(p: Workloads.Preparation, e: Effect, r: Runtime)
    requires Ready(p, e, r) && (e.DiscardEffect? ==> r.replacement.Some?)
    ensures TakesHold(p, e, r, Outcome(p, e, r))
  {
  }

  lemma {:induction false} OutcomeIsSeen(p: Workloads.Preparation, e: Effect, r: Runtime)
    requires Ready(p, e, r) && ValidEffect(p, e)
    ensures
      var observation := Probe(p, e, [], Outcome(p, e, r));
      observation.Some? && !observation.value.incomplete && observation.value.postcondition.satisfied
  {
  }

  /** A discard that finds nothing is seen as done. */
  lemma {:induction false} NothingToDiscardIsSeen(p: Workloads.Preparation, r: Runtime)
    requires Ready(p, DiscardEffect, r) && r.replacement.None?
    ensures
      var observation := Probe(p, DiscardEffect, [], r);
      observation.Some? && !observation.value.incomplete && observation.value.postcondition.satisfied
  {
  }

  /** What an operation leaves behind in full: its outcome, or nothing when there was nothing to discard. */
  function Effected(p: Workloads.Preparation, e: Effect, r: Runtime): Runtime {
    if e.DiscardEffect? && r.replacement.None? then r else Outcome(p, e, r)
  }

  lemma {:induction false} EffectedIsSeen(p: Workloads.Preparation, e: Effect, r: Runtime)
    requires Ready(p, e, r) && ValidEffect(p, e)
    ensures TakesHold(p, e, r, Effected(p, e, r)) || Effected(p, e, r) == r
    ensures
      var observation := Probe(p, e, [], Effected(p, e, r));
      observation.Some? && !observation.value.incomplete && observation.value.postcondition.satisfied
  {
    if e.DiscardEffect? && r.replacement.None? {
      NothingToDiscardIsSeen(p, r);
    } else {
      OutcomeTakesHold(p, e, r);
      OutcomeIsSeen(p, e, r);
    }
  }
}
