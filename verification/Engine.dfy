/** One transaction under its service lock, and the fenced execution of one runtime effect. Every
    operation on the journal or the runtime may fail; a write may also be durable and still be
    reported as failed, and an operation may take hold and still be reported as failed. A crash is
    a failure after which nothing else succeeds. What may fail is told apart by the surroundings of a
    process: only in healthy ones nothing does, and every operation does all it should. */
module Engine {
  import opened Effects
  import opened Protocol
  import opened Store
  import opened Values
  import Facts
  import Invariant
  import Workloads

  lemma {:induction false} ShapeIsConsecutive(p: Workloads.Preparation, journal: seq<Action>, core: nat)
    requires Invariant.Shape(p, journal, core)
    ensures Consecutive(journal)
  {
    forall i | 0 <= i < |journal|
      ensures journal[i].sequence == i + 1
    {
      assert Invariant.WellPlanned(p, journal, core, i);
    }
  }

  lemma {:induction false} ProbeIgnoresResponse(p: Workloads.Preparation, e: Effect, responseID: Text, r: Runtime)
    requires Probe(p, e, responseID, r).Some?
    ensures Probe(p, e, [], r) == Probe(p, e, responseID, r)
  {
  }

  lemma {:induction false} LastIsAccepted(p: Workloads.Preparation, w: World)
    requires Reachable(p, w) && w.journal != []
    ensures ValidEffect(p, LastEffect(w))
  {
    Facts.PlannedAt(p, w, |w.journal| - 1);
  }

  /** What every part of an effect's execution guarantees, whatever fails: the protocol made only
      its own steps, the actions before this one are as they were, and a reported postcondition is
      the one that the journal has recorded for this action. */
  ghost predicate Executed(
    p: Workloads.Preparation, before: World, now: World, sequence: int, e: Effect, postcondition: Option<Postcondition>)
  {
    Reaches(p, before, now) && Reachable(p, now) && now.state == before.state && now.core == before.core &&
    0 < sequence == |now.journal| && sequence - 1 <= |before.journal| <= sequence &&
    now.journal[..sequence - 1] == before.journal[..sequence - 1] && EffectOf(now.journal[sequence - 1]) == e &&
    (postcondition.Some? ==> Records(p, now.journal[sequence - 1], postcondition.value))
  }

  lemma {:induction false} ExecutedTransitive(
      p: Workloads.Preparation, before: World, middle: World, now: World, sequence: int, e: Effect,
      postcondition: Option<Postcondition>)
    requires Executed(p, before, middle, sequence, e, None) && Executed(p, middle, now, sequence, e, postcondition)
    ensures Executed(p, before, now, sequence, e, postcondition)
  {
    ReachesTransitive(p, before, middle, now);
  }

  /** A step on the runtime, or none, while the last action is in flight. */
  lemma {:induction false} FlightExecutes(p: Workloads.Preparation, before: World, now: World)
    requires Reachable(p, before) && |before.journal| > 0
    requires now == before || (Step(p, before, now) && now.journal == before.journal && now.state == before.state)
    requires now.core == before.core
    ensures Executed(p, before, now, |before.journal|, LastEffect(before), None)
  {
    Facts.Extends(p, before, now);
  }

  /** Marking leaves the operation due: it was never fired before. */
  lemma {:induction false} MarkExecutes(p: Workloads.Preparation, before: World, now: World)
    requires Reachable(p, before) && Unresolved(before)
    requires before.journal[|before.journal| - 1].state.Intent?
    requires now == before || MarkStep(p, before, now)
    ensures Executed(p, before, now, |before.journal|, LastEffect(before), None)
    ensures now != before ==>
      Uncertain(now) && LastEffect(now) == LastEffect(before) && Ready(p, LastEffect(now), now.runtime)
  {
    Facts.Extends(p, before, now);
    Facts.IntentIsDue(p, before);
  }

  lemma {:induction false} ReachableIsConsecutive(p: Workloads.Preparation, w: World)
    requires Reachable(p, w)
    ensures Consecutive(w.journal)
  {
    Facts.Journal(p, w);
    ShapeIsConsecutive(p, w.journal, w.core);
  }

  /** The store answers a due intent with the action in flight, or appends it. */
  lemma {:induction false} DueIsRecorded(p: Workloads.Preparation, w: World, intent: ActionIntent, e: Effect)
    requires DueIn(p, w, intent, e)
    ensures Recorded(w.journal, w.state, p.transaction, intent) ==
            Some(if intent.sequence == |w.journal| then w.journal else w.journal + [Planned(p, w, e)])
  {
    ReachableIsConsecutive(p, w);
    FindsConsecutive(w.journal, intent.sequence);
    assert intent.kind == KindOf(e) != NoKind;
  }

  lemma {:induction false} IntentExecutes(
      p: Workloads.Preparation, before: World, now: World, intent: ActionIntent, e: Effect)
    requires DueIn(p, before, intent, e) && now != before
    requires now == before.(journal := before.journal + [Planned(p, before, e)], holds := before.holds + [0])
    requires intent.sequence == |before.journal| + 1
    ensures Executed(p, before, now, intent.sequence, e, None)
    ensures Unresolved(now) && LastEffect(now) == e
    ensures Matches(now.journal[|before.journal|], p.transaction, intent)
  {
    assert PlansEffect(p, before, now, e);
    assert PlanStep(p, before, now);
    Facts.Extends(p, before, now);
    Invariant.EffectOfPlanned(p, now.journal[|before.journal|], intent.sequence, e);
    Facts.Journal(p, before);
  }

  /** What the store may have made of a due intent. */
  lemma {:induction false} IntentIsDue(
      p: Workloads.Preparation, before: World, now: World, intent: ActionIntent, e: Effect)
    requires DueIn(p, before, intent, e)
    requires
      now == before ||
      (intent.sequence == |before.journal| + 1 &&
       now == before.(journal := before.journal + [Planned(p, before, e)], holds := before.holds + [0]))
    ensures (now == before && |before.journal| != intent.sequence) || Executed(p, before, now, intent.sequence, e, None)
    ensures |now.journal| == intent.sequence ==>
      Unresolved(now) && LastEffect(now) == e && Matches(now.journal[intent.sequence - 1], p.transaction, intent)
  {
    if now != before {
      IntentExecutes(p, before, now, intent, e);
    } else if |before.journal| == intent.sequence {
      FlightExecutes(p, before, before);
    }
  }

  /** Recording a due intent finds it on record afterwards, and changes no more than that. */
  lemma {:induction false} DueIsFound(
      p: Workloads.Preparation, before: World, now: World, intent: ActionIntent, e: Effect)
    requires DueIn(p, before, intent, e)
    requires
      now == before ||
      (Recorded(before.journal, before.state, p.transaction, intent) == Some(now.journal) &&
       now == before.(
         journal := now.journal,
         holds := before.holds + seq(if |now.journal| > |before.journal| then 1 else 0, _ => 0)))
    ensures
      now == before ||
      (intent.sequence == |before.journal| + 1 &&
       now == before.(journal := before.journal + [Planned(p, before, e)], holds := before.holds + [0]))
    ensures Recorded(before.journal, before.state, p.transaction, intent) == Some(now.journal) ==>
      |now.journal| == intent.sequence
  {
    DueIsRecorded(p, before, intent, e);
    assert now.journal == before.journal ==> now.holds == before.holds;
  }

  lemma {:induction false} DueCanBeFound(p: Workloads.Preparation, w: World, intent: ActionIntent, e: Effect)
    requires DueIn(p, w, intent, e)
    ensures
      var table := Recorded(w.journal, w.state, p.transaction, intent);
      table.Some? && IndexOf(table.value, intent.sequence) == Some(intent.sequence - 1)
  {
    DueIsRecorded(p, w, intent, e);
    ReachableIsConsecutive(p, w);
    FindsConsecutive(Recorded(w.journal, w.state, p.transaction, intent).value, intent.sequence);
  }

  /** The intent is the next one the protocol may record, or the one it has in flight. */
  ghost predicate DueIn(p: Workloads.Preparation, w: World, intent: ActionIntent, e: Effect) {
    Reachable(p, w) && intent == IntentOf(p, intent.sequence, e) && ValidEffect(p, e) &&
    if intent.sequence == |w.journal| then
      Unresolved(w) && LastEffect(w) == e && Matches(w.journal[|w.journal| - 1], p.transaction, intent)
    else intent.sequence == |w.journal| + 1 && MayPlan(p, w, e)
  }

  lemma {:induction false} CompletionExecutes(
      p: Workloads.Preparation, before: World, now: World, postcondition: Postcondition)
    requires Reachable(p, before) && Uncertain(before)
    requires Probe(p, LastEffect(before), [], before.runtime) == Some(Observation(postcondition, false))
    requires now == before || now == Completing(before, postcondition.digest)
    ensures Executed(p, before, now, |before.journal|, LastEffect(before),
                     if now == before then None else Some(postcondition))
  {
    if now != before {
      assert CompleteStep(p, before, now);
      var verdict, a := Facts.CompletionRecords(p, before, now);
    }
    Facts.Extends(p, before, now);
  }

  /** A removal of the effect was begun and is not finished. */
  predicate Unfinished(p: Workloads.Preparation, e: Effect, r: Runtime) {
    Probe(p, e, [], r).Some? && Probe(p, e, [], r).value.incomplete
  }

  /** The operation of the last action has taken hold, or there was nothing to discard. */
  predicate HasTakenHold(w: World, e: Effect)
    requires 0 < |w.journal| == |w.holds|
  {
    w.holds[|w.journal| - 1] != 0 || (e.DiscardEffect? && w.runtime.replacement.None?)
  }

  /** What is owed when lease, journal and probes answer, whatever the operation did: the action is on
      record with the evidence that the runtime now shows, satisfied exactly when the operation has
      taken hold. Only a removal that was left half done stays open. */
  predicate Answered(
    p: Workloads.Preparation, now: World, sequence: int, e: Effect, result: Option<Postcondition>)
  {
    0 < sequence == |now.journal| == |now.holds| && Probe(p, e, [], now.runtime).Some? &&
    var last, observation := now.journal[sequence - 1], Probe(p, e, [], now.runtime).value;
    if observation.incomplete then result.None? && last.state.EffectOutcomeUnknown?
    else
      result == Some(observation.postcondition) && last.state.Completed? &&
      last.postcondition == Some(observation.postcondition.digest) &&
      (observation.postcondition.satisfied <==> HasTakenHold(now, e))
  }

  lemma {:induction false} CompletionAnswers(p: Workloads.Preparation, before: World, postcondition: Postcondition)
    requires Reachable(p, before) && Uncertain(before)
    requires Probe(p, LastEffect(before), [], before.runtime) == Some(Observation(postcondition, false))
    ensures Answered(p, Completing(before, postcondition.digest), |before.journal|, LastEffect(before),
                     Some(postcondition))
  {
    Facts.ProbeOfLast(p, before);
  }

  /** The answer of an operation names the workload that is there, if it names any. */
  predicate Truthful(responseID: Text, r: Runtime) {
    responseID == [] || (r.replacement.Some? ==> r.replacement.value.id == responseID)
  }

  lemma {:induction false} TruthfulIsIgnored(p: Workloads.Preparation, e: Effect, responseID: Text, r: Runtime)
    requires Probe(p, e, [], r).Some?
    ensures Truthful(responseID, r) ==> Probe(p, e, responseID, r) == Probe(p, e, [], r)
  {
  }

  /** An operation that does all it should is a step, and is seen done; with nothing to discard it is seen
      done already. */
  lemma {:induction false} FullyApplied(p: Workloads.Preparation, w: World)
    requires Reachable(p, w) && Uncertain(w) && Ready(p, LastEffect(w), w.runtime)
    ensures
      var e, n := LastEffect(w), |w.journal| - 1;
      var after := Facts.Outcome(p, e, w.runtime);
      if e.DiscardEffect? && w.runtime.replacement.None? then Done(p, e, [], w.runtime)
      else Done(p, e, [], after) && ApplyStep(p, w, w.(runtime := after, holds := w.holds[n := w.holds[n] + 1]))
  {
    LastIsAccepted(p, w);
    Facts.EffectedIsSeen(p, LastEffect(w), w.runtime);
    if !(LastEffect(w).DiscardEffect? && w.runtime.replacement.None?) {
      Facts.OutcomeTakesHold(p, LastEffect(w), w.runtime);
    }
  }

  /** A probe of the effect answers, and finds it done. */
  predicate Done(p: Workloads.Preparation, e: Effect, responseID: Text, r: Runtime) {
    var observation := Probe(p, e, responseID, r);
    observation.Some? && !observation.value.incomplete && observation.value.postcondition.satisfied
  }

  /** The effect of one action, with what its own calls have learned. */
  class RuntimeEffect {
    const effect: Effect
    var resumeNeeded: bool
    var responseID: Text

    constructor (effect: Effect)
      ensures this.effect == effect && !resumeNeeded && responseID == []
    {
      this.effect := effect;
      resumeNeeded := false;
      responseID := [];
    }
  }

  datatype Certainty = Always | Sometimes | Never

  /** Conditions around a process that no code can read: whether the lease is confirmed; the journal and
      local files answer; looks at the runtime are answered, and operations name what they have made;
      every operation does all it should; a removal found begun is finished when it is resumed. */
  datatype Surroundings = Surroundings(
    lease: Certainty, recording: bool, sight: Certainty, effective: bool, resuming: bool)

  const HEALTHY: Surroundings := Surroundings(Always, true, Always, true, true)

  class Mutation {
    const preparation: Workloads.Preparation
    const surroundings: Surroundings
    /** Lease, journal and local files answer. */
    const recording: bool := surroundings.lease.Always? && surroundings.recording
    /** So does the runtime when it is looked at. */
    const responsive: bool := recording && surroundings.sight.Always?
    const blind: bool := surroundings.sight.Never?
    const unleased: bool := surroundings.lease.Never?
    const healthy: bool := surroundings == HEALTHY
    var journal: seq<Action>
    var state: TransactionState
    var runtime: Runtime
    /** The writer lease was confirmed since the last runtime operation. */
    var fenced: bool
    ghost var holds: seq<nat>
    ghost var core: nat

    constructor (preparation: Workloads.Preparation, runtime: Runtime, surroundings: Surroundings)
      ensures this.preparation == preparation && this.runtime == runtime && this.surroundings == surroundings
      ensures journal == [] && state.Active? && holds == [] && core == 0 && !fenced
    {
      this.preparation, this.surroundings := preparation, surroundings;
      this.runtime := runtime;
      journal, state, fenced := [], Active, false;
      holds, core := [], 0;
    }

    /** A later process finds what an earlier one left: all of it is durable. */
    constructor Reopen(earlier: Mutation, surroundings: Surroundings)
      ensures preparation == earlier.preparation && Now() == earlier.Now() && !fenced
      ensures this.surroundings == surroundings
    {
      this.preparation, this.surroundings := earlier.preparation, surroundings;
      this.runtime, journal, state, fenced := earlier.runtime, earlier.journal, earlier.state, false;
      holds, core := earlier.holds, earlier.core;
    }

    ghost function Now(): World
      reads this
    {
      World(journal, state, runtime, holds, core)
    }

    ghost predicate Valid()
      reads this
    {
      Reachable(preparation, Now())
    }

    // ---------- the journal ----------

    method Fence() returns (ok: bool)
      modifies this`fenced
      ensures fenced == ok && (recording ==> ok) && (unleased ==> !ok)
    {
      ok := *;
      ok := (ok || recording) && !unleased;
      fenced := ok;
    }

    method RecordActionIntent(intent: ActionIntent) returns (action: Option<Action>)
      modifies this`journal, this`holds
      ensures
        || (journal == old(journal) && holds == old(holds))
        || (Recorded(old(journal), state, preparation.transaction, intent) == Some(journal) &&
            holds == old(holds) + seq(if |journal| > |old(journal)| then 1 else 0, _ => 0))
      ensures action.Some? ==>
        Recorded(old(journal), state, preparation.transaction, intent) == Some(journal) &&
        IndexOf(journal, intent.sequence).Some? &&
        action.value == journal[IndexOf(journal, intent.sequence).value]
      ensures recording && Finds(Recorded(old(journal), state, preparation.transaction, intent), intent.sequence) ==>
        action.Some?
    {
      var table := Recorded(journal, state, preparation.transaction, intent);
      var durable: bool := *;
      action := None;
      if (durable || recording) && table.Some? {
        holds := holds + seq(if |table.value| > |journal| then 1 else 0, _ => 0);
        journal := table.value;
        action := ReadAction(intent.sequence);
      }
    }

    /** The write was accepted, and the action is in the table. */
    predicate Finds(table: Option<seq<Action>>, sequence: int) {
      table.Some? && IndexOf(table.value, sequence).Some?
    }

    /** The read-back after a write; it may fail on its own. */
    method ReadAction(sequence: int) returns (action: Option<Action>)
      ensures action.Some? ==>
        IndexOf(journal, sequence).Some? && action.value == journal[IndexOf(journal, sequence).value]
      ensures recording && IndexOf(journal, sequence).Some? ==> action.Some?
    {
      var readable: bool := *;
      action := None;
      if (readable || recording) && IndexOf(journal, sequence).Some? {
        action := Some(journal[IndexOf(journal, sequence).value]);
      }
    }

    method MarkActionEffectOutcomeUnknown(sequence: int) returns (action: Option<Action>)
      modifies this`journal
      ensures journal == old(journal) || Marked(old(journal), state, sequence) == Some(journal)
      ensures action.Some? ==>
        Marked(old(journal), state, sequence) == Some(journal) &&
        IndexOf(journal, sequence).Some? && action.value == journal[IndexOf(journal, sequence).value]
      ensures recording && Finds(Marked(old(journal), state, sequence), sequence) ==> action.Some?
    {
      var table := Marked(journal, state, sequence);
      var durable: bool := *;
      action := None;
      if (durable || recording) && table.Some? {
        journal := table.value;
        action := ReadAction(sequence);
      }
    }

    method CompleteAction(sequence: int, digest: Evidence) returns (action: Option<Action>)
      modifies this`journal
      ensures journal == old(journal) || Resolved(old(journal), state, sequence, digest) == Some(journal)
      ensures action.Some? ==>
        Resolved(old(journal), state, sequence, digest) == Some(journal) &&
        IndexOf(journal, sequence).Some? && action.value == journal[IndexOf(journal, sequence).value]
      ensures recording && Finds(Resolved(old(journal), state, sequence, digest), sequence) ==> action.Some?
    {
      var table := Resolved(journal, state, sequence, digest);
      var durable: bool := *;
      action := None;
      if (durable || recording) && table.Some? {
        journal := table.value;
        action := ReadAction(sequence);
      }
    }

    method SetTransactionState(target: TransactionState) returns (ok: bool)
      modifies this`state, this`core
      ensures
        || (state == old(state) && core == old(core))
        || (Settles(journal, old(state), target) && state == target &&
            core == if target.Degraded? then |journal| else old(core))
      ensures ok ==> Settles(journal, old(state), target) && state == target
      ensures recording && Settles(journal, old(state), target) ==> ok
    {
      var durable: bool := *;
      ok := false;
      if (durable || recording) && Settles(journal, state, target) {
        state := target;
        core := if target.Degraded? then |journal| else core;
        ok := *;
        ok := ok || recording;
      }
    }

    /** Publishes the new baseline and the success of the transaction in one write. */
    method CommitAppliedService() returns (ok: bool)
      modifies this`state
      ensures state == old(state) || (old(state).Active? && AllCompleted(journal) && state == Succeeded)
      ensures ok ==> state == Succeeded
      ensures recording && old(state).Active? && AllCompleted(journal) ==> ok
    {
      var durable: bool := *;
      ok := state.Succeeded?;
      if (durable || recording) && state.Active? && AllCompleted(journal) {
        state := Succeeded;
        ok := *;
        ok := ok || recording;
      }
    }

    // ---------- the runtime ----------

    /** The action in flight is the last one, marked, and belongs to this effect. */
    ghost predicate InFlight(effect: RuntimeEffect, sequence: int)
      reads this
    {
      Valid() && Uncertain(Now()) && |journal| == sequence && LastEffect(Now()) == effect.effect
    }

    /** Fires the operation. The preconditions are proved at every call: the lease was confirmed
        for this very operation, the journal already says that its outcome is unknown, and the
        runtime is in a state in which the operation is due. */
    method Apply(effect: RuntimeEffect) returns (failed: bool)
      requires fenced && InFlight(effect, |journal|) && Ready(preparation, effect.effect, runtime)
      modifies this`runtime, this`fenced, this`holds, effect`responseID
      ensures !fenced
      ensures Now() == old(Now()) || ApplyStep(preparation, old(Now()), Now())
      ensures responsive ==> Truthful(effect.responseID, runtime)
      ensures surroundings.effective ==> SeenDone(effect)
    {
      fenced := false;
      if surroundings.effective {
        ApplyInFull(effect);
      } else {
        ApplySomehow(effect);
      }
      failed := *;
    }

    /** The operation takes hold or does not, and its answer names whatever it likes. */
    method ApplySomehow(effect: RuntimeEffect)
      requires InFlight(effect, |journal|) && Ready(preparation, effect.effect, runtime)
      modifies this`runtime, this`holds, effect`responseID
      ensures Now() == old(Now()) || ApplyStep(preparation, old(Now()), Now())
      ensures responsive ==> Truthful(effect.responseID, runtime)
    {
      var after: Runtime := *;
      if TakesHold(preparation, effect.effect, runtime, after) {
        runtime := after;
        holds := holds[|journal| - 1 := holds[|journal| - 1] + 1];
      }
      effect.responseID := *;
      if responsive && !Truthful(effect.responseID, runtime) {
        effect.responseID := [];
      }
    }

    /** The operation does all it should, and its answer names what it has made, if it names anything. */
    method ApplyInFull(effect: RuntimeEffect)
      requires InFlight(effect, |journal|) && Ready(preparation, effect.effect, runtime)
      modifies this`runtime, this`holds, effect`responseID
      ensures Now() == old(Now()) || ApplyStep(preparation, old(Now()), Now())
      ensures effect.responseID == [] && SeenDone(effect)
    {
      effect.responseID := [];
      FullyApplied(preparation, Now());
      if effect.effect.DiscardEffect? && runtime.replacement.None? {
        return;
      }
      runtime := Facts.Outcome(preparation, effect.effect, runtime);
      holds := holds[|journal| - 1 := holds[|journal| - 1] + 1];
    }

    ghost predicate SeenDone(effect: RuntimeEffect)
      reads this, effect
    {
      Done(preparation, effect.effect, effect.responseID, runtime)
    }

    method ResumeIncomplete(effect: RuntimeEffect) returns (failed: bool)
      requires fenced && InFlight(effect, |journal|)
      requires Probe(preparation, effect.effect, [], runtime).Some?
      requires Probe(preparation, effect.effect, [], runtime).value.incomplete
      modifies this`runtime, this`fenced
      ensures !fenced
      ensures Now() == old(Now()) || ResumeStep(preparation, old(Now()), Now())
      ensures runtime == old(runtime) || SeenDone(effect)
      ensures surroundings.resuming ==> SeenDone(effect)
    {
      var finishes: bool := *;
      fenced := false;
      if finishes || surroundings.resuming {
        runtime := runtime.(predecessor := None);
      }
      failed := *;
    }

    /** Reads the runtime; a verdict is truthful, and conflicting evidence gives none. */
    method ProbeEffect(effect: RuntimeEffect) returns (postcondition: Option<Postcondition>)
      modifies effect`resumeNeeded
      ensures postcondition.Some? ==>
        Probe(preparation, effect.effect, effect.responseID, runtime) ==
        Some(Observation(postcondition.value, effect.resumeNeeded))
      ensures responsive && Probe(preparation, effect.effect, effect.responseID, runtime).Some? ==>
        postcondition.Some?
      ensures blind ==> postcondition.None?
    {
      effect.resumeNeeded := false;
      var answers: bool := *;
      var observation := Probe(preparation, effect.effect, effect.responseID, runtime);
      if !(answers || responsive) || blind || observation.None? {
        return None;
      }
      effect.resumeNeeded := observation.value.incomplete;
      return Some(observation.value.postcondition);
    }

    // ---------- one effect ----------

    /** What an execution owes as far as its surroundings go along. */
    ghost predicate Owed(sequence: int, e: Effect, result: Option<Postcondition>)
      reads this
    {
      (responsive ==> Answered(preparation, Now(), sequence, e, result)) &&
      (responsive && surroundings.resuming ==> result.Some?) && (blind ==> result.None?)
    }

    lemma {:induction false} UnfinishedIsOwed(effect: RuntimeEffect, sequence: int)
      requires InFlight(effect, sequence)
      requires responsive ==> !surroundings.resuming && Unfinished(preparation, effect.effect, runtime)
      ensures Owed(sequence, effect.effect, None)
    {
    }

    /** Completes the action with the evidence of the probe that was just made. */
    method CompleteRuntimeEffect(effect: RuntimeEffect, sequence: int, postcondition: Postcondition)
      returns (result: Option<Postcondition>, failed: bool)
      requires InFlight(effect, sequence)
      requires Probe(preparation, effect.effect, [], runtime) == Some(Observation(postcondition, false))
      modifies this`journal
      ensures Executed(preparation, old(Now()), Now(), sequence, effect.effect, result)
      ensures failed <==> result.None? || !result.value.satisfied
      ensures responsive ==>
        result == Some(postcondition) && Answered(preparation, Now(), sequence, effect.effect, result)
    {
      ghost var before := Now();
      LastIsFound();
      var completed := CompleteAction(sequence, postcondition.digest);
      CompletionExecutes(preparation, before, Now(), postcondition);
      if Now() != before {
        CompletionAnswers(preparation, before, postcondition);
      }
      if completed.None? || !CompletedMatches(completed.value, sequence, postcondition.digest) {
        return None, true;
      }
      return Some(postcondition), !postcondition.satisfied;
    }

    /** Finishes a removal that the probe found begun; anything else passes through. */
    method ResumeRuntimeEffect(effect: RuntimeEffect, sequence: int, postcondition: Postcondition)
      returns (result: Option<Postcondition>)
      requires InFlight(effect, sequence) && !postcondition.satisfied
      requires Probe(preparation, effect.effect, [], runtime) == Some(Observation(postcondition, effect.resumeNeeded))
      modifies this`runtime, this`fenced, effect`resumeNeeded
      ensures Executed(preparation, old(Now()), Now(), sequence, effect.effect, None) && InFlight(effect, sequence)
      ensures result.Some? ==>
        Probe(preparation, effect.effect, [], runtime) == Some(Observation(result.value, false))
      ensures responsive ==> (result.None? <==> Unfinished(preparation, effect.effect, runtime))
      ensures responsive && surroundings.resuming ==> result.Some?
      ensures result.Some? && old(effect.resumeNeeded) ==> result.value.satisfied
    {
      ghost var before := Now();
      FlightExecutes(preparation, before, before);
      if !effect.resumeNeeded {
        return Some(postcondition);
      }
      var ok := Fence();
      if !ok {
        return None;
      }
      var resumeFailed := ResumeIncomplete(effect);
      FlightExecutes(preparation, before, Now());
      var resumed := ProbeEffect(effect);
      if resumed.None? || !resumed.value.satisfied {
        return None;
      }
      ProbeIgnoresResponse(preparation, effect.effect, effect.responseID, runtime);
      Facts.SatisfiedIsComplete(preparation, effect.effect, runtime);
      return resumed;
    }

    /** Probes after the operation was fired, resumes if need be, and completes the action. */
    method ProbeRuntimeEffect(effect: RuntimeEffect, sequence: int)
      returns (result: Option<Postcondition>, failed: bool)
      requires InFlight(effect, sequence) && (responsive ==> Truthful(effect.responseID, runtime))
      modifies this`journal, this`runtime, this`fenced, effect`resumeNeeded
      ensures Executed(preparation, old(Now()), Now(), sequence, effect.effect, result)
      ensures failed <==> result.None? || !result.value.satisfied
      ensures Owed(sequence, effect.effect, result)
      ensures healthy && old(SeenDone(effect)) ==> !failed
    {
      ghost var before := Now();
      FlightExecutes(preparation, before, before);
      Facts.ProbeOfLast(preparation, before);
      TruthfulIsIgnored(preparation, effect.effect, effect.responseID, runtime);
      var probed := ProbeEffect(effect);
      if probed.None? {
        return None, true;
      }
      ProbeIgnoresResponse(preparation, effect.effect, effect.responseID, runtime);
      var postcondition := probed.value;
      if !postcondition.satisfied {
        var resumed := ResumeRuntimeEffect(effect, sequence, postcondition);
        if resumed.None? {
          UnfinishedIsOwed(effect, sequence);
          return None, true;
        }
        postcondition := resumed.value;
      } else {
        Facts.SatisfiedIsComplete(preparation, effect.effect, runtime);
      }
      ghost var middle := Now();
      result, failed := CompleteRuntimeEffect(effect, sequence, postcondition);
      ExecutedTransitive(preparation, before, middle, Now(), sequence, effect.effect, result);
    }

    /** Fires the operation and probes it. */
    method Fire(effect: RuntimeEffect, sequence: int) returns (result: Option<Postcondition>, failed: bool)
      requires fenced && InFlight(effect, sequence) && Ready(preparation, effect.effect, runtime)
      modifies this`journal, this`runtime, this`fenced, this`holds, effect
      ensures Executed(preparation, old(Now()), Now(), sequence, effect.effect, result)
      ensures failed <==> result.None? || !result.value.satisfied
      ensures Owed(sequence, effect.effect, result)
      ensures healthy ==> !failed
    {
      ghost var before := Now();
      var effectFailed := Apply(effect);
      FlightExecutes(preparation, before, Now());
      ghost var fired := Now();
      result, failed := ProbeRuntimeEffect(effect, sequence);
      ExecutedTransitive(preparation, before, fired, Now(), sequence, effect.effect, result);
    }

    /** The first execution of an action: fence, mark, fire, probe. */
    method ApplyRuntimeEffect(intent: ActionIntent, effect: RuntimeEffect, action: Action)
      returns (result: Option<Postcondition>, failed: bool)
      requires Planning(effect, intent) && action == journal[|journal| - 1] && action.state.Intent?
      modifies this`journal, this`runtime, this`fenced, this`holds, effect
      ensures Executed(preparation, old(Now()), Now(), intent.sequence, effect.effect, result)
      ensures failed <==> result.None? || !result.value.satisfied
      ensures Owed(intent.sequence, effect.effect, result)
      ensures healthy ==> !failed
    {
      ghost var before := Now();
      FlightExecutes(preparation, before, before);
      LastIsFound();
      if !MatchesUnresolved(action, intent) {
        return None, true;
      }
      var ok := Fence();
      if !ok {
        return None, true;
      }
      LastIsFound();
      var marked := MarkActionEffectOutcomeUnknown(intent.sequence);
      MarkExecutes(preparation, before, Now());
      if marked.None? || !MatchesUnresolved(marked.value, intent) || !marked.value.state.EffectOutcomeUnknown? {
        return None, true;
      }
      ghost var middle := Now();
      result, failed := Fire(effect, intent.sequence);
      ExecutedTransitive(preparation, before, middle, Now(), intent.sequence, effect.effect, result);
    }

    /** The last action is unresolved and was planned as this intent of this effect. */
    ghost predicate Planning(effect: RuntimeEffect, intent: ActionIntent)
      reads this, effect
    {
      Valid() && Unresolved(Now()) && |journal| == intent.sequence && LastEffect(Now()) == effect.effect &&
      Matches(journal[|journal| - 1], preparation.transaction, intent) && effect.responseID == []
    }

    predicate MatchesUnresolved(a: Action, intent: ActionIntent) {
      Matches(a, preparation.transaction, intent) && a.postcondition.None?
    }

    lemma {:induction false} LastIsFound()
      requires Valid() && |journal| > 0
      ensures IndexOf(journal, |journal|) == Some(|journal| - 1)
      ensures journal[|journal| - 1].state.Completed? <==> journal[|journal| - 1].postcondition.Some?
      ensures journal[|journal| - 1].transaction == preparation.transaction
      ensures journal[|journal| - 1].sequence == |journal|
    {
      ReachableIsConsecutive(preparation, Now());
      FindsConsecutive(journal, |journal|);
      Facts.LastBelongs(preparation, Now());
    }

    /** A later run probes first, and fires again only when the operation has not taken hold. */
    method RecoverRuntimeEffect(sequence: int, effect: RuntimeEffect)
      returns (result: Option<Postcondition>, failed: bool)
      requires InFlight(effect, sequence) && effect.responseID == []
      modifies this`journal, this`runtime, this`fenced, this`holds, effect
      ensures Executed(preparation, old(Now()), Now(), sequence, effect.effect, result)
      ensures failed <==> result.None? || !result.value.satisfied
      ensures Owed(sequence, effect.effect, result)
      ensures healthy ==> !failed
    {
      ghost var before := Now();
      FlightExecutes(preparation, before, before);
      Facts.ProbeOfLast(preparation, before);
      var probed := ProbeEffect(effect);
      if probed.None? {
        return None, true;
      }
      var postcondition := probed.value;
      if postcondition.satisfied {
        Facts.SatisfiedIsComplete(preparation, effect.effect, runtime);
        result, failed := CompleteRuntimeEffect(effect, sequence, postcondition);
        return;
      }
      if effect.resumeNeeded {
        var resumed := ResumeRuntimeEffect(effect, sequence, postcondition);
        if resumed.None? {
          UnfinishedIsOwed(effect, sequence);
          return None, true;
        }
        ghost var middle := Now();
        result, failed := CompleteRuntimeEffect(effect, sequence, resumed.value);
        ExecutedTransitive(preparation, before, middle, Now(), sequence, effect.effect, result);
        return;
      }
      var ok := Fence();
      if !ok {
        return None, true;
      }
      Facts.UnsatisfiedIsDue(preparation, before);
      result, failed := Fire(effect, sequence);
    }

    /** Executes or recovers one effect under its recorded intent. */
    method RunRuntimeEffect(intent: ActionIntent, effect: RuntimeEffect)
      returns (result: Option<Postcondition>, failed: bool)
      requires DueIn(preparation, Now(), intent, effect.effect) && effect.responseID == []
      modifies this`journal, this`runtime, this`fenced, this`holds, effect
      ensures
        || (Now() == old(Now()) && result.None?)
        || Executed(preparation, old(Now()), Now(), intent.sequence, effect.effect, result)
      ensures failed <==> result.None? || !result.value.satisfied
      ensures Owed(intent.sequence, effect.effect, result)
      ensures healthy ==> !failed
    {
      ghost var before := Now();
      var action := RecordDueIntent(intent, effect);
      if action.None? {
        return None, true;
      }
      ghost var middle := Now();
      result, failed := ExecuteRecorded(intent, effect, action.value);
      ExecutedTransitive(preparation, before, middle, Now(), intent.sequence, effect.effect, result);
    }

    /** Records the intent, or finds it on record. */
    method RecordDueIntent(intent: ActionIntent, effect: RuntimeEffect) returns (action: Option<Action>)
      requires DueIn(preparation, Now(), intent, effect.effect) && effect.responseID == []
      modifies this`journal, this`holds
      ensures
        || (Now() == old(Now()) && action.None?)
        || Executed(preparation, old(Now()), Now(), intent.sequence, effect.effect, None)
      ensures action.Some? ==>
        Executed(preparation, old(Now()), Now(), intent.sequence, effect.effect, None) &&
        Planning(effect, intent) && action.value == journal[|journal| - 1]
      ensures responsive ==> action.Some?
    {
      ghost var before := Now();
      DueCanBeFound(preparation, before, intent, effect.effect);
      action := RecordActionIntent(intent);
      DueIsFound(preparation, before, Now(), intent, effect.effect);
      IntentIsDue(preparation, before, Now(), intent, effect.effect);
      if action.Some? {
        LastIsFound();
      }
    }

    /** Goes on from the state in which the action is on record. */
    method ExecuteRecorded(intent: ActionIntent, effect: RuntimeEffect, action: Action)
      returns (result: Option<Postcondition>, failed: bool)
      requires Planning(effect, intent) && action == journal[|journal| - 1]
      modifies this`journal, this`runtime, this`fenced, this`holds, effect
      ensures Executed(preparation, old(Now()), Now(), intent.sequence, effect.effect, result)
      ensures failed <==> result.None? || !result.value.satisfied
      ensures Owed(intent.sequence, effect.effect, result)
      ensures healthy ==> !failed
    {
      ghost var before := Now();
      FlightExecutes(preparation, before, before);
      LastIsFound();
      match action.state {
        case Intent =>
          result, failed := ApplyRuntimeEffect(intent, effect, action);
        case EffectOutcomeUnknown =>
          if !MatchesUnresolved(action, intent) {
            return None, true;
          }
          result, failed := RecoverRuntimeEffect(intent.sequence, effect);
        case Completed =>
          return None, true;
      }
    }

    predicate CompletedMatches(a: Action, sequence: int, digest: Evidence) {
      a.transaction == preparation.transaction && a.sequence == sequence && a.state.Completed? &&
      a.postcondition == Some(digest)
    }
  }

  /** The action is on record as resolved by this postcondition. */
  predicate Records(p: Workloads.Preparation, a: Action, postcondition: Postcondition) {
    a.state.Completed? && a.postcondition == Some(postcondition.digest) &&
    if postcondition.satisfied then Satisfied(p, a) && !Negative(p, a) else Negative(p, a) && !Satisfied(p, a)
  }
}
