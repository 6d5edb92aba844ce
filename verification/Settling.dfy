/** Settling one planned action in a run: replaying what is on record, executing what is not. */
module Settling {
  import opened Protocol
  import opened Values
  import Effects
  import Engine
  import Facts
  import Invariant
  import Preservation
  import Store
  import Workloads

  /** The run has come to action `sequence`, planned for effect e: either it is on record, as the
      run's copy of the journal shows it, or it is the next one to be recorded. */
  ghost predicate Positioned(
    p: Workloads.Preparation, w: World, action: Option<Action>, sequence: int, e: Effects.Effect)
  {
    Reachable(p, w) && Store.Writable(w.state) && sequence > w.core &&
    if action.Some? then
      0 < sequence <= |w.journal| && action.value == w.journal[sequence - 1] &&
      e == PlanEffect(p, w.journal, w.core, sequence - 1)
    else sequence == |w.journal| + 1 && (Effects.ValidEffect(p, e) ==> MayPlan(p, w, e))
  }

  lemma {:induction false} PositionedMatches(
      p: Workloads.Preparation, w: World, action: Option<Action>, sequence: int, e: Effects.Effect)
    requires Positioned(p, w, action, sequence, e) && action.Some?
    ensures Matches(action.value, p.transaction, IntentOf(p, sequence, e)) && EffectOf(action.value) == e
    ensures Effects.ValidEffect(p, e) && ValidState(action.value)
  {
    Facts.Journal(p, w);
    Facts.Progresses(p, w);
    assert Invariant.WellPlanned(p, w.journal, w.core, sequence - 1);
    Invariant.EffectOfPlanned(p, action.value, sequence, e);
  }

  lemma {:induction false} PositionedIsDue(
      p: Workloads.Preparation, w: World, action: Option<Action>, sequence: int, e: Effects.Effect)
    requires Positioned(p, w, action, sequence, e) && Effects.ValidEffect(p, e)
    requires action.Some? ==> !action.value.state.Completed?
    ensures Engine.DueIn(p, w, IntentOf(p, sequence, e), e)
  {
    Facts.Journal(p, w);
    Facts.Progresses(p, w);
    if action.Some? {
      PositionedMatches(p, w, action, sequence, e);
      assert sequence == |w.journal|;
    }
  }

  /** A completed action is satisfied, or it is negative and the last one. */
  lemma {:induction false} ReplayIsSettled(
      p: Workloads.Preparation, w: World, action: Option<Action>, sequence: int, e: Effects.Effect)
    requires Positioned(p, w, action, sequence, e) && action.Some? && action.value.state.Completed?
    ensures action.value.postcondition.Some?
    ensures Satisfied(p, action.value) <==> !Negative(p, action.value)
    ensures Negative(p, action.value) ==> sequence == |w.journal|
  {
    Facts.Journal(p, w);
    Facts.Progresses(p, w);
    PositionedMatches(p, w, action, sequence, e);
    Preservation.EvidenceIsExclusive(p, e, action.value.postcondition.value);
  }

  /** What settling an action leaves behind: only steps of the protocol; a satisfied verdict is on
      record for this very effect with nothing before it changed, a negative one is the last word. */
  ghost predicate SettledAs(
    p: Workloads.Preparation, before: World, now: World, sequence: int, e: Effects.Effect, satisfied: bool,
    resolved: bool)
  {
    Reaches(p, before, now) && Reachable(p, now) && now.state == before.state && now.core == before.core &&
    (satisfied || resolved ==>
      0 < sequence <= |now.journal| && sequence - 1 <= |before.journal| <= |now.journal| &&
      EffectOf(now.journal[sequence - 1]) == e &&
      now.journal[..sequence - 1] == before.journal[..sequence - 1] &&
      (now.journal == before.journal || |now.journal| == sequence)) &&
    (satisfied ==> Satisfied(p, now.journal[sequence - 1])) &&
    (resolved && !satisfied ==> sequence == |now.journal| && Negative(p, now.journal[sequence - 1]))
  }

  /** Runs one effect through the journal, after the checks it makes on its own arguments. */
  method RunEffect(mutation: Engine.Mutation, action: Option<Action>, sequence: int, e: Effects.Effect)
    returns (result: Option<Effects.Postcondition>, failed: bool)
    requires Positioned(mutation.preparation, mutation.Now(), action, sequence, e)
    requires action.Some? ==> !action.value.state.Completed?
    modifies mutation
    ensures SettledAs(mutation.preparation, old(mutation.Now()), mutation.Now(), sequence, e,
                      result.Some? && result.value.satisfied, result.Some?)
    ensures failed <==> result.None? || !result.value.satisfied
    ensures Effects.ValidEffect(mutation.preparation, e) ==> mutation.Owed(sequence, e, result)
    ensures mutation.healthy && Effects.ValidEffect(mutation.preparation, e) ==> !failed
  {
    var p := mutation.preparation;
    ghost var before := mutation.Now();
    ReachesSelf(p, before);
    if sequence <= 0 || !Effects.ValidEffect(p, e) {
      return None, true;
    }
    PositionedIsDue(p, before, action, sequence, e);
    var effect := new Engine.RuntimeEffect(e);
    result, failed := mutation.RunRuntimeEffect(IntentOf(p, sequence, e), effect);
  }

  /** The predecessor is half removed. */
  predicate HalfRemoved(r: Effects.Runtime) {
    r.predecessor.Some? && r.predecessor.value.lifecycle.Removing?
  }

  predicate IsRemoval(e: Effects.Effect) {
    e.TransitionEffect? && e.transition.kind.Remove?
  }

  /** A removal is left half done, because the runtime did not finish it when it was resumed. */
  ghost predicate LeftHalf(mutation: Engine.Mutation)
    reads mutation
  {
    HalfRemoved(mutation.runtime) && !mutation.surroundings.resuming
  }

  /** What settling an acceptable effect owes: a verdict while lease, journal and probes answer, unless
      a removal is left half done; and when nothing fails, a satisfied one, unless a negative one was
      on record already. */
  ghost predicate Promised(
    mutation: Engine.Mutation, action: Option<Action>, e: Effects.Effect, satisfied: bool, resolved: bool)
    reads mutation
  {
    Effects.ValidEffect(mutation.preparation, e) ==>
      (mutation.responsive ==> satisfied || resolved || (IsRemoval(e) && LeftHalf(mutation))) &&
      (mutation.healthy ==> satisfied || (action.Some? && Negative(mutation.preparation, action.value)))
  }

  /** With lease, journal and probes answering, an effect stays open only over a half removal. */
  lemma {:induction false} OwedIsResolved(
      mutation: Engine.Mutation, sequence: int, e: Effects.Effect, result: Option<Effects.Postcondition>)
    requires mutation.Owed(sequence, e, result)
    ensures mutation.responsive ==> result.Some? || (IsRemoval(e) && LeftHalf(mutation))
  {
  }

  /** The recorded verdict on a transition; None when the evidence is neither of the two possible. */
  function CompletedTransitionResult(a: Action, t: Workloads.Transition): Option<bool> {
    if a.postcondition.None? then None
    else if a.postcondition.value == Effects.TransitionPostcondition(t, true).digest then Some(true)
    else if a.postcondition.value == Effects.TransitionPostcondition(t, false).digest then Some(false)
    else None
  }

  lemma {:induction false} TransitionReplays(
      p: Workloads.Preparation, w: World, action: Option<Action>, sequence: int, t: Workloads.Transition)
    requires Positioned(p, w, action, sequence, Effects.TransitionEffect(t))
    requires action.Some? && action.value.state.Completed?
    ensures CompletedTransitionResult(action.value, t) == Some(Satisfied(p, action.value))
  {
    PositionedMatches(p, w, action, sequence, Effects.TransitionEffect(t));
    ReplayIsSettled(p, w, action, sequence, Effects.TransitionEffect(t));
  }

  method SettleUpgradeTransition(
      mutation: Engine.Mutation, action: Option<Action>, sequence: int, t: Workloads.Transition)
    returns (satisfied: bool, resolved: bool, failed: bool)
    requires Positioned(mutation.preparation, mutation.Now(), action, sequence, Effects.TransitionEffect(t))
    modifies mutation
    ensures SettledAs(mutation.preparation, old(mutation.Now()), mutation.Now(), sequence,
                      Effects.TransitionEffect(t), satisfied, resolved)
    ensures !satisfied ==> failed || resolved
    ensures failed ==> !satisfied
    ensures Promised(mutation, action, Effects.TransitionEffect(t), satisfied, resolved)
    ensures action.Some? && Satisfied(mutation.preparation, action.value) ==>
      satisfied && mutation.Now() == old(mutation.Now())
  {
    var p := mutation.preparation;
    ghost var before := mutation.Now();
    ReachesSelf(p, before);
    if action.Some? {
      PositionedMatches(p, before, action, sequence, Effects.TransitionEffect(t));
      if !Matches(action.value, p.transaction, IntentOf(p, sequence, Effects.TransitionEffect(t))) {
        return false, false, true;
      }
      if action.value.state.Completed? {
        TransitionReplays(p, before, action, sequence, t);
        ReplayIsSettled(p, before, action, sequence, Effects.TransitionEffect(t));
        var verdict := CompletedTransitionResult(action.value, t);
        return verdict == Some(true), verdict.Some?, verdict.None?;
      }
    }
    var result, effectFailed := RunEffect(mutation, action, sequence, Effects.TransitionEffect(t));
    if Effects.ValidEffect(p, Effects.TransitionEffect(t)) {
      OwedIsResolved(mutation, sequence, Effects.TransitionEffect(t), result);
    }
    return result.Some? && result.value.satisfied, result.Some?, effectFailed;
  }
}
