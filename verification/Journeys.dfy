/** Which journals a restore accepts, whatever they hold, and what it makes of them. */
module Journeys {
  import opened Protocol
  import opened Restore
  import opened Values
  import opened Workloads
  import Effects
  import Settling

  /** What the upgrade plans for action i of a journal that begins like this one. */
  function CoreEffect(p: Preparation, actions: seq<Action>, i: nat): Effects.Effect {
    UpgradeEffect(p, WithImage(actions), i)
  }

  /** The first actions carry the kinds of the upgrade, and no more do. */
  predicate CoreEndsAt(p: Preparation, actions: seq<Action>, core: nat) {
    core <= |actions| && core <= Base(actions) + 5 &&
    (forall i | 0 <= i < core :: actions[i].kind == Effects.KindOf(CoreEffect(p, actions, i))) &&
    (core < |actions| && core < Base(actions) + 5 ==>
       actions[core].kind != Effects.KindOf(CoreEffect(p, actions, core)))
  }

  /** They are completed, and planned exactly as the upgrade plans them. */
  predicate CoreIsPlanned(p: Preparation, actions: seq<Action>, core: nat)
    requires core <= |actions|
  {
    forall i | 0 <= i < core ::
      actions[i].state.Completed? && Matches(actions[i], p.transaction, IntentOf(p, i + 1, CoreEffect(p, actions, i)))
  }

  predicate Created(actions: seq<Action>, core: nat) {
    core > Base(actions) + 2
  }

  predicate Renamed(p: Preparation, actions: seq<Action>, core: nat) {
    Base(actions) + 1 < core <= |actions| && Shows(actions[Base(actions) + 1], NewUpgradeJourney(p).rename, true)
  }

  /** The evidence on record says that the transition was made, or that it was not. */
  predicate Shows(a: Action, t: Transition, made: bool) {
    a.postcondition == Some(Effects.TransitionPostcondition(t, made).digest)
  }

  /** The stop was made, the rename has a verdict, nothing was created under a name that was not free, and
      the predecessor was not removed. */
  predicate CoreCanBeUndone(p: Preparation, actions: seq<Action>, core: nat)
    requires core <= |actions|
  {
    var base, journey := Base(actions), NewUpgradeJourney(p);
    core > base && Shows(actions[base], journey.stop, true) &&
    (core > base + 1 ==>
       Shows(actions[base + 1], journey.rename, true) || Shows(actions[base + 1], journey.rename, false)) &&
    (Created(actions, core) ==> Renamed(p, actions, core)) &&
    (core > base + 4 ==> Shows(actions[base + 4], journey.remove, false))
  }

  /** Discard what was created, take the name back if it was taken away, and restart. */
  function Undoing(p: Preparation, created: bool, renamed: bool): seq<Effects.Effect> {
    (if created then [Effects.DiscardEffect] else []) +
    (if renamed then [Effects.TransitionEffect(ReverseRename(p))] else []) +
    [Effects.TransitionEffect(RestoreStartTransition(p))]
  }

  /** What follows the upgrade part are the first actions of undoing it, numbered on. */
  predicate RestIsUndoing(p: Preparation, actions: seq<Action>, core: nat)
    requires core <= |actions|
  {
    var undoing := Undoing(p, Created(actions, core), Renamed(p, actions, core));
    |actions| - core <= |undoing| &&
    forall i | 0 <= i < |actions| - core ::
      Matches(actions[core + i], p.transaction, IntentOf(p, core + i + 1, undoing[i]))
  }

  ghost predicate Restorable(p: Preparation, actions: seq<Action>, core: nat) {
    0 < core && CoreEndsAt(p, actions, core) && CoreIsPlanned(p, actions, core) &&
    CoreCanBeUndone(p, actions, core) && RestIsUndoing(p, actions, core)
  }

  // ---------- the upgrade part ----------

  lemma {:induction false} IntentKinds(p: Preparation, actions: seq<Action>, i: nat)
    requires i < Base(actions) + 5
    ensures |UpgradeCoreIntents(p, actions)| == Base(actions) + 5
    ensures UpgradeCoreIntents(p, actions)[i].kind == Effects.KindOf(CoreEffect(p, actions, i))
  {
  }

  lemma {:induction false} EndIsCounted(p: Preparation, actions: seq<Action>, core: nat)
    requires CoreEndsAt(p, actions, core)
    ensures CoreCount(actions, UpgradeCoreIntents(p, actions), 0) == core
  {
    var intents := UpgradeCoreIntents(p, actions);
    IntentKinds(p, actions, 0);
    forall i | 0 <= i < core
      ensures actions[i].kind == intents[i].kind
    {
      IntentKinds(p, actions, i);
    }
    if core < |intents| {
      IntentKinds(p, actions, core);
    }
    CountsUpTo(actions, intents, 0, core);
  }

  lemma {:induction false} CountIsEnd(p: Preparation, actions: seq<Action>)
    ensures CoreEndsAt(p, actions, CoreCount(actions, UpgradeCoreIntents(p, actions), 0))
  {
    var intents := UpgradeCoreIntents(p, actions);
    IntentKinds(p, actions, 0);
    CountEnds(actions, intents, 0);
    var core := CoreCount(actions, intents, 0);
    forall i | 0 <= i < core
      ensures actions[i].kind == Effects.KindOf(CoreEffect(p, actions, i))
    {
      IntentKinds(p, actions, i);
    }
    if core < |intents| {
      IntentKinds(p, actions, core);
    }
  }

  lemma {:induction false} CountIsExact(p: Preparation, actions: seq<Action>, core: nat)
    ensures CoreCount(actions, UpgradeCoreIntents(p, actions), 0) == core <==> CoreEndsAt(p, actions, core)
  {
    CountIsEnd(p, actions);
    if CoreEndsAt(p, actions, core) {
      EndIsCounted(p, actions, core);
    }
  }

  lemma {:induction false} CountEnds(actions: seq<Action>, intents: seq<ActionIntent>, i: nat)
    requires i <= |actions| && i <= |intents|
    ensures
      var n := CoreCount(actions, intents, i);
      i <= n <= |actions| && n <= |intents| && (forall j | i <= j < n :: actions[j].kind == intents[j].kind) &&
      (n < |actions| && n < |intents| ==> actions[n].kind != intents[n].kind)
    decreases |actions| - i
  {
    if i < |actions| && i < |intents| && actions[i].kind == intents[i].kind {
      CountEnds(actions, intents, i + 1);
    }
  }

  lemma {:induction false} KindsAt(p: Preparation, actions: seq<Action>, core: nat)
    requires CoreEndsAt(p, actions, core)
    ensures
      var stop := FirstIndex(actions, Effects.WorkloadStop, 0);
      if core > Base(actions) then stop == Base(actions) else stop < 0 || stop >= core
    ensures FirstIndex(actions[..core], Effects.WorkloadRename, 0) ==
            if core > Base(actions) + 1 then Base(actions) + 1 else -1
    ensures FirstIndex(actions[..core], Effects.WorkloadCreate, 0) ==
            if Created(actions, core) then Base(actions) + 2 else -1
  {
    var base := Base(actions);
    forall i | 0 <= i < core
      ensures actions[..core][i].kind == actions[i].kind == Effects.KindOf(CoreEffect(p, actions, i))
    {
    }
    if core > base {
      FindsFirst(actions, Effects.WorkloadStop, 0, base);
    } else {
      FirstHasKind(actions, Effects.WorkloadStop, 0);
    }
    if core > base + 1 {
      FindsFirst(actions[..core], Effects.WorkloadRename, 0, base + 1);
    } else {
      FindsNone(actions[..core], Effects.WorkloadRename, 0);
    }
    if core > base + 2 {
      FindsFirst(actions[..core], Effects.WorkloadCreate, 0, base + 2);
    } else {
      FindsNone(actions[..core], Effects.WorkloadCreate, 0);
    }
  }

  lemma {:induction false} FirstHasKind(actions: seq<Action>, kind: Effects.ActionKind, i: nat)
    ensures
      var index := FirstIndex(actions, kind, i);
      index == -1 || (i <= index < |actions| && actions[index].kind == kind)
    decreases |actions| - i
  {
    if i < |actions| && actions[i].kind != kind {
      FirstHasKind(actions, kind, i + 1);
    }
  }

  lemma {:induction false} ResultShows(a: Action, t: Transition)
    ensures Settling.CompletedTransitionResult(a, t) ==
            if Shows(a, t, true) then Some(true) else if Shows(a, t, false) then Some(false) else None
    ensures !(Shows(a, t, true) && Shows(a, t, false))
  {
  }

  lemma {:induction false} InspectionIsExact(p: Preparation, actions: seq<Action>, core: nat)
    requires 0 < core && CoreEndsAt(p, actions, core)
    ensures InspectRestoreCore(p, actions, core, Base(actions) + 5) ==
            if CoreCanBeUndone(p, actions, core)
            then Some(CoreEvidence(Created(actions, core), Renamed(p, actions, core))) else None
  {
    var base, journey := Base(actions), NewUpgradeJourney(p);
    KindsAt(p, actions, core);
    if core > base {
      ResultShows(actions[base], journey.stop);
    }
    if core > base + 1 {
      assert actions[..core][base + 1] == actions[base + 1];
      ResultShows(actions[base + 1], journey.rename);
    }
    if core > base + 4 {
      assert actions[base + 4].kind == Effects.KindOf(CoreEffect(p, actions, base + 4));
      ResultShows(actions[base + 4], journey.remove);
    }
  }

  // ---------- what follows ----------

  lemma {:induction false} ExpectedIsUndoing(p: Preparation, core: nat, evidence: CoreEvidence)
    ensures
      var undoing := Undoing(p, evidence.discard, evidence.reverseRename);
      ExpectedSuffix(p, NewRestoreJourney(p, core, evidence)) ==
      seq(|undoing|, i requires 0 <= i < |undoing| => IntentOf(p, core + i + 1, undoing[i]))
  {
  }

  lemma {:induction false} SuffixIsExact(p: Preparation, actions: seq<Action>, core: nat)
    requires core <= |actions|
    ensures
      var evidence := CoreEvidence(Created(actions, core), Renamed(p, actions, core));
      SuffixMatches(p, actions[core..], ExpectedSuffix(p, NewRestoreJourney(p, core, evidence))) <==>
      RestIsUndoing(p, actions, core)
  {
    var evidence := CoreEvidence(Created(actions, core), Renamed(p, actions, core));
    var undoing := Undoing(p, evidence.discard, evidence.reverseRename);
    ExpectedIsUndoing(p, core, evidence);
    assert forall i | 0 <= i < |actions| - core :: actions[core..][i] == actions[core + i];
  }

  lemma {:induction false} CompletedIsPlanned(p: Preparation, actions: seq<Action>, core: nat)
    requires core <= |actions| && core <= Base(actions) + 5
    ensures CoreCompleted(p, actions, UpgradeCoreIntents(p, actions), core) <==> CoreIsPlanned(p, actions, core)
  {
    var intents := UpgradeCoreIntents(p, actions);
    assert forall i | 0 <= i < core :: intents[i] == IntentOf(p, i + 1, CoreEffect(p, actions, i));
  }

  /** The computation in terms of its parts. */
  lemma {:induction false} PreparedInParts(
      p: Preparation, actions: seq<Action>, core: nat, completed: bool, evidence: Option<CoreEvidence>, suffix: bool)
    requires core == CoreCount(actions, UpgradeCoreIntents(p, actions), 0)
    requires 0 < core <= |actions| && core <= Base(actions) + 5
    requires completed <==> CoreCompleted(p, actions, UpgradeCoreIntents(p, actions), core)
    requires evidence == InspectRestoreCore(p, actions, core, Base(actions) + 5)
    requires evidence.Some? ==>
      (suffix <==> SuffixMatches(p, actions[core..], ExpectedSuffix(p, NewRestoreJourney(p, core, evidence.value))))
    ensures PreparedRestore(p, actions) ==
            if completed && evidence.Some? && suffix then Some(NewRestoreJourney(p, core, evidence.value)) else None
  {
  }

  lemma {:induction false} PreparedAt(p: Preparation, actions: seq<Action>, core: nat)
    requires core == CoreCount(actions, UpgradeCoreIntents(p, actions), 0)
    ensures PreparedRestore(p, actions) ==
            if Restorable(p, actions, core)
            then
              Some(NewRestoreJourney(p, core, CoreEvidence(Created(actions, core), Renamed(p, actions, core))))
            else None
  {
    CountIsExact(p, actions, core);
    if core > 0 {
      CompletedIsPlanned(p, actions, core);
      InspectionIsExact(p, actions, core);
      SuffixIsExact(p, actions, core);
      PreparedInParts(p, actions, core, CoreIsPlanned(p, actions, core),
                      InspectRestoreCore(p, actions, core, Base(actions) + 5), RestIsUndoing(p, actions, core));
    }
  }

  /** A restore accepts exactly the journals that hold a planned upgrade which can be undone, followed by
      the beginning of undoing it, and then goes on from there. */
  lemma {:induction false} PreparedExactly(p: Preparation, actions: seq<Action>, journey: RestoreJourney)
    ensures
      PreparedRestore(p, actions) == Some(journey) <==>
      Restorable(p, actions, journey.coreActions) &&
      journey ==
        RestoreJourney(journey.coreActions, Created(actions, journey.coreActions),
                       Renamed(p, actions, journey.coreActions), ReverseRename(p), RestoreStartTransition(p),
                       journey.coreActions + 1, journey.coreActions)
  {
    var core := CoreCount(actions, UpgradeCoreIntents(p, actions), 0);
    PreparedAt(p, actions, core);
    if journey.coreActions != core && Restorable(p, actions, journey.coreActions) {
      RestorableIsCounted(p, actions, journey.coreActions);
    }
  }

  lemma {:induction false} RestorableIsCounted(p: Preparation, actions: seq<Action>, core: nat)
    requires Restorable(p, actions, core)
    ensures CoreCount(actions, UpgradeCoreIntents(p, actions), 0) == core
  {
    CountIsExact(p, actions, core);
  }
}
