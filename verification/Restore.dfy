/** The inverse journey of a degraded upgrade, computed from its journal alone. */
module Restore {
  import opened Protocol
  import opened Values
  import opened Workloads
  import Effects
  import Facts
  import Invariant
  import Preservation
  import Safety
  import Settling

  datatype RestoreJourney = RestoreJourney(
    coreActions: nat,
    discard: bool,
    reverseRename: bool,
    rename: Transition,
    restoreStart: Transition,
    nextSequence: int,
    recoveryCursor: nat)

  datatype CoreEvidence = CoreEvidence(discard: bool, reverseRename: bool)

  // ---------- reading the journal ----------

  /** The first index from i on that carries the kind, or -1. */
  function FirstIndex(actions: seq<Action>, kind: Effects.ActionKind, i: nat): int
    decreases |actions| - i
  {
    if i >= |actions| then -1 else if actions[i].kind == kind then i else FirstIndex(actions, kind, i + 1)
  }

  method CoreActionIndex(actions: seq<Action>, kind: Effects.ActionKind) returns (index: int)
    ensures index == FirstIndex(actions, kind, 0)
  {
    for i := 0 to |actions|
      invariant FirstIndex(actions, kind, 0) == FirstIndex(actions, kind, i)
    {
      if actions[i].kind == kind {
        return i;
      }
    }
    return -1;
  }

  function UpgradeCoreIntents(p: Preparation, actions: seq<Action>): seq<ActionIntent> {
    var base := Base(actions);
    seq(base + 5, i requires 0 <= i < base + 5 => IntentOf(p, i + 1, UpgradeEffect(p, WithImage(actions), i)))
  }

  /** How many actions from i on carry the kinds of the upgrade. */
  function CoreCount(actions: seq<Action>, intents: seq<ActionIntent>, i: nat): nat
    decreases |actions| - i
  {
    if i >= |actions| || i >= |intents| || actions[i].kind != intents[i].kind then i
    else CoreCount(actions, intents, i + 1)
  }

  method RestoreCoreActionCount(actions: seq<Action>, intents: seq<ActionIntent>) returns (count: nat)
    ensures count == CoreCount(actions, intents, 0)
  {
    var limit := if |actions| < |intents| then |actions| else |intents|;
    for i := 0 to limit
      invariant CoreCount(actions, intents, 0) == CoreCount(actions, intents, i)
    {
      if actions[i].kind != intents[i].kind {
        return i;
      }
    }
    return limit;
  }

  /** The first n actions are completed and were planned as the upgrade plans them. */
  predicate CoreCompleted(p: Preparation, actions: seq<Action>, intents: seq<ActionIntent>, n: nat)
    requires n <= |actions| && n <= |intents|
  {
    forall i | 0 <= i < n :: actions[i].state.Completed? && Matches(actions[i], p.transaction, intents[i])
  }

  method ValidateCompletedRestoreCore(
      p: Preparation, actions: seq<Action>, intents: seq<ActionIntent>, coreActions: nat)
    returns (valid: bool)
    requires coreActions <= |actions| && coreActions <= |intents|
    ensures valid == CoreCompleted(p, actions, intents, coreActions)
  {
    for i := 0 to coreActions
      invariant CoreCompleted(p, actions, intents, i)
    {
      if !actions[i].state.Completed? || !Matches(actions[i], p.transaction, intents[i]) {
        return false;
      }
    }
    return true;
  }

  function ExpectedSuffix(p: Preparation, journey: RestoreJourney): seq<ActionIntent> {
    var first := journey.nextSequence;
    var discard := if journey.discard then [IntentOf(p, first, Effects.DiscardEffect)] else [];
    var rename :=
      if journey.reverseRename then [IntentOf(p, first + |discard|, Effects.TransitionEffect(journey.rename))] else [];
    discard + rename +
    [IntentOf(p, first + |discard| + |rename|, Effects.TransitionEffect(journey.restoreStart))]
  }

  predicate SuffixMatches(p: Preparation, suffix: seq<Action>, expected: seq<ActionIntent>) {
    |suffix| <= |expected| && forall i | 0 <= i < |suffix| :: Matches(suffix[i], p.transaction, expected[i])
  }

  method ValidRestoreSuffix(p: Preparation, actions: seq<Action>, journey: RestoreJourney) returns (valid: bool)
    requires journey.coreActions <= |actions|
    ensures valid == SuffixMatches(p, actions[journey.coreActions..], ExpectedSuffix(p, journey))
  {
    var expected: seq<ActionIntent> := [];
    var sequence := journey.nextSequence;
    if journey.discard {
      expected := expected + [IntentOf(p, sequence, Effects.DiscardEffect)];
      sequence := sequence + 1;
    }
    if journey.reverseRename {
      expected := expected + [IntentOf(p, sequence, Effects.TransitionEffect(journey.rename))];
      sequence := sequence + 1;
    }
    expected := expected + [IntentOf(p, sequence, Effects.TransitionEffect(journey.restoreStart))];
    assert expected == ExpectedSuffix(p, journey);
    var suffix := actions[journey.coreActions..];
    if |suffix| > |expected| {
      return false;
    }
    for i := 0 to |suffix|
      invariant forall j | 0 <= j < i :: Matches(suffix[j], p.transaction, expected[j])
    {
      if !Matches(suffix[i], p.transaction, expected[i]) {
        return false;
      }
    }
    return true;
  }

  // ---------- the journey ----------

  /** What the journal's upgrade part says about the runtime; None when it rules out a restore. */
  function InspectRestoreCore(p: Preparation, actions: seq<Action>, coreActions: nat, coreIntents: nat)
    : Option<CoreEvidence>
    requires coreActions <= |actions| && coreIntents > 0
  {
    var journey := NewUpgradeJourney(p);
    var core := actions[..coreActions];
    var stopIndex := FirstIndex(actions, Effects.WorkloadStop, 0);
    if stopIndex < 0 || stopIndex >= |actions| || coreActions <= stopIndex then None
    else if Settling.CompletedTransitionResult(actions[stopIndex], journey.stop) != Some(true) then None
    else
      var renameIndex := FirstIndex(core, Effects.WorkloadRename, 0);
      var rename :=
        if renameIndex < 0 || renameIndex >= |core| then Some(false)
        else Settling.CompletedTransitionResult(core[renameIndex], journey.rename);
      if rename.None? then None
      else
        var discard := FirstIndex(core, Effects.WorkloadCreate, 0) >= 0;
        var removeIndex := coreIntents - 1;
        var removed := coreActions > removeIndex && actions[removeIndex].kind.WorkloadRemove? &&
          Settling.CompletedTransitionResult(actions[removeIndex], journey.remove) != Some(false);
        if (discard && !rename.value) || removed then None else Some(CoreEvidence(discard, rename.value))
  }

  function NewRestoreJourney(p: Preparation, coreActions: nat, evidence: CoreEvidence): RestoreJourney {
    RestoreJourney(coreActions, evidence.discard, evidence.reverseRename, ReverseRename(p),
                   RestoreStartTransition(p), coreActions + 1, coreActions)
  }

  /** The whole computation as a function of the journal. */
  function PreparedRestore(p: Preparation, actions: seq<Action>): Option<RestoreJourney> {
    var intents := UpgradeCoreIntents(p, actions);
    var coreActions := CoreCount(actions, intents, 0);
    if coreActions == 0 || coreActions > |actions| || coreActions > |intents| ||
       !CoreCompleted(p, actions, intents, coreActions) then None
    else
      var evidence := InspectRestoreCore(p, actions, coreActions, |intents|);
      if evidence.None? then None
      else
        var journey := NewRestoreJourney(p, coreActions, evidence.value);
        if SuffixMatches(p, actions[coreActions..], ExpectedSuffix(p, journey)) then Some(journey) else None
  }

  lemma {:induction false} CoreCountBounded(actions: seq<Action>, intents: seq<ActionIntent>, i: nat)
    requires i <= |actions| && i <= |intents|
    ensures i <= CoreCount(actions, intents, i) <= |actions|
    ensures CoreCount(actions, intents, i) <= |intents|
    decreases |actions| - i
  {
    if i < |actions| && i < |intents| && actions[i].kind == intents[i].kind {
      CoreCountBounded(actions, intents, i + 1);
    }
  }

  method PrepareRestoreJourney(p: Preparation, actions: seq<Action>) returns (journey: Option<RestoreJourney>)
    ensures journey == PreparedRestore(p, actions)
  {
    var intents := UpgradeCoreIntents(p, actions);
    var coreActions := RestoreCoreActionCount(actions, intents);
    CoreCountBounded(actions, intents, 0);
    if coreActions == 0 {
      return None;
    }
    var completed := ValidateCompletedRestoreCore(p, actions, intents, coreActions);
    if !completed {
      return None;
    }
    var evidence := InspectRestoreCore(p, actions, coreActions, |intents|);
    if evidence.None? {
      return None;
    }
    var prepared := NewRestoreJourney(p, coreActions, evidence.value);
    var valid := ValidRestoreSuffix(p, actions, prepared);
    return if valid then Some(prepared) else None;
  }

  // ---------- what it makes of a degraded journal ----------

  lemma {:induction false} CountsUpTo(actions: seq<Action>, intents: seq<ActionIntent>, i: nat, n: nat)
    requires i <= n <= |actions| && n <= |intents|
    requires forall j | i <= j < n :: actions[j].kind == intents[j].kind
    requires n == |actions| || n == |intents| || actions[n].kind != intents[n].kind
    ensures CoreCount(actions, intents, i) == n
    decreases n - i
  {
    if i < n {
      CountsUpTo(actions, intents, i + 1, n);
    }
  }

  lemma {:induction false} FindsFirst(actions: seq<Action>, kind: Effects.ActionKind, i: nat, n: nat)
    requires i <= n < |actions| && actions[n].kind == kind
    requires forall j | i <= j < n :: actions[j].kind != kind
    ensures FirstIndex(actions, kind, i) == n
    decreases n - i
  {
    if i < n {
      FindsFirst(actions, kind, i + 1, n);
    }
  }

  lemma {:induction false} FindsNone(actions: seq<Action>, kind: Effects.ActionKind, i: nat)
    requires i <= |actions| && forall j | i <= j < |actions| :: actions[j].kind != kind
    ensures FirstIndex(actions, kind, i) == -1
    decreases |actions| - i
  {
    if i < |actions| {
      FindsNone(actions, kind, i + 1);
    }
  }

  lemma {:induction false} CoreActionsMatch(p: Preparation, journal: seq<Action>, core: nat, i: nat)
    requires Invariant.Shape(p, journal, core) && 0 < core && i < core
    ensures i < |UpgradeCoreIntents(p, journal)|
    ensures Matches(journal[i], p.transaction, UpgradeCoreIntents(p, journal)[i])
  {
    assert Invariant.WellPlanned(p, journal, core, i);
  }

  /** The first restore action carries a kind that the upgrade does not plan at its place. */
  lemma {:induction false} CoreEnds(p: Preparation, journal: seq<Action>, core: nat)
    requires Invariant.Shape(p, journal, core) && 0 < core < |journal| && core < |UpgradeCoreIntents(p, journal)|
    ensures journal[core].kind != UpgradeCoreIntents(p, journal)[core].kind
  {
    Invariant.PlannedEffect(p, journal, core, core);
  }

  lemma {:induction false} CoreIsCompleted(p: Preparation, w: World)
    requires Reachable(p, w) && w.state.Degraded?
    ensures 0 < w.core <= |w.journal| && forall i | 0 <= i < w.core :: w.journal[i].state.Completed?
  {
    Facts.Journal(p, w);
    Facts.Progresses(p, w);
  }

  /** The upgrade part of a degraded journal is found again from the kinds alone. */
  lemma {:induction false} CoreIsFound(p: Preparation, w: World)
    requires Reachable(p, w) && w.state.Degraded?
    ensures CoreCount(w.journal, UpgradeCoreIntents(p, w.journal), 0) == w.core
    ensures w.core <= |w.journal| && w.core <= |UpgradeCoreIntents(p, w.journal)|
    ensures CoreCompleted(p, w.journal, UpgradeCoreIntents(p, w.journal), w.core)
  {
    Facts.Journal(p, w);
    CoreIsCompleted(p, w);
    CoreIsFoundIn(p, w.journal, w.core);
  }

  lemma {:induction false} CoreIsFoundIn(p: Preparation, journal: seq<Action>, core: nat)
    requires Invariant.Shape(p, journal, core) && 0 < core <= |journal|
    requires forall i | 0 <= i < core :: journal[i].state.Completed?
    ensures CoreCount(journal, UpgradeCoreIntents(p, journal), 0) == core
    ensures core <= |UpgradeCoreIntents(p, journal)|
    ensures CoreCompleted(p, journal, UpgradeCoreIntents(p, journal), core)
  {
    var intents := UpgradeCoreIntents(p, journal);
    forall i | 0 <= i < core
      ensures Matches(journal[i], p.transaction, intents[i])
    {
      CoreActionsMatch(p, journal, core, i);
    }
    if core < |journal| && core < |intents| {
      CoreEnds(p, journal, core);
    }
    CountsUpTo(journal, intents, 0, core);
  }

  // ---------- the verdicts of the upgrade part ----------

  lemma {:induction false} CoreVerdict(p: Preparation, journal: seq<Action>, core: nat, i: nat, t: Transition)
    requires Invariant.Shape(p, journal, core) && i < |journal| && EffectOf(journal[i]) == Effects.TransitionEffect(t)
    requires Satisfied(p, journal[i]) || Negative(p, journal[i])
    ensures Settling.CompletedTransitionResult(journal[i], t) == Some(Satisfied(p, journal[i]))
  {
    Invariant.PlannedEffect(p, journal, core, i);
    Preservation.EvidenceIsExclusive(p, EffectOf(journal[i]), journal[i].postcondition.value);
  }

  /** Where the kinds stand in the upgrade part. */
  lemma {:induction false} KindsInCore(p: Preparation, journal: seq<Action>, core: nat)
    requires Invariant.Shape(p, journal, core) && core > 0
    ensures FirstIndex(journal, Effects.WorkloadStop, 0) == Base(journal)
    ensures FirstIndex(journal[..core], Effects.WorkloadRename, 0) == Base(journal) + 1
    ensures FirstIndex(journal[..core], Effects.WorkloadCreate, 0) ==
            if CreateRecorded(journal, core) then Base(journal) + 2 else -1
  {
    forall i | 0 <= i < core
      ensures journal[..core][i].kind == journal[i].kind == Effects.KindOf(UpgradeEffect(p, WithImage(journal), i))
    {
      Invariant.PlannedEffect(p, journal, core, i);
    }
    var base := Base(journal);
    FindsFirst(journal, Effects.WorkloadStop, 0, base);
    FindsFirst(journal[..core], Effects.WorkloadRename, 0, base + 1);
    if CreateRecorded(journal, core) {
      FindsFirst(journal[..core], Effects.WorkloadCreate, 0, base + 2);
    } else {
      FindsNone(journal[..core], Effects.WorkloadCreate, 0);
    }
  }

  lemma {:induction false} CoreIsSettled(p: Preparation, journal: seq<Action>, core: nat)
    requires Invariant.Shape(p, journal, core) && Invariant.Progress(p, journal, core) && 0 < core
    ensures
      var base := Base(journal);
      base + 2 <= core <= |journal| && core <= base + 5 && Satisfied(p, journal[base]) &&
      (if CreateRecorded(journal, core) then Satisfied(p, journal[base + 1]) else Negative(p, journal[base + 1])) &&
      (core > base + 4 ==> Satisfied(p, journal[base + 4]) || Negative(p, journal[base + 4])) &&
      (RemoveSatisfied(p, journal) ==> core > base + 4)
  {
  }

  lemma {:induction false} VerdictsInCore(p: Preparation, journal: seq<Action>, core: nat)
    requires Invariant.Shape(p, journal, core) && Invariant.Progress(p, journal, core) && 0 < core <= |journal|
    requires Base(journal) + 2 <= core
    ensures
      var journey := NewUpgradeJourney(p);
      var base := Base(journal);
      Settling.CompletedTransitionResult(journal[base], journey.stop) == Some(true) &&
      Settling.CompletedTransitionResult(journal[base + 1], journey.rename) == Some(CreateRecorded(journal, core))
    ensures
      var last := Base(journal) + 4;
      core > last ==>
        journal[last].kind.WorkloadRemove? &&
        Settling.CompletedTransitionResult(journal[last], NewUpgradeJourney(p).remove) ==
        Some(RemoveSatisfied(p, journal))
  {
    var base := Base(journal);
    CoreIsSettled(p, journal, core);
    Invariant.PlannedEffect(p, journal, core, base);
    Invariant.PlannedEffect(p, journal, core, base + 1);
    CoreVerdict(p, journal, core, base, NewUpgradeJourney(p).stop);
    CoreVerdict(p, journal, core, base + 1, NewUpgradeJourney(p).rename);
    if Negative(p, journal[base + 1]) {
      Safety.NegativeIsNotSatisfied(p, journal, core, base + 1);
    }
    if core > base + 4 {
      Invariant.PlannedEffect(p, journal, core, base + 4);
      CoreVerdict(p, journal, core, base + 4, NewUpgradeJourney(p).remove);
    }
  }

  lemma {:induction false} InspectionIn(p: Preparation, journal: seq<Action>, core: nat, created: bool, removed: bool)
    requires Base(journal) + 2 <= core <= |journal| && core <= Base(journal) + 5
    requires FirstIndex(journal, Effects.WorkloadStop, 0) == Base(journal)
    requires FirstIndex(journal[..core], Effects.WorkloadRename, 0) == Base(journal) + 1
    requires FirstIndex(journal[..core], Effects.WorkloadCreate, 0) == if created then Base(journal) + 2 else -1
    requires Settling.CompletedTransitionResult(journal[Base(journal)], NewUpgradeJourney(p).stop) == Some(true)
    requires Settling.CompletedTransitionResult(journal[Base(journal) + 1], NewUpgradeJourney(p).rename) ==
      Some(created)
    requires core > Base(journal) + 4 ==>
      journal[Base(journal) + 4].kind.WorkloadRemove? &&
      Settling.CompletedTransitionResult(journal[Base(journal) + 4], NewUpgradeJourney(p).remove) == Some(removed)
    requires removed ==> core > Base(journal) + 4
    ensures InspectRestoreCore(p, journal, core, Base(journal) + 5) ==
            if removed then None else Some(CoreEvidence(created, created))
  {
    assert journal[..core][Base(journal) + 1] == journal[Base(journal) + 1];
  }

  /** Inspecting a degraded journal refuses a recorded removal and nothing else. */
  lemma {:induction false} InspectionOfDegraded(p: Preparation, journal: seq<Action>, core: nat)
    requires Invariant.Shape(p, journal, core) && Invariant.Progress(p, journal, core) && 0 < core <= |journal|
    ensures InspectRestoreCore(p, journal, core, Base(journal) + 5) ==
            if RemoveSatisfied(p, journal) then None
            else Some(CoreEvidence(CreateRecorded(journal, core), CreateRecorded(journal, core)))
  {
    CoreIsSettled(p, journal, core);
    KindsInCore(p, journal, core);
    VerdictsInCore(p, journal, core);
    InspectionIn(p, journal, core, CreateRecorded(journal, core), RemoveSatisfied(p, journal));
  }

  // ---------- the result ----------

  /** The journey that undoes a degraded upgrade. */
  function InverseJourney(p: Preparation, w: World): RestoreJourney {
    var created := CreateRecorded(w.journal, w.core);
    NewRestoreJourney(p, w.core, CoreEvidence(created, created))
  }

  lemma {:induction false} SuffixIsExpected(p: Preparation, w: World)
    requires Invariant.Shape(p, w.journal, w.core) && w.core > 0
    ensures SuffixMatches(p, w.journal[w.core..], ExpectedSuffix(p, InverseJourney(p, w)))
  {
    var suffix := w.journal[w.core..];
    forall i | 0 <= i < |suffix|
      ensures Matches(suffix[i], p.transaction, ExpectedSuffix(p, InverseJourney(p, w))[i])
    {
      assert Invariant.WellPlanned(p, w.journal, w.core, w.core + i);
    }
  }

  lemma {:induction false} PreparedFrom(p: Preparation, actions: seq<Action>, core: nat, evidence: Option<CoreEvidence>)
    requires CoreCount(actions, UpgradeCoreIntents(p, actions), 0) == core
    requires 0 < core <= |actions| && core <= Base(actions) + 5
    requires CoreCompleted(p, actions, UpgradeCoreIntents(p, actions), core)
    requires InspectRestoreCore(p, actions, core, Base(actions) + 5) == evidence
    requires evidence.Some? ==>
      SuffixMatches(p, actions[core..], ExpectedSuffix(p, NewRestoreJourney(p, core, evidence.value)))
    ensures PreparedRestore(p, actions) ==
            if evidence.None? then None else Some(NewRestoreJourney(p, core, evidence.value))
  {
  }

  lemma {:induction false} PreparesIn(p: Preparation, w: World)
    requires Invariant.Shape(p, w.journal, w.core) && Invariant.Progress(p, w.journal, w.core) &&
      0 < w.core <= |w.journal|
    requires CoreCount(w.journal, UpgradeCoreIntents(p, w.journal), 0) == w.core <= Base(w.journal) + 5
    requires CoreCompleted(p, w.journal, UpgradeCoreIntents(p, w.journal), w.core)
    ensures PreparedRestore(p, w.journal) ==
            if RemoveSatisfied(p, w.journal) then None else Some(InverseJourney(p, w))
  {
    InspectionOfDegraded(p, w.journal, w.core);
    if RemoveSatisfied(p, w.journal) {
      PreparedFrom(p, w.journal, w.core, None);
    } else {
      SuffixIsExpected(p, w);
      var created := CreateRecorded(w.journal, w.core);
      PreparedFrom(p, w.journal, w.core, Some(CoreEvidence(created, created)));
    }
  }

  /** A restore is prepared for every degraded transaction, however far an earlier restore had got,
      except exactly when the removal of the predecessor is on record; and it is the same plan. */
  lemma {:induction false} PreparesUnlessRemoved(p: Preparation, w: World)
    requires Reachable(p, w) && w.state.Degraded?
    ensures PreparedRestore(p, w.journal) ==
            if RemoveSatisfied(p, w.journal) then None else Some(InverseJourney(p, w))
  {
    Facts.Journal(p, w);
    Facts.Progresses(p, w);
    CoreIsFound(p, w);
    PreparesIn(p, w);
  }
}
