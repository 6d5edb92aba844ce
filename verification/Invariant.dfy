/** What every reachable world of the protocol satisfies. */
module Invariant {
  import opened Protocol
  import opened Values
  import opened Workloads
  import Effects

  // ---------- what the journal says about the runtime ----------

  /** The predecessor after the first n actions, had exactly the satisfied ones taken hold. */
  function SettledPredecessor(p: Preparation, journal: seq<Action>, n: nat): Option<ExistingWorkload>
    requires n <= |journal|
  {
    if n == 0 then Some(Original(p))
    else
      var e := EffectOf(journal[n - 1]);
      if !Satisfied(p, journal[n - 1]) || !e.TransitionEffect? then SettledPredecessor(p, journal, n - 1)
      else if e.transition.kind.Remove? then None
      else Some(e.transition.after)
  }

  /** The lifecycle of this transaction's workload after the first n actions, None when there is none. */
  function SettledLifecycle(p: Preparation, journal: seq<Action>, n: nat): Option<Lifecycle>
    requires n <= |journal|
  {
    if n == 0 then None
    else if !Satisfied(p, journal[n - 1]) then SettledLifecycle(p, journal, n - 1)
    else
      match EffectOf(journal[n - 1])
      case CreateEffect => Some(Created)
      case StartEffect => Some(Running)
      case DiscardEffect => None
      case _ => SettledLifecycle(p, journal, n - 1)
  }

  predicate LifecycleIs(p: Preparation, r: Effects.Runtime, lifecycle: Option<Lifecycle>) {
    if lifecycle.None? then r.replacement.None?
    else r.replacement.Some? && Effects.MatchesDesired(p, r.replacement.value) &&
         r.replacement.value.lifecycle == lifecycle.value
  }

  predicate AtRest(p: Preparation, journal: seq<Action>, n: nat, r: Effects.Runtime)
    requires n <= |journal|
  {
    r.predecessor == SettledPredecessor(p, journal, n) && LifecycleIs(p, r, SettledLifecycle(p, journal, n))
  }

  /** The operation of the unresolved action n has taken hold and nothing else has changed. */
  predicate Held(p: Preparation, journal: seq<Action>, n: nat, r: Effects.Runtime)
    requires n < |journal|
  {
    var lifecycle := SettledLifecycle(p, journal, n);
    var predecessor := SettledPredecessor(p, journal, n);
    match EffectOf(journal[n])
    case PullEffect => AtRest(p, journal, n, r) && r.image
    case TransitionEffect(t) =>
      LifecycleIs(p, r, lifecycle) &&
      r.predecessor in
        (if t.kind.Remove? then [None, Some(t.before.(lifecycle := Removing))] else [Some(t.after)])
    case CreateEffect => r.predecessor == predecessor && LifecycleIs(p, r, Some(Created))
    case StartEffect => r.predecessor == predecessor && LifecycleIs(p, r, Some(Running))
    case DiscardEffect => r.predecessor == predecessor && r.replacement.None? && lifecycle.Some?
  }

  predicate RuntimeAgrees(p: Preparation, journal: seq<Action>, holds: seq<nat>, r: Effects.Runtime)
    requires |holds| == |journal|
  {
    var n := |journal|;
    (if n == 0 || journal[n - 1].state.Completed? then AtRest(p, journal, n, r)
     else if holds[n - 1] == 0 then AtRest(p, journal, n - 1, r)
     else Held(p, journal, n - 1, r)) &&
    (WithImage(journal) ==> (r.image <==> holds[0] != 0))
  }

  /** The recorded evidence names the container that the runtime holds. */
  predicate IdentityAgrees(p: Preparation, journal: seq<Action>, r: Effects.Runtime) {
    r.replacement.Some? ==> forall i | 0 <= i < |journal| :: Names(p, journal[i], r.replacement.value)
  }

  predicate Names(p: Preparation, a: Action, c: Effects.Container) {
    (Satisfied(p, a) && (a.kind.WorkloadCreate? || a.kind.WorkloadStart?) ==>
      a.postcondition.value == Effects.StoredDigest(p, Effects.AsObserved, a.kind, c)) &&
    (Negative(p, a) && a.kind.WorkloadStart? ==>
      a.postcondition.value == Effects.StoredDigest(p, Effects.AsUnstarted, a.kind, c))
  }

  // ---------- the invariant ----------

  predicate Shape(p: Preparation, journal: seq<Action>, core: nat) {
    |journal| <= PlanLength(journal, core) && InPlace(journal, core) &&
    forall i | 0 <= i < |journal| :: WellPlanned(p, journal, core, i)
  }

  /** A transaction degrades after its rename was recorded, or later. */
  predicate InPlace(journal: seq<Action>, core: nat) {
    core > 0 ==> Base(journal) + 2 <= core <= |journal| && core <= Base(journal) + 5
  }

  predicate WellPlanned(p: Preparation, journal: seq<Action>, core: nat, i: nat)
    requires i < |journal|
  {
    var e := PlanEffect(p, journal, core, i);
    Matches(journal[i], p.transaction, IntentOf(p, i + 1, e)) && ValidState(journal[i]) && Effects.ValidEffect(p, e)
  }

  /** The action that degraded the transaction is settled; a rename that did so was negative. */
  predicate CoreAgrees(p: Preparation, journal: seq<Action>, core: nat) {
    0 < core <= |journal| ==>
      journal[core - 1].state.Completed? &&
      (core == Base(journal) + 2 ==> Negative(p, journal[core - 1])) &&
      (RemoveSatisfied(p, journal) ==> |journal| == core)
  }

  /** Every action is satisfied, except the last one and the one that degraded the transaction. */
  predicate Progress(p: Preparation, journal: seq<Action>, core: nat) {
    (forall i | 0 <= i < |journal| - 1 && i + 1 != core :: Satisfied(p, journal[i])) &&
    (forall i | 0 <= i < |journal| ::
      journal[i].state.Completed? ==> Satisfied(p, journal[i]) || Negative(p, journal[i])) &&
    CoreAgrees(p, journal, core)
  }

  predicate StateAgrees(p: Preparation, w: World) {
    match w.state
    case Active => w.core == 0
    case Degraded => w.core > 0
    case Succeeded => w.core == 0 && RemoveSatisfied(p, w.journal)
    case Failed =>
      |w.journal| > 0 && AllCompleted(w.journal) &&
      var last := w.journal[|w.journal| - 1];
      if w.core == 0 then Negative(p, last) && (last.kind.ImagePull? || last.kind.WorkloadStop?)
      else |w.journal| == PlanLength(w.journal, w.core) && |w.journal| > w.core && Satisfied(p, last)
  }

  /** How often the operation behind a resolved action took hold. */
  function ExpectedHolds(p: Preparation, journal: seq<Action>, i: nat): nat
    requires i < |journal|
  {
    if !Satisfied(p, journal[i]) then 0
    else if EffectOf(journal[i]).DiscardEffect? && SettledLifecycle(p, journal, i).None? then 0
    else 1
  }

  predicate HoldsAgree(p: Preparation, journal: seq<Action>, holds: seq<nat>)
    requires |holds| == |journal|
  {
    forall i | 0 <= i < |journal| ::
      if journal[i].state.EffectOutcomeUnknown? then holds[i] <= 1
      else holds[i] == ExpectedHolds(p, journal, i)
  }

  predicate Inv(p: Preparation, w: World) {
    |w.holds| == |w.journal| && Shape(p, w.journal, w.core) && Progress(p, w.journal, w.core) &&
    StateAgrees(p, w) && HoldsAgree(p, w.journal, w.holds) &&
    RuntimeAgrees(p, w.journal, w.holds, w.runtime) && IdentityAgrees(p, w.journal, w.runtime)
  }

  // ---------- reading the journal ----------

  lemma {:induction false} EffectOfPlanned(p: Preparation, a: Action, sequence: int, e: Effects.Effect)
    requires Matches(a, p.transaction, IntentOf(p, sequence, e))
    ensures EffectOf(a) == e
  {
  }

  /** The journal carries the planned effects, whatever their evidence. */
  predicate Follows(p: Preparation, journal: seq<Action>, core: nat) {
    |journal| <= PlanLength(journal, core) && InPlace(journal, core) &&
    forall i | 0 <= i < |journal| :: EffectOf(journal[i]) == PlanEffect(p, journal, core, i)
  }

  lemma {:induction false} PlannedEffect(p: Preparation, journal: seq<Action>, core: nat, i: nat)
    requires Shape(p, journal, core) && i < |journal|
    ensures EffectOf(journal[i]) == PlanEffect(p, journal, core, i)
    ensures journal[i].kind == Effects.KindOf(PlanEffect(p, journal, core, i))
    ensures Effects.ValidEffect(p, EffectOf(journal[i])) && ValidState(journal[i])
  {
    assert WellPlanned(p, journal, core, i);
    EffectOfPlanned(p, journal[i], i + 1, PlanEffect(p, journal, core, i));
  }

  lemma {:induction false} ShapeFollows(p: Preparation, journal: seq<Action>, core: nat)
    requires Shape(p, journal, core)
    ensures Follows(p, journal, core)
  {
    forall i | 0 <= i < |journal|
      ensures EffectOf(journal[i]) == PlanEffect(p, journal, core, i)
    {
      PlannedEffect(p, journal, core, i);
    }
  }

  lemma {:induction false} SettledPrefix(p: Preparation, left: seq<Action>, right: seq<Action>, n: nat)
    requires n <= |left| && n <= |right| && left[..n] == right[..n]
    ensures SettledPredecessor(p, left, n) == SettledPredecessor(p, right, n)
    ensures SettledLifecycle(p, left, n) == SettledLifecycle(p, right, n)
  {
    if n > 0 {
      assert left[n - 1] == left[..n][n - 1] == right[..n][n - 1] == right[n - 1];
      assert left[..n - 1] == left[..n][..n - 1] == right[..n][..n - 1] == right[..n - 1];
      SettledPrefix(p, left, right, n - 1);
    }
  }

  /** The action at index i is among the first n and satisfied. */
  predicate Done(p: Preparation, journal: seq<Action>, i: nat, n: nat) {
    i < n <= |journal| && Satisfied(p, journal[i])
  }

  function CorePredecessor(p: Preparation, journal: seq<Action>, n: nat): Option<ExistingWorkload> {
    var base := Base(journal);
    if Done(p, journal, base + 4, n) then None
    else if Done(p, journal, base + 1, n) then Some(Retained(p))
    else if Done(p, journal, base, n) then Some(Stopped(p))
    else Some(Original(p))
  }

  function CoreLifecycle(p: Preparation, journal: seq<Action>, n: nat): Option<Lifecycle> {
    var base := Base(journal);
    if Done(p, journal, base + 3, n) then Some(Running)
    else if Done(p, journal, base + 2, n) then Some(Created)
    else None
  }

  lemma {:induction false} CorePredecessorGrows(p: Preparation, journal: seq<Action>, n: nat)
    requires 0 < n <= |journal| && n <= Base(journal) + 5
    requires EffectOf(journal[n - 1]) == UpgradeEffect(p, WithImage(journal), n - 1)
    ensures
      var e := EffectOf(journal[n - 1]);
      CorePredecessor(p, journal, n) ==
        if !Satisfied(p, journal[n - 1]) || !e.TransitionEffect? then CorePredecessor(p, journal, n - 1)
        else if e.transition.kind.Remove? then None
        else Some(e.transition.after)
  {
  }

  /** The fold over the upgrade's actions, read off the few that matter. */
  lemma {:induction false} CorePredecessorForm(p: Preparation, journal: seq<Action>, core: nat, n: nat)
    requires Follows(p, journal, core) && n <= |journal| && (core == 0 || n <= core)
    ensures SettledPredecessor(p, journal, n) == CorePredecessor(p, journal, n)
  {
    if n > 0 {
      CorePredecessorForm(p, journal, core, n - 1);
      CorePredecessorGrows(p, journal, n);
    }
  }

  lemma {:induction false} CoreLifecycleForm(p: Preparation, journal: seq<Action>, core: nat, n: nat)
    requires Follows(p, journal, core) && n <= |journal| && (core == 0 || n <= core)
    ensures SettledLifecycle(p, journal, n) == CoreLifecycle(p, journal, n)
  {
    if n > 0 {
      CoreLifecycleForm(p, journal, core, n - 1);
    }
  }

  function RestoredPredecessor(p: Preparation, journal: seq<Action>, core: nat, n: nat): Option<ExistingWorkload> {
    if CreateRecorded(journal, core) then
      if Done(p, journal, core + 2, n) then Some(Original(p))
      else if Done(p, journal, core + 1, n) then Some(Stopped(p))
      else CorePredecessor(p, journal, core)
    else if Done(p, journal, core, n) then Some(Original(p))
    else CorePredecessor(p, journal, core)
  }

  function RestoredLifecycle(p: Preparation, journal: seq<Action>, core: nat, n: nat): Option<Lifecycle> {
    if CreateRecorded(journal, core) && Done(p, journal, core, n) then None
    else CoreLifecycle(p, journal, core)
  }

  /** The same once the restore plan has begun. */
  lemma {:induction false} RestoredPredecessorForm(p: Preparation, journal: seq<Action>, core: nat, n: nat)
    requires Follows(p, journal, core) && 0 < core <= n <= |journal|
    ensures SettledPredecessor(p, journal, n) == RestoredPredecessor(p, journal, core, n)
  {
    if n == core {
      CorePredecessorForm(p, journal, core, n);
    } else {
      RestoredPredecessorForm(p, journal, core, n - 1);
    }
  }

  lemma {:induction false} RestoredLifecycleForm(p: Preparation, journal: seq<Action>, core: nat, n: nat)
    requires Follows(p, journal, core) && 0 < core <= n <= |journal|
    ensures SettledLifecycle(p, journal, n) == RestoredLifecycle(p, journal, core, n)
  {
    if n == core {
      CoreLifecycleForm(p, journal, core, n);
    } else {
      RestoredLifecycleForm(p, journal, core, n - 1);
    }
  }
}
