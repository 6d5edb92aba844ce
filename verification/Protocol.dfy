/** The upgrade and restore protocol as a step relation over durable state and runtime state.
    A step is one journal write or one runtime operation. What a process keeps in memory is not
    part of a world, so a crash is the end of one run and the start of the next in the same world. */
module Protocol {
  import opened Effects
  import opened Values
  import opened Workloads

  datatype ActionState = Intent | EffectOutcomeUnknown | Completed

  datatype Action = Action(
    transaction: Text,
    sequence: int,
    kind: ActionKind,
    state: ActionState,
    intent: Evidence,
    postcondition: Option<Evidence>)

  datatype ActionIntent = ActionIntent(sequence: int, kind: ActionKind, digest: Evidence)

  datatype TransactionState = Active | Degraded | Failed | Succeeded

  /** `holds[i]` counts how often the operation of action i has taken hold; `core` is the length
      of the journal when the transaction became degraded, 0 before. Both are history: no step of
      the program reads them. */
  datatype World = World(
    journal: seq<Action>,
    state: TransactionState,
    runtime: Runtime,
    holds: seq<nat>,
    core: nat)

  // ---------- the plan ----------

  function IntentOf(p: Preparation, sequence: int, e: Effect): ActionIntent {
    ActionIntent(sequence, KindOf(e), IntentDigest(p, e))
  }

  predicate WithImage(journal: seq<Action>) {
    |journal| > 0 && journal[0].kind.ImagePull?
  }

  function Base(journal: seq<Action>): nat {
    if WithImage(journal) then 1 else 0
  }

  /** Action i of the upgrade: pull (only when the image is missing), stop, rename, create, start, remove. */
  function UpgradeEffect(p: Preparation, withImage: bool, i: nat): Effect {
    var journey := NewUpgradeJourney(p);
    var k := if withImage then i - 1 else i;
    if k < 0 then PullEffect
    else if k == 0 then TransitionEffect(journey.stop)
    else if k == 1 then TransitionEffect(journey.rename)
    else if k == 2 then CreateEffect
    else if k == 3 then StartEffect
    else TransitionEffect(journey.remove)
  }

  /** Action i of the restore: discard and rename back (only when a creation is on record), restart. */
  function RestoreEffect(p: Preparation, created: bool, i: nat): Effect {
    if created && i == 0 then DiscardEffect
    else if created && i == 1 then TransitionEffect(ReverseRename(p))
    else TransitionEffect(RestoreStartTransition(p))
  }

  /** Whether the degraded transaction had recorded the creation of its replacement. */
  predicate CreateRecorded(journal: seq<Action>, core: nat) {
    core > Base(journal) + 2
  }

  function PlanLength(journal: seq<Action>, core: nat): nat {
    if core == 0 then Base(journal) + 5
    else core + if CreateRecorded(journal, core) then 3 else 1
  }

  function PlanEffect(p: Preparation, journal: seq<Action>, core: nat, i: nat): Effect {
    if core == 0 || i < core then UpgradeEffect(p, WithImage(journal), i)
    else RestoreEffect(p, CreateRecorded(journal, core), i - core)
  }

  predicate Matches(a: Action, transaction: Text, intent: ActionIntent) {
    a.transaction == transaction && a.sequence == intent.sequence && a.kind == intent.kind &&
    a.intent == intent.digest
  }

  predicate ValidState(a: Action) {
    a.state.Completed? <==> a.postcondition.Some?
  }

  /** The effect an action was planned for. */
  function EffectOf(a: Action): Effect {
    match a.kind
    case ImagePull => PullEffect
    case WorkloadCreate => CreateEffect
    case WorkloadStart => StartEffect
    case WorkloadDiscard => DiscardEffect
    case _ => if a.intent.TransitionEvidence? then TransitionEffect(a.intent.transition) else PullEffect
  }

  predicate Satisfied(p: Preparation, a: Action) {
    a.state.Completed? && a.postcondition.Some? && SatisfiedDigest(p, EffectOf(a), a.postcondition.value)
  }

  predicate Negative(p: Preparation, a: Action) {
    a.state.Completed? && a.postcondition.Some? && NegativeDigest(p, EffectOf(a), a.postcondition.value)
  }

  predicate AllCompleted(journal: seq<Action>) {
    forall i | 0 <= i < |journal| :: journal[i].state.Completed?
  }

  /** The removal of the predecessor is on record as done. */
  predicate RemoveSatisfied(p: Preparation, journal: seq<Action>) {
    var last := Base(journal) + 4;
    |journal| > last && journal[last].kind.WorkloadRemove? && Satisfied(p, journal[last])
  }

  // ---------- the steps ----------

  function Planned(p: Preparation, w: World, e: Effect): Action {
    var sequence := |w.journal| + 1;
    Action(p.transaction, sequence, KindOf(e), Intent, IntentDigest(p, e), None)
  }

  /** What may be recorded next: nothing follows an unresolved or a negative action, except that a
      degraded transaction starts on its restore plan, and only while the predecessor is there. */
  predicate MayPlan(p: Preparation, w: World, e: Effect) {
    var n := |w.journal|;
    ValidEffect(p, e) && AllCompleted(w.journal) &&
    match w.state
    case Active =>
      if n == 0 then
        if w.runtime.image then e == TransitionEffect(NewUpgradeJourney(p).stop) else e.PullEffect?
      else
        Satisfied(p, w.journal[n - 1]) && n < PlanLength(w.journal, w.core) &&
        e == PlanEffect(p, w.journal, w.core, n)
    case Degraded =>
      !RemoveSatisfied(p, w.journal) && n < PlanLength(w.journal, w.core) &&
      e == PlanEffect(p, w.journal, w.core, n) &&
      (n == w.core || (n > 0 && Satisfied(p, w.journal[n - 1])))
    case _ => false
  }

  predicate PlansEffect(p: Preparation, w: World, w': World, e: Effect) {
    MayPlan(p, w, e) && w' == w.(journal := w.journal + [Planned(p, w, e)], holds := w.holds + [0])
  }

  ghost predicate PlanStep(p: Preparation, w: World, w': World) {
    exists e: Effect :: PlansEffect(p, w, w', e)
  }

  predicate Unresolved(w: World) {
    (w.state.Active? || w.state.Degraded?) && |w.journal| > 0 && |w.holds| == |w.journal| &&
    !w.journal[|w.journal| - 1].state.Completed?
  }

  predicate Uncertain(w: World) {
    Unresolved(w) && w.journal[|w.journal| - 1].state.EffectOutcomeUnknown?
  }

  function LastEffect(w: World): Effect
    requires |w.journal| > 0
  {
    EffectOf(w.journal[|w.journal| - 1])
  }

  ghost predicate MarkStep(p: Preparation, w: World, w': World) {
    Unresolved(w) &&
    var n := |w.journal| - 1;
    w' == w.(journal := w.journal[n := w.journal[n].(state := EffectOutcomeUnknown)])
  }

  ghost predicate ApplyStep(p: Preparation, w: World, w': World) {
    Uncertain(w) && Ready(p, LastEffect(w), w.runtime) &&
    TakesHold(p, LastEffect(w), w.runtime, w'.runtime) &&
    var n := |w.journal| - 1;
    w' == w.(runtime := w'.runtime, holds := w.holds[n := w.holds[n] + 1])
  }

  /** The runtime finishes a removal it had begun. */
  ghost predicate ResumeStep(p: Preparation, w: World, w': World) {
    Uncertain(w) && LastEffect(w).TransitionEffect? && LastEffect(w).transition.kind.Remove? &&
    w.runtime.predecessor == Some(LastEffect(w).transition.before.(lifecycle := Removing)) &&
    w' == w.(runtime := w.runtime.(predecessor := None))
  }

  ghost predicate CompleteStep(p: Preparation, w: World, w': World) {
    Uncertain(w) &&
    var observation := Probe(p, LastEffect(w), [], w.runtime);
    observation.Some? && !observation.value.incomplete &&
    w' == Completing(w, observation.value.postcondition.digest)
  }

  function Completing(w: World, digest: Evidence): World
    requires |w.journal| > 0
  {
    var n := |w.journal| - 1;
    w.(journal := w.journal[n := w.journal[n].(state := Completed, postcondition := Some(digest))])
  }

  /** A negative pull or stop leaves the predecessor untouched. */
  ghost predicate FailStep(p: Preparation, w: World, w': World) {
    w.state.Active? && AllCompleted(w.journal) && |w.journal| > 0 &&
    var last := w.journal[|w.journal| - 1];
    Negative(p, last) && (last.kind.ImagePull? || last.kind.WorkloadStop?) &&
    w' == w.(state := Failed)
  }

  /** A later negative action degrades the transaction; so does a completed creation that a later
      run cannot verify, wherever that run had got to. */
  ghost predicate DegradeStep(p: Preparation, w: World, w': World) {
    w.state.Active? && AllCompleted(w.journal) && |w.journal| > Base(w.journal) + 1 &&
    var last := w.journal[|w.journal| - 1];
    ((Negative(p, last) && !last.kind.ImagePull? && !last.kind.WorkloadStop?) ||
     (|w.journal| > Base(w.journal) + 2 && Satisfied(p, w.journal[Base(w.journal) + 2]))) &&
    w' == w.(state := Degraded, core := |w.journal|)
  }

  ghost predicate RestoredStep(p: Preparation, w: World, w': World) {
    w.state.Degraded? && AllCompleted(w.journal) && |w.journal| == PlanLength(w.journal, w.core) &&
    |w.journal| > w.core && Satisfied(p, w.journal[|w.journal| - 1]) &&
    w.runtime.predecessor == Some(Original(p)) &&
    w' == w.(state := Failed)
  }

  ghost predicate CommitStep(p: Preparation, w: World, w': World) {
    w.state.Active? && AllCompleted(w.journal) && RemoveSatisfied(p, w.journal) &&
    w.runtime.replacement.Some? && StartedMatches(p, w.runtime.replacement.value) &&
    w' == w.(state := Succeeded)
  }

  ghost predicate Step(p: Preparation, w: World, w': World) {
    || PlanStep(p, w, w')
    || MarkStep(p, w, w')
    || ApplyStep(p, w, w')
    || ResumeStep(p, w, w')
    || CompleteStep(p, w, w')
    || FailStep(p, w, w')
    || DegradeStep(p, w, w')
    || RestoredStep(p, w, w')
    || CommitStep(p, w, w')
  }

  /** The transaction has just begun beside a running predecessor. */
  predicate Initial(p: Preparation, w: World) {
    w.journal == [] && w.state.Active? && w.holds == [] && w.core == 0 &&
    w.runtime.predecessor == Some(Original(p)) && w.runtime.replacement.None?
  }

  // ---------- runs ----------

  ghost predicate IsRun(p: Preparation, trace: seq<World>) {
    |trace| > 0 && forall i | 0 < i < |trace| :: Step(p, trace[i - 1], trace[i])
  }

  ghost predicate Reaches(p: Preparation, w: World, w': World) {
    exists trace: seq<World> :: IsRun(p, trace) && trace[0] == w && trace[|trace| - 1] == w'
  }

  ghost predicate Reachable(p: Preparation, w: World) {
    exists start: World :: Initial(p, start) && Reaches(p, start, w)
  }

  lemma {:induction false} ReachesSelf(p: Preparation, w: World)
    ensures Reaches(p, w, w)
  {
    assert IsRun(p, [w]);
  }

  lemma {:induction false} ReachesStep(p: Preparation, w: World, middle: World, w': World)
    requires Reaches(p, w, middle) && Step(p, middle, w')
    ensures Reaches(p, w, w')
  {
    var trace: seq<World> :| IsRun(p, trace) && trace[0] == w && trace[|trace| - 1] == middle;
    assert IsRun(p, trace + [w']);
  }

  lemma {:induction false} ReachesTransitive(p: Preparation, w: World, middle: World, w': World)
    requires Reaches(p, w, middle) && Reaches(p, middle, w')
    ensures Reaches(p, w, w')
  {
    var trace: seq<World> :| IsRun(p, trace) && trace[0] == middle && trace[|trace| - 1] == w';
    ReachesAlong(p, w, trace, |trace| - 1);
  }

  lemma {:induction false} ReachesAlong(p: Preparation, w: World, trace: seq<World>, n: nat)
    requires IsRun(p, trace) && n < |trace| && Reaches(p, w, trace[0])
    ensures Reaches(p, w, trace[n])
  {
    if n > 0 {
      ReachesAlong(p, w, trace, n - 1);
      ReachesStep(p, w, trace[n - 1], trace[n]);
    }
  }
}
