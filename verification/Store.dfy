/** The durable journal of one transaction, as its SQL statements guard it. */
module Store {
  import opened Values
  import Effects
  import Protocol

  /** Only an unresolved transaction accepts journal writes. */
  predicate Writable(state: Protocol.TransactionState) {
    state.Active? || state.Degraded?
  }

  predicate ValidIntent(intent: Protocol.ActionIntent) {
    intent.sequence > 0 && !intent.kind.NoKind?
  }

  /** Where an action with this sequence number stands in the table, ordered by sequence. */
  function IndexOf(journal: seq<Protocol.Action>, sequence: int): (index: Option<nat>)
    ensures index.Some? ==> index.value < |journal| && journal[index.value].sequence == sequence
  {
    if journal == [] then None
    else if journal[|journal| - 1].sequence == sequence then Some(|journal| - 1)
    else IndexOf(journal[..|journal| - 1], sequence)
  }

  function InsertInOrder(journal: seq<Protocol.Action>, a: Protocol.Action): seq<Protocol.Action> {
    if journal == [] || journal[|journal| - 1].sequence < a.sequence then journal + [a]
    else InsertInOrder(journal[..|journal| - 1], a) + [journal[|journal| - 1]]
  }

  function NewAction(transaction: Text, intent: Protocol.ActionIntent): Protocol.Action {
    Protocol.Action(transaction, intent.sequence, intent.kind, Protocol.Intent, intent.digest, None)
  }

  /** The table after an accepted intent; None when the write is refused. */
  function Recorded(
    journal: seq<Protocol.Action>, state: Protocol.TransactionState, transaction: Text, intent: Protocol.ActionIntent)
    : Option<seq<Protocol.Action>>
  {
    if !ValidIntent(intent) then None
    else
      match IndexOf(journal, intent.sequence)
      case Some(i) =>
        if journal[i].kind == intent.kind && journal[i].intent == intent.digest && Writable(state)
        then Some(journal) else None
      case None =>
        if Writable(state) && Protocol.AllCompleted(journal)
        then Some(InsertInOrder(journal, NewAction(transaction, intent))) else None
  }

  function Marked(journal: seq<Protocol.Action>, state: Protocol.TransactionState, sequence: int)
    : Option<seq<Protocol.Action>>
  {
    match IndexOf(journal, sequence)
    case None => None
    case Some(i) =>
      if sequence > 0 && Writable(state) && !journal[i].state.Completed? && journal[i].postcondition.None?
      then Some(journal[i := journal[i].(state := Protocol.EffectOutcomeUnknown)]) else None
  }

  function Resolved(
    journal: seq<Protocol.Action>, state: Protocol.TransactionState, sequence: int, digest: Effects.Evidence)
    : Option<seq<Protocol.Action>>
  {
    match IndexOf(journal, sequence)
    case None => None
    case Some(i) =>
      if sequence > 0 && Writable(state) &&
         (journal[i].state.EffectOutcomeUnknown? ||
          (journal[i].state.Completed? && journal[i].postcondition == Some(digest)))
      then Some(journal[i := journal[i].(state := Protocol.Completed, postcondition := Some(digest))]) else None
  }

  /** Whether the transaction row accepts `target`. */
  predicate Settles(
    journal: seq<Protocol.Action>, state: Protocol.TransactionState, target: Protocol.TransactionState)
  {
    (target.Degraded? || target.Failed?) && (Writable(state) || state == target) && Protocol.AllCompleted(journal)
  }

  /** Consecutive sequence numbers, as every journal of the protocol carries them. */
  predicate Consecutive(journal: seq<Protocol.Action>) {
    forall i | 0 <= i < |journal| :: journal[i].sequence == i + 1
  }

  lemma {:induction false} FindsConsecutive(journal: seq<Protocol.Action>, sequence: int)
    requires Consecutive(journal)
    ensures IndexOf(journal, sequence) == if 0 < sequence <= |journal| then Some(sequence - 1) else None
  {
    if journal != [] && journal[|journal| - 1].sequence != sequence {
      FindsConsecutive(journal[..|journal| - 1], sequence);
    }
  }
}
