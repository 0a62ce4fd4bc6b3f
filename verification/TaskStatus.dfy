/** The states of a task. */
module TaskStatus {
  datatype Status = Submitted | Planning | Running | WaitingForInput | Completed | Failed | Cancelled

  predicate Terminal(s: Status) { s in {Completed, Failed, Cancelled} }

  /** The states that count as active are the other four. */
  lemma ActiveOrTerminal(s: Status)
    ensures !Terminal(s) <==> s == Submitted || s == Planning || s == Running || s == WaitingForInput
    ensures Terminal(s) <==> s == Completed || s == Failed || s == Cancelled
  {
  }
}
