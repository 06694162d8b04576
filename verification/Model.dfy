/** Vocabulary shared by the Agent and the Controller. */
module Model {

  // Names are numbers: only equality and a total order of names matter. 0 is the empty name.
  type ID = nat

  const NO_ID: ID := 0

  // Times are numbers of clock ticks. 0 is the zero time, that is, "unknown".
  type Time = nat

  datatype NodeState = Starting | Ready | Stopping | Stopped | Failed

  predicate Terminal(state: NodeState) { state.Stopped? || state.Failed? }

  // Logically ended or ending: such a node must never be shown as live again.
  predicate Ending(state: NodeState) { state.Stopping? || Terminal(state) }

  datatype Option<+T> = None | Some(value: T)

  function MaxInt(a: int, b: int): int { if a < b then b else a }

  function MinInt(a: int, b: int): int { if a < b then a else b }

  lemma {:induction false} SubsetSize<T>(a: set<T>, b: set<T>)
    requires a <= b
    ensures |a| <= |b|
  {
    if a != {} {
      var x :| x in a;
      SubsetSize(a - {x}, b - {x});
    }
  }
}
