/** Two transactions updating the same two rows in opposite orders, with the first-attempt barrier of
  * the retry proof and locks granted to waiters in order of arrival.
  */
module Deadlock {

  // A call of a transaction: before its first update, queued for it, holding it, at the barrier,
  // queued for its second row, holding both, or committed.
  datatype Phase = Ready | Queued | First | Arrived | Waiting | Both | Finished

  datatype Tx = Tx(phase: Phase, calls: nat)

  // Transaction a updates row 1 then row 2, b row 2 then row 1. Values are committed ones.
  datatype State = State(a: Tx, b: Tx, row1: nat, row2: nat)

  datatype Event = StepA | StepB | AbortA | AbortB

  const INITIAL := State(Tx(Ready, 0), Tx(Ready, 0), 0, 0)

  predicate HoldsFirst(t: Tx) { t.phase in {First, Arrived, Waiting, Both} }

  predicate HoldsSecond(t: Tx) { t.phase.Both? }

  // The barrier opens when both first calls have reached it; it stays open afterwards.
  predicate Passed(t: Tx) { t.calls >= 2 || t.phase in {Arrived, Waiting, Both, Finished} }

  // One step of `own` against `other`; the result says whether it commits in this step.
  function Advance(own: Tx, other: Tx): (Tx, bool) {
    match own.phase
    case Ready => (Tx(if HoldsSecond(other) then Queued else First, own.calls + 1), false)
    case Queued => (own, false)
    case First =>
      if own.calls == 1 then (own.(phase := Arrived), false)
      else (own.(phase := if HoldsFirst(other) then Waiting else Both), false)
    case Arrived =>
      if !Passed(other) then (own, false)
      else (own.(phase := if HoldsFirst(other) then Waiting else Both), false)
    case Waiting => (own, false)
    case Both => (own.(phase := Finished), true)
    case Finished => (own, false)
  }

  // A release hands each row to the transaction queued for it.
  function Granted(t: Tx): Tx {
    if t.phase.Queued? then t.(phase := First) else if t.phase.Waiting? then t.(phase := Both) else t
  }

  // The deadlock detector aborts one of two transactions that wait for each other.
  function Next(s: State, e: Event): State {
    match e
    case StepA =>
      var (a, commits) := Advance(s.a, s.b);
      if commits then State(a, Granted(s.b), s.row1 + 1, s.row2 + 1) else s.(a := a)
    case StepB =>
      var (b, commits) := Advance(s.b, s.a);
      if commits then State(Granted(s.a), b, s.row1 + 1, s.row2 + 1) else s.(b := b)
    case AbortA => if Deadlocked(s) then s.(a := s.a.(phase := Ready), b := Granted(s.b)) else s
    case AbortB => if Deadlocked(s) then s.(b := s.b.(phase := Ready), a := Granted(s.a)) else s
  }

  predicate Deadlocked(s: State) { s.a.phase.Waiting? && s.b.phase.Waiting? }

  function Run(s: State, es: seq<Event>): State
    decreases |es|
  {
    if es == [] then s else Run(Next(s, es[0]), es[1..])
  }

  // ----- Every run is one deadlock long -----

  // Up to the deadlock nobody can have both rows: passing the barrier means the other holds its first.
  predicate Approaching(s: State) {
    && s.row1 == 0 == s.row2
    && (forall t :: t in {s.a, s.b} ==>
          || (t.phase.Ready? && t.calls == 0)
          || (t.phase in {First, Arrived, Waiting} && t.calls == 1))
    && (s.a.phase.Waiting? ==> s.b.phase in {Arrived, Waiting})
    && (s.b.phase.Waiting? ==> s.a.phase in {Arrived, Waiting})
  }

  predicate Resolving(s: State, survivor: Tx, victim: Tx) {
    && s.row1 == 0 == s.row2
    && survivor == Tx(Both, 1)
    && victim in {Tx(Ready, 1), Tx(Queued, 2)}
  }

  predicate Finishing(s: State, survivor: Tx, victim: Tx) {
    && survivor == Tx(Finished, 1)
    && (if victim == Tx(Finished, 2) then s.row1 == 2 == s.row2
        else s.row1 == 1 == s.row2 && victim in {Tx(Ready, 1), Tx(First, 2), Tx(Both, 2)})
  }

  predicate Inv(s: State) {
    || Approaching(s)
    || Resolving(s, s.a, s.b) || Resolving(s, s.b, s.a)
    || Finishing(s, s.a, s.b) || Finishing(s, s.b, s.a)
  }

  lemma StepKeepsInv(s: State, e: Event)
    requires Inv(s)
    ensures Inv(Next(s, e))
  {
  }

  lemma {:induction false} RunKeepsInv(s: State, es: seq<Event>)
    requires Inv(s)
    ensures Inv(Run(s, es))
    decreases |es|
  {
    if es != [] {
      StepKeepsInv(s, es[0]);
      RunKeepsInv(Next(s, es[0]), es[1..]);
    }
  }

  predicate Over(s: State) { s.a.phase.Finished? && s.b.phase.Finished? }

  // In every interleaving and with either victim: when both transactions have committed, both rows
  // are 2 and the two operations were called exactly three times in all; before that no row shows a
  // partial update.
  lemma ExactlyThreeCalls(es: seq<Event>)
    ensures var t := Run(INITIAL, es);
            && t.row1 == t.row2 <= 2
            && t.a.calls + t.b.calls <= 3
            && (Over(t) ==> t.row1 == 2 == t.row2 && t.a.calls + t.b.calls == 3)
  {
    RunKeepsInv(INITIAL, es);
  }

  // ----- Every schedule that keeps going ends -----

  function Distance(t: Tx): nat {
    match t.phase
    case Ready => if t.calls == 0 then 12 else 6
    case Queued => 5
    case First => if t.calls == 1 then 11 else 4
    case Arrived => 10
    case Waiting => 9
    case Both => 2
    case Finished => 0
  }

  // Every event leaves the state alone or comes closer to the end, and until the end some event
  // does: no reachable state is stuck.
  lemma ProgressAlways(s: State, e: Event)
    requires Inv(s)
    ensures Next(s, e) == s || Distance(Next(s, e).a) + Distance(Next(s, e).b) < Distance(s.a) + Distance(s.b)
    ensures !Over(s) ==> Next(s, StepA) != s || Next(s, StepB) != s || (Next(s, AbortA) != s && Next(s, AbortB) != s)
  {
  }

  // ----- The driver's counters -----

  class Barrier {
    var arrivals: nat
    var released: bool

    constructor ()
      ensures arrivals == 0 && !released
    {
      arrivals, released := 0, false;
    }

    // The caller goes on as soon as the second arrival has released the barrier.
    method Arrive() returns (open: bool)
      requires released <==> arrivals >= 2
      modifies this
      ensures arrivals == old(arrivals) + 1 && (released <==> arrivals >= 2)
      ensures open == (old(arrivals) + 1 >= 2)
    {
      arrivals := arrivals + 1;
      if arrivals == 2 {
        released := true;
      }
      open := released;
    }
  }
}
