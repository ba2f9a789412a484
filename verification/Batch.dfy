/** Admin batches: frozen targets, one child operation per target, attempts, crashes and resumption,
  * for any number of concurrent runners.
  */
module Batch {
  import opened Wrappers
  import opened Economy

  type Ordinal = nat
  type RunnerId = nat

  // ----- Data model -----

  datatype TargetStatus = Pending | Succeeded | Failed

  datatype Target = Target(account: Account, delta: int, status: TargetStatus, attempts: nat)

  // The child operation of a target, unique by its idempotency key batch:<id>:<ordinal>.
  datatype Child = Absent | Prepared | Applied

  // Where a runner stands with the target it took from its loaded chunk.
  // Committed: the owner has the child's mutation, its evidence is not written yet.
  datatype Work =
    | Taken(i: Ordinal) | Attempted(i: Ordinal) | ChildReady(i: Ordinal) | Committed(i: Ordinal)
    | Answered(i: Ordinal, ok: bool)

  datatype BatchStatus = Previewed | Running | Completed | CompletedWithErrors

  datatype State = State(book: Book, targets: seq<Target>, children: seq<Child>, runners: map<RunnerId, Work>,
                         status: BatchStatus, executor: Option<nat>, revision: nat, checkpoint: int,
                         succeeded: nat, failed: nat)

  datatype Outcome = Done | ReplayedTerminal | RevisionConflict | IdempotencyConflict | Refused

  // The child's owner mutation is keyed by the target, so it cannot be repeated.
  function Request(t: Target, i: Ordinal): Mutation {
    Mutation(t.account, t.delta, AdminOperation(i), 0)
  }

  function Requests(targets: seq<Target>): seq<Mutation> {
    seq(|targets|, i requires 0 <= i < |targets| => Request(targets[i], i))
  }

  function Count(targets: seq<Target>, status: TargetStatus): nat {
    if targets == [] then 0
    else Count(targets[..|targets| - 1], status) + if targets[|targets| - 1].status == status then 1 else 0
  }

  function FirstPending(targets: seq<Target>, i: nat): nat
    decreases |targets| - i
  {
    if i >= |targets| || targets[i].status.Pending? then i else FirstPending(targets, i + 1)
  }

  function Freeze(book: Book, plan: seq<(Account, int)>): State {
    State(book, seq(|plan|, i requires 0 <= i < |plan| => Target(plan[i].0, plan[i].1, Pending, 0)),
          seq(|plan|, i => Absent), map[], Previewed, None, 0, -1, 0, 0)
  }

  // ----- Transactions -----

  function ClaimExecution(s: State, operation: nat, expectedRevision: nat): (State, Outcome) {
    if s.status in {Completed, CompletedWithErrors} then
      (s, if s.executor != Some(operation) then IdempotencyConflict else ReplayedTerminal)
    else if s.revision != expectedRevision then (s, RevisionConflict)
    else if s.executor.Some? && s.executor != Some(operation) then (s, IdempotencyConflict)
    else if s.status.Previewed? then (s.(executor := Some(operation), status := Running), Done)
    else (s, Done)
  }

  function Take(s: State, r: RunnerId, i: Ordinal): State {
    if s.status.Previewed? || i >= |s.targets| || r in s.runners then s else s.(runners := s.runners[r := Taken(i)])
  }

  // The next thing a runner does with its target.
  function Advance(s: State, r: RunnerId): State {
    if r !in s.runners || s.runners[r].i >= |s.targets| || |s.children| != |s.targets| then s
    else
      var i := s.runners[r].i;
      match s.runners[r]
      case Taken(_) =>
        var target := s.targets[i];
        s.(targets := if target.status.Pending? then s.targets[i := target.(attempts := target.attempts + 1)] else s.targets,
           runners := s.runners[r := Attempted(i)])
      case Attempted(_) =>
        s.(children := if s.children[i].Absent? then s.children[i := Child.Prepared] else s.children,
           runners := s.runners[r := ChildReady(i)])
      case ChildReady(_) => CommitChild(s, r, i)
      case Committed(_) => CompleteChild(s, i).(runners := s.runners[r := Answered(i, true)])
      case Answered(_, ok) => Record(s, i, ok).(runners := s.runners - {r})
  }

  // The owner's transaction: an applied child answers from its record, any other asks the keyed owner.
  function CommitChild(s: State, r: RunnerId, i: Ordinal): State
    requires i < |s.targets| == |s.children|
  {
    if s.children[i].Applied? then s.(runners := s.runners[r := Answered(i, true)])
    else
      var (book, reply) := Mutate(s.book, Request(s.targets[i], i));
      s.(book := book, runners := s.runners[r := if reply.Ok? then Committed(i) else Answered(i, false)])
  }

  // The child's evidence transaction.
  function CompleteChild(s: State, i: Ordinal): State
    requires i < |s.targets| == |s.children|
  {
    s.(children := s.children[i := Child.Applied])
  }

  // Only a target that is still PENDING takes a result.
  function Record(s: State, i: Ordinal, ok: bool): State
    requires i < |s.targets|
  {
    if s.targets[i].status.Pending? then
      s.(targets := s.targets[i := s.targets[i].(status := if ok then Succeeded else Failed)])
    else s
  }

  function RefreshProgress(s: State): State {
    if !s.status.Running? then s
    else
      var first := FirstPending(s.targets, 0);
      var terminal := first == |s.targets|;
      var failures := Count(s.targets, Failed);
      s.(checkpoint := first - 1, succeeded := Count(s.targets, Succeeded), failed := failures,
         status := if !terminal then Running else if failures == 0 then Completed else CompletedWithErrors,
         revision := if terminal then s.revision + 1 else s.revision)
  }

  datatype Event =
    | DoClaim(operation: nat, expectedRevision: nat)
    | DoTake(r: RunnerId, i: Ordinal)
    | DoAdvance(r: RunnerId)
    | Refresh
    | Crash(r: RunnerId)
    | Intervene(account: Account, delta: int, key: nat)

  function Next(s: State, e: Event): State {
    match e
    case DoClaim(operation, expectedRevision) => ClaimExecution(s, operation, expectedRevision).0
    case DoTake(r, i) => Take(s, r, i)
    case DoAdvance(r) => Advance(s, r)
    case Refresh => RefreshProgress(s)
    case Crash(r) => s.(runners := s.runners - {r})
    case Intervene(account, delta, key) => s.(book := Apply(s.book, Mutation(account, delta, Gameplay(key), 0)))
  }

  function Run(s: State, es: seq<Event>): State
    decreases |es|
  {
    if es == [] then s else Run(Next(s, es[0]), es[1..])
  }

  lemma {:induction false} FirstPendingExact(targets: seq<Target>, i: nat)
    requires i <= |targets|
    ensures i <= FirstPending(targets, i) <= |targets|
    ensures forall k :: i <= k < FirstPending(targets, i) ==> !targets[k].status.Pending?
    ensures FirstPending(targets, i) < |targets| ==> targets[FirstPending(targets, i)].status.Pending?
    decreases |targets| - i
  {
    if i < |targets| && !targets[i].status.Pending? {
      FirstPendingExact(targets, i + 1);
    }
  }

  lemma {:induction false} CountsSum(targets: seq<Target>)
    ensures Count(targets, Pending) + Count(targets, Succeeded) + Count(targets, Failed) == |targets|
    ensures Count(targets, Pending) == 0 <==> forall i :: 0 <= i < |targets| ==> !targets[i].status.Pending?
    ensures Count(targets, Failed) == 0 <==> forall i :: 0 <= i < |targets| ==> !targets[i].status.Failed?
  {
    if targets != [] {
      var front := targets[..|targets| - 1];
      CountsSum(front);
      assert forall i :: 0 <= i < |front| ==> front[i] == targets[i];
    }
  }
}
