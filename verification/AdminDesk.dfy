/** The admin tables as they are updated in place: every service call and every transaction of an
  * apply call performs its protocol step, keeps the protocol invariant, and gives its caller what the
  * step is for.
  */
module AdminDesk {
  import opened Wrappers
  import opened Economy
  import opened AdminProtocol
  import opened AdminSafety
  import opened AdminGates
  import opened AdminCompensation

  // ----- What each step gives its caller -----

  lemma StepReachable(opening: map<Account, nat>, s: State, e: Event)
    requires Reachable(opening, s)
    ensures Reachable(opening, Next(s, e))
  {
    var registry, es :| s == Run(Initial(registry, opening), es);
    RunAppend(Initial(registry, opening), es, [e]);
    assert [e][1..] == [];
    assert Next(s, e) == Run(Initial(registry, opening), es + [e]);
  }

  lemma GatedAt(opening: map<Account, nat>, s: State, id: OpId)
    requires Reachable(opening, s) && id < |s.ops|
    ensures OpGated(s.ops[id], id, s.confirmations, s.approvals)
  {
    ReachableInv(opening, s);
  }

  // A step of an operation leaves it settled or at its first open gate.
  ghost predicate WellPlaced(s: State, id: OpId) {
    id < |s.ops| && (Settled(s.ops[id]) || AtFirstOpenGate(s, id))
  }

  lemma StepPlaces(opening: map<Account, nat>, s: State, e: Event, id: OpId)
    requires Reachable(opening, s) && id < |Next(s, e).ops|
    ensures WellPlaced(Next(s, e), id)
  {
    StepReachable(opening, s, e);
    if !Settled(Next(s, e).ops[id]) {
      ReadyIffGatesPassed(opening, Next(s, e), id);
    }
  }

  // A request that was not refused has its operation under its key, and repeating it replays.
  ghost predicate PreparedAs(t: State, proposer: Principal, key: nat, input: Input, reason: Option<nat>) {
    && key in t.keys && t.keys[key] < |t.ops|
    && t.ops[t.keys[key]].fingerprint
       == Fingerprint(proposer,
                      if input.Compensate? then t.registry.compensation
                      else if input.account.Item? then t.registry.inventory else t.registry.wallet,
                      input, reason)
    && Prepare(t, proposer, key, input, reason, true) == (t, Replayed)
  }

  lemma PrepareGives(s: State, proposer: Principal, key: nat, input: Input, reason: Option<nat>, allowed: bool)
    ensures var (t, outcome) := Prepare(s, proposer, key, input, reason, allowed);
            && (!outcome.Refused? ==> PreparedAs(t, proposer, key, input, reason))
            && (outcome.Accepted? <==>
                  allowed && key !in s.keys && (DefinitionFor(s.registry, input).policy.requiresReason ==> reason.Some?))
  {
  }

  lemma PreparePlaces(opening: map<Account, nat>, s: State, proposer: Principal, key: nat, input: Input, reason: Option<nat>, allowed: bool)
    requires Reachable(opening, s)
    ensures var (t, outcome) := Prepare(s, proposer, key, input, reason, allowed);
            !outcome.Refused? ==> WellPlaced(t, t.keys[key])
  {
    var (t, outcome) := Prepare(s, proposer, key, input, reason, allowed);
    if !outcome.Refused? {
      PrepareGives(s, proposer, key, input, reason, allowed);
      StepPlaces(opening, s, DoPrepare(proposer, key, input, reason, allowed), t.keys[key]);
    }
  }

  // Only the proposer of an undrifted operation simulates, once, and the simulation gate is then passed.
  lemma SimulateGives(opening: map<Account, nat>, s: State, id: OpId, actor: Principal, allowed: bool)
    requires Reachable(opening, s)
    ensures var (t, outcome) := Simulate(s, id, actor, allowed);
            !outcome.Refused? ==>
              && id < |s.ops| && |t.ops| == |s.ops| && actor == s.ops[id].proposer && !Drifted(s, s.ops[id])
              && SimulationDone(t.ops[id]) && WellPlaced(t, id)
              && Simulate(t, id, actor, allowed) == (t, Refused(InvalidState))
  {
    if Simulate(s, id, actor, allowed).1.Accepted? {
      var t := Simulate(s, id, actor, allowed).0;
      assert Drifted(t, t.ops[id]) == Drifted(s, s.ops[id]);
      StepPlaces(opening, s, DoSimulate(id, actor, allowed), id);
    }
  }

  // Only the proposer confirms, after simulation; the confirmation stands and repeating it replays.
  lemma ConfirmGives(opening: map<Account, nat>, s: State, id: OpId, actor: Principal, allowed: bool)
    requires Reachable(opening, s)
    ensures var (t, outcome) := Confirm(s, id, actor, allowed);
            !outcome.Refused? ==>
              && id < |s.ops| && |t.ops| == |s.ops| && actor == s.ops[id].proposer
              && SimulationDone(t.ops[id]) && ConfirmationDone(t.ops[id], id, t.confirmations) && WellPlaced(t, id)
              && Confirm(t, id, actor, allowed) == (t, Replayed)
  {
    var (t, outcome) := Confirm(s, id, actor, allowed);
    if !outcome.Refused? {
      StepReachable(opening, s, DoConfirm(id, actor, allowed));
      StepPlaces(opening, s, DoConfirm(id, actor, allowed), id);
      assert Next(s, DoConfirm(id, actor, allowed)) == t;
      GatesPassedInOrder(opening, t, id, actor);
      assert Drifted(t, t.ops[id]) == Drifted(s, s.ops[id]);
    }
  }

  // Nobody approves their own operation, and nobody before simulation and confirmation; the operation is
  // READY only with enough approvals, and repeating an approval replays without counting twice.
  lemma ApproveGives(opening: map<Account, nat>, s: State, id: OpId, actor: Principal, allowed: bool, blank: bool)
    requires Reachable(opening, s)
    ensures var (t, outcome) := Approve(s, id, actor, allowed, blank);
            !outcome.Refused? ==>
              && id < |s.ops| && |t.ops| == |s.ops| && actor != s.ops[id].proposer
              && SimulationDone(t.ops[id]) && ConfirmationDone(t.ops[id], id, t.confirmations)
              && WellPlaced(t, id)
              && Approve(t, id, actor, allowed, blank) == (t, Replayed)
  {
    var (t, outcome) := Approve(s, id, actor, allowed, blank);
    if !outcome.Refused? {
      StepReachable(opening, s, DoApprove(id, actor, allowed, blank));
      StepPlaces(opening, s, DoApprove(id, actor, allowed, blank), id);
      assert Next(s, DoApprove(id, actor, allowed, blank)) == t;
      GatesPassedInOrder(opening, t, id, actor);
      assert Drifted(t, t.ops[id]) == Drifted(s, s.ops[id]);
    }
  }

  // An apply call is let in only on a READY, undrifted operation that has passed all its gates.
  lemma BeginGives(opening: map<Account, nat>, s: State, call: CallId, id: OpId, actor: Principal, allowed: bool)
    requires Reachable(opening, s)
    ensures var (t, outcome) := Begin(s, call, id, actor, allowed);
            outcome.Accepted? ==>
              && Actionable(t, id) && t.ops == s.ops && s.ops[id].status == Ready && !Drifted(s, s.ops[id])
              && SimulationDone(s.ops[id]) && ConfirmationDone(s.ops[id], id, s.confirmations)
              && ApprovalsDone(s.ops[id], id, s.approvals)
  {
    if Begin(s, call, id, actor, allowed).1.Accepted? {
      GatedAt(opening, s, id);
    }
  }

  lemma OwnedOnce(opening: map<Account, nat>, s: State, id: OpId)
    requires Reachable(opening, s) && id < |s.ops| && Resolvable(s.ops, id) && CommittedRow(s, id).Some?
    ensures Owned(s.book.rows, id) == 1
  {
    EachOperationOnce(opening, s, id);
    OwnedBounds(s.book.rows, id);
    FindExact(s.book.rows, ScopeOf(Effect(s.ops, id).0, Effect(s.ops, id).1), AdminOperation(id));
    var k :| 0 <= k < |s.book.rows| && s.book.rows[k] == CommittedRow(s, id).value;
  }

  lemma CallAt(opening: map<Account, nat>, s: State, call: CallId)
    requires Reachable(opening, s) && call in s.calls
    ensures CallSound(s, s.calls[call])
  {
    ReachableInv(opening, s);
  }

  // After the owner's transaction the operation has exactly one ledger row and the call its original
  // balances; a refusal and a replay leave the ledger as it was.
  lemma CommitGives(opening: map<Account, nat>, s: State, call: CallId)
    requires Reachable(opening, s)
    ensures var (t, outcome) := OwnerCommit(s, call);
            && Reachable(opening, t)
            && (!outcome.Accepted? ==> t.book == s.book)
            && (!outcome.Refused? ==> call in t.calls && CommittedOnce(t, t.calls[call]) && t.calls[call].op == s.calls[call].op)
  {
    var (t, outcome) := OwnerCommit(s, call);
    StepReachable(opening, s, DoOwnerCommit(call));
    assert Next(s, DoOwnerCommit(call)) == t;
    if !outcome.Refused? {
      CallAt(opening, t, call);
      OwnedOnce(opening, t, s.calls[call].op);
    }
  }

  // The call's operation has exactly one ledger row, and the call holds the balances around it.
  ghost predicate CommittedOnce(t: State, c: Call) {
    c.Committed? && Backed(t, c.op, c.before, c.after) && Owned(t.book.rows, c.op) == 1
  }

  // A settled operation has exactly one row, one change and one audit; a settled compensation its one
  // relation and a COMPENSATED source.
  ghost predicate SettledOnce(t: State, id: OpId) {
    && id < |t.ops| && Settled(t.ops[id])
    && Owned(t.book.rows, id) == 1 == CountOp(t.changes, id) == CountOp(t.audits, id)
    && (t.ops[id].input.Compensate? ==>
          var source := t.ops[id].input.source;
          && source < |t.ops| && t.ops[source].status == Compensated
          && CountSource(t.relations, source) == 1 && Relation(source, id) in t.relations)
  }

  lemma SettledGives(opening: map<Account, nat>, s: State, id: OpId)
    requires Reachable(opening, s) && id < |s.ops| && Settled(s.ops[id])
    ensures SettledOnce(s, id)
  {
    EachOperationOnce(opening, s, id);
    OwnedBounds(s.book.rows, id);
    var k :| OriginalRow(opening, s, id, k);
    if s.ops[id].input.Compensate? {
      RelationsAt(opening, s);
      RelationGives(s.ops, s.relations, id);
    }
  }

  lemma RelationsAt(opening: map<Account, nat>, s: State)
    requires Reachable(opening, s)
    ensures RelationsSound(s.ops, s.relations)
  {
    ReachableInv(opening, s);
  }

  lemma RelationGives(ops: seq<Operation>, relations: seq<Relation>, id: OpId)
    requires RelationsSound(ops, relations) && id < |ops| && Settled(ops[id]) && ops[id].input.Compensate?
    ensures var source := ops[id].input.source;
            source < |ops| && Relation(source, id) in relations && ops[source].status == Compensated && CountSource(relations, source) == 1
  {
    if ops[id].status == Compensated {
      CountSourcePositive(relations, id);
    }
    var source := ops[id].input.source;
    assert Relation(source, id) in relations;
    assert RelationSound(ops, Relation(source, id));
    CountSourcePositive(relations, source);
  }

  // A completion that is not refused leaves its operation settled once; it never moves a balance.
  lemma CompleteGives(opening: map<Account, nat>, s: State, call: CallId)
    requires Reachable(opening, s)
    ensures var (t, outcome) := Complete(s, call);
            && Reachable(opening, t)
            && (!outcome.Refused? ==> call in s.calls && t.book == s.book && SettledOnce(t, s.calls[call].op))
  {
    var (t, outcome) := Complete(s, call);
    StepReachable(opening, s, DoComplete(call));
    assert Next(s, DoComplete(call)) == t;
    if !outcome.Refused? {
      CompletedSettles(s, call);
      SettledGives(opening, t, s.calls[call].op);
    }
  }

  lemma CompletedSettles(s: State, call: CallId)
    requires !Complete(s, call).1.Refused?
    ensures var t := Complete(s, call).0;
            call in s.calls && t.book == s.book && s.calls[call].op < |t.ops| && Settled(t.ops[s.calls[call].op])
  {
  }

  class Desk {
    ghost const opening: map<Account, nat>
    var registry: Registry
    var ops: seq<Operation>
    var keys: map<nat, OpId>
    var confirmations: map<(OpId, Principal), Fingerprint>
    var approvals: map<(OpId, Principal), Fingerprint>
    var balances: map<Account, nat>
    var rows: seq<Row>
    var changes: seq<Evidence>
    var audits: seq<Evidence>
    var relations: seq<Relation>
    var calls: map<CallId, Call>

    ghost function Contents(): State
      reads this
    {
      State(registry, ops, keys, confirmations, approvals, Book(balances, rows), changes, audits, relations, calls)
    }

    ghost predicate Valid()
      reads this
    {
      Reachable(opening, Contents())
    }

    constructor (registry: Registry, opening: map<Account, nat>)
      requires forall a :: a in opening ==> opening[a] <= BIGINT_MAX
      ensures Contents() == Initial(registry, opening) && this.opening == opening && Valid()
    {
      assert Run(Initial(registry, opening), []) == Initial(registry, opening);
      this.opening := opening;
      this.registry := registry;
      ops, keys, confirmations, approvals := [], map[], map[], map[];
      balances, rows, changes, audits, relations, calls := opening, [], [], [], [], map[];
    }

    method PrepareMutation(proposer: Principal, key: nat, input: Input, reason: Option<nat>, allowed: bool)
      returns (outcome: Outcome)
      requires Valid()
      modifies `ops, `keys
      ensures (Contents(), outcome) == Prepare(old(Contents()), proposer, key, input, reason, allowed)
      ensures Valid()
      ensures !outcome.Refused? ==> PreparedAs(Contents(), proposer, key, input, reason) && WellPlaced(Contents(), keys[key])
      ensures outcome.Accepted? <==>
                allowed && key !in old(keys) && (DefinitionFor(registry, input).policy.requiresReason ==> reason.Some?)
    {
      PrepareGives(Contents(), proposer, key, input, reason, allowed);
      PreparePlaces(opening, Contents(), proposer, key, input, reason, allowed);
      StepReachable(opening, Contents(), DoPrepare(proposer, key, input, reason, allowed));
      if !allowed {
        return Refused(AuthorizationDenied);
      }
      var definition := DefinitionFor(registry, input);
      if definition.policy.requiresReason && reason == None {
        return Refused(ReasonRequired);
      }
      var fingerprint := FingerprintOf(registry, proposer, input, reason);
      if key in keys {
        if keys[key] < |ops| && ops[keys[key]].fingerprint == fingerprint {
          return Replayed;
        }
        return Refused(IdempotencyConflict);
      }
      keys := keys[key := |ops|];
      ops := ops + [Operation(proposer, input, reason, definition, fingerprint, AfterValidation(definition.policy), false, 0)];
      outcome := Accepted;
    }

    method SimulateOperation(id: OpId, actor: Principal, allowed: bool) returns (outcome: Outcome)
      requires Valid()
      modifies `ops
      ensures (Contents(), outcome) == Simulate(old(Contents()), id, actor, allowed)
      ensures Valid()
      ensures !outcome.Refused? ==>
                && id < |ops| && actor == ops[id].proposer && SimulationDone(ops[id]) && WellPlaced(Contents(), id)
                && Simulate(Contents(), id, actor, allowed) == (Contents(), Refused(InvalidState))
    {
      SimulateGives(opening, Contents(), id, actor, allowed);
      StepReachable(opening, Contents(), DoSimulate(id, actor, allowed));
      if id >= |ops| {
        return Refused(NotFound);
      }
      var op := ops[id];
      if op.proposer != actor {
        return Refused(AuthorizationDenied);
      }
      if SnapshotDiffers(op) {
        return Refused(PolicyDrift);
      }
      if !allowed {
        return Refused(AuthorizationDenied);
      }
      if op.status != Validated {
        return Refused(InvalidState);
      }
      ops := ops[id := op.(status := AfterSimulation(op.definition.policy), revision := op.revision + 1, simulated := true)];
      outcome := Accepted;
    }

    predicate SnapshotDiffers(op: Operation)
      reads this
      ensures SnapshotDiffers(op) == Drifted(Contents(), op)
    {
      || op.definition != DefinitionFor(registry, op.input)
      || op.fingerprint != FingerprintOf(registry, op.proposer, op.input, op.reason)
    }

    method ConfirmOperation(id: OpId, actor: Principal, allowed: bool) returns (outcome: Outcome)
      requires Valid()
      modifies `ops, `confirmations
      ensures (Contents(), outcome) == Confirm(old(Contents()), id, actor, allowed)
      ensures Valid()
      ensures !outcome.Refused? ==>
                && id < |ops| && actor == ops[id].proposer
                && SimulationDone(ops[id]) && ConfirmationDone(ops[id], id, confirmations) && WellPlaced(Contents(), id)
                && Confirm(Contents(), id, actor, allowed) == (Contents(), Replayed)
    {
      ConfirmGives(opening, Contents(), id, actor, allowed);
      StepReachable(opening, Contents(), DoConfirm(id, actor, allowed));
      if id >= |ops| {
        return Refused(NotFound);
      }
      var op := ops[id];
      if op.proposer != actor {
        return Refused(AuthorizationDenied);
      }
      if SnapshotDiffers(op) {
        return Refused(PolicyDrift);
      }
      if !allowed {
        return Refused(AuthorizationDenied);
      }
      if (id, actor) in confirmations {
        return if confirmations[(id, actor)] != op.fingerprint then Refused(IdempotencyConflict) else Replayed;
      }
      if op.status != PendingConfirmation {
        return Refused(InvalidState);
      }
      confirmations := confirmations[(id, actor) := op.fingerprint];
      var next := if op.definition.policy.requiredApprovals > 0 then PendingApproval else Ready;
      ops := ops[id := op.(status := next, revision := op.revision + 1)];
      outcome := Accepted;
    }

    method ApproveOperation(id: OpId, actor: Principal, allowed: bool, reasonBlank: bool) returns (outcome: Outcome)
      requires Valid()
      modifies `ops, `approvals
      ensures (Contents(), outcome) == Approve(old(Contents()), id, actor, allowed, reasonBlank)
      ensures Valid()
      ensures !outcome.Refused? ==>
                && id < |ops| && actor != ops[id].proposer
                && SimulationDone(ops[id]) && ConfirmationDone(ops[id], id, confirmations)
                && WellPlaced(Contents(), id)
                && Approve(Contents(), id, actor, allowed, reasonBlank) == (Contents(), Replayed)
    {
      ApproveGives(opening, Contents(), id, actor, allowed, reasonBlank);
      StepReachable(opening, Contents(), DoApprove(id, actor, allowed, reasonBlank));
      if id >= |ops| {
        return Refused(NotFound);
      }
      var op := ops[id];
      if op.proposer == actor {
        return Refused(SelfApproval);
      }
      if SnapshotDiffers(op) {
        return Refused(PolicyDrift);
      }
      if !allowed {
        return Refused(AuthorizationDenied);
      }
      if reasonBlank {
        return Refused(InvalidInput);
      }
      if (id, actor) in approvals {
        return if approvals[(id, actor)] != op.fingerprint then Refused(IdempotencyConflict) else Replayed;
      }
      if op.status != PendingApproval {
        return Refused(InvalidState);
      }
      approvals := approvals[(id, actor) := op.fingerprint];
      var count := |Approvers(approvals, id, op.proposer, op.fingerprint)|;
      var next := if count >= op.definition.policy.requiredApprovals then Ready else PendingApproval;
      ops := ops[id := op.(status := next, revision := op.revision + 1)];
      outcome := Accepted;
    }

    // The reads of an apply call, before anything is written for it.
    method BeginApply(call: CallId, id: OpId, actor: Principal, allowed: bool) returns (outcome: Outcome)
      requires Valid()
      modifies `calls
      ensures (Contents(), outcome) == Begin(old(Contents()), call, id, actor, allowed)
      ensures Valid()
      ensures outcome.Accepted? ==>
                && Actionable(Contents(), id) && ops[id].status == Ready && !Drifted(Contents(), ops[id])
                && SimulationDone(ops[id]) && ConfirmationDone(ops[id], id, confirmations) && ApprovalsDone(ops[id], id, approvals)
    {
      BeginGives(opening, Contents(), call, id, actor, allowed);
      StepReachable(opening, Contents(), DoBegin(call, id, actor, allowed));
      if id >= |ops| {
        return Refused(NotFound);
      }
      var op := ops[id];
      if op.status == Applied {
        return Replayed;
      }
      if SnapshotDiffers(op) {
        return Refused(PolicyDrift);
      }
      if !allowed {
        return Refused(AuthorizationDenied);
      }
      if op.status != Ready {
        return Refused(InvalidState);
      }
      if op.input.Compensate? {
        if op.input.source >= |ops| {
          return Refused(NotFound);
        }
        var source := ops[op.input.source];
        if TargetPlayer(source.input) != op.input.player {
          return Refused(AuthorizationDenied);
        }
        if source.status != Applied {
          return Refused(InvalidState);
        }
        if source.input.Compensate? {
          return Refused(NotCompensatable);
        }
      }
      if op.reason == None {
        return Refused(ReasonRequired);
      }
      if call in calls {
        return Refused(CallInUse);
      }
      calls := calls[call := Gated(id, actor)];
      outcome := Accepted;
    }

    // The owner's transaction on behalf of an apply call in flight.
    method CommitOwner(call: CallId) returns (outcome: Outcome)
      requires Valid()
      modifies `balances, `rows, `calls
      ensures (Contents(), outcome) == OwnerCommit(old(Contents()), call)
      ensures Valid()
      ensures !outcome.Accepted? ==> balances == old(balances) && rows == old(rows)
      ensures !outcome.Refused? ==>
                call in calls && CommittedOnce(Contents(), calls[call]) && calls[call].op == old(calls)[call].op
    {
      CommitGives(opening, Contents(), call);
      if !(call in calls && calls[call].Gated? && Resolvable(ops, calls[call].op)) {
        return Refused(NoSuchCall);
      }
      var c := calls[call];
      var m := OwnerRequest(ops, c.op);
      var (book, reply) := Mutate(Book(balances, rows), m);
      if reply.Rejected? {
        calls := calls - {call};
        return Refused(AdminError.Rejected(reply.error));
      }
      balances, rows := book.balances, book.rows;
      calls := calls[call := Committed(c.op, c.actor, reply.balance - m.delta, reply.balance)];
      outcome := if reply.replayed then Replayed else Accepted;
    }

    // One change, one audit row, and the operation APPLIED.
    method WriteEvidence(c: Call)
      requires c.Committed? && c.op < |ops|
      modifies `ops, `changes, `audits
      ensures Contents() == RecordEvidence(old(Contents()), c)
    {
      var e := Evidence(c.op, c.actor, c.before, c.after);
      changes := changes + [e];
      audits := audits + [e];
      ops := ops[c.op := ops[c.op].(status := Applied, revision := ops[c.op].revision + 1)];
    }

    // The relation, and its source COMPENSATED.
    method WriteRelation(r: Relation)
      requires r.source < |ops|
      modifies `ops, `relations
      ensures Contents() == RecordRelation(old(Contents()), r)
    {
      relations := relations + [r];
      ops := ops[r.source := ops[r.source].(status := Compensated, revision := ops[r.source].revision + 1)];
    }

    // The evidence transaction of an ordinary operation: afterwards it is settled once, or refused.
    method CompleteAppliedOperation(call: CallId) returns (outcome: Outcome)
      requires Valid() && call in calls && calls[call].Committed? && calls[call].op < |ops| && ops[calls[call].op].input.Adjust?
      modifies `ops, `changes, `audits, `calls
      ensures (Contents(), outcome) == Complete(old(Contents()), call)
      ensures Valid()
      ensures !outcome.Refused? ==> SettledOnce(Contents(), old(calls)[call].op)
    {
      CompleteGives(opening, Contents(), call);
      var c := calls[call];
      calls := calls - {call};
      if ops[c.op].status == Applied {
        return Replayed;
      }
      if ops[c.op].status != Ready {
        return Refused(InvalidState);
      }
      WriteEvidence(c);
      outcome := Accepted;
    }

    // The evidence transaction of a compensation: both operations are locked and re-read; afterwards the
    // compensation is settled once with its one relation, or refused.
    method CompleteCompensatingOperation(call: CallId) returns (outcome: Outcome)
      requires Valid() && call in calls && calls[call].Committed? && calls[call].op < |ops| && ops[calls[call].op].input.Compensate?
      modifies `ops, `changes, `audits, `relations, `calls
      ensures (Contents(), outcome) == Complete(old(Contents()), call)
      ensures Valid()
      ensures !outcome.Refused? ==> SettledOnce(Contents(), old(calls)[call].op)
    {
      CompleteGives(opening, Contents(), call);
      CallAt(opening, Contents(), call);
      var c := calls[call];
      var source := ops[c.op].input.source;
      calls := calls - {call};
      if ops[c.op].status == Applied {
        return if Relation(source, c.op) in relations && ops[source].status == Compensated then Replayed
               else Refused(InvalidState);
      }
      if ops[c.op].status != Ready || ops[source].status != Applied || HasRelation(relations, source) {
        return Refused(InvalidState);
      }
      WriteEvidence(c);
      WriteRelation(Relation(source, c.op));
      outcome := Accepted;
    }

    // A whole apply call with nothing in between: the status reads, the owner, the evidence. If it is not
    // refused, the operation is settled, once.
    method ApplyOperation(call: CallId, id: OpId, actor: Principal, allowed: bool) returns (outcome: Outcome)
      requires Valid() && call !in calls
      modifies this
      ensures Valid()
      ensures !outcome.Refused? ==> SettledOnce(Contents(), id)
    {
      outcome := BeginApply(call, id, actor, allowed);
      if outcome.Refused? {
        return;
      }
      if outcome.Replayed? {
        SettledGives(opening, Contents(), id);
        return;
      }
      outcome := CommitOwner(call);
      if outcome.Refused? {
        return;
      }
      if ops[calls[call].op].input.Adjust? {
        outcome := CompleteAppliedOperation(call);
      } else {
        outcome := CompleteCompensatingOperation(call);
      }
    }
  }
}
