/** Safety of the admin protocol over all runs: gates in order, at most one ledger row and one piece
  * of evidence per operation, evidence of the original commit, one-shot compensation.
  */
module AdminSafety {
  import opened Wrappers
  import opened Economy
  import opened AdminProtocol

  // ----- Counting rows -----

  function CountOp(es: seq<Evidence>, id: OpId): nat {
    if es == [] then 0
    else CountOp(es[..|es| - 1], id) + if es[|es| - 1].op == id then 1 else 0
  }

  function CountSource(rs: seq<Relation>, id: OpId): nat {
    if rs == [] then 0
    else CountSource(rs[..|rs| - 1], id) + if rs[|rs| - 1].source == id then 1 else 0
  }

  lemma CountOpAppend(es: seq<Evidence>, e: Evidence, id: OpId)
    ensures CountOp(es + [e], id) == CountOp(es, id) + if e.op == id then 1 else 0
  {
    assert (es + [e])[..|es|] == es;
  }

  lemma CountSourceAppend(rs: seq<Relation>, r: Relation, id: OpId)
    ensures CountSource(rs + [r], id) == CountSource(rs, id) + if r.source == id then 1 else 0
  {
    assert (rs + [r])[..|rs|] == rs;
  }

  lemma {:induction false} CountOpPositive(es: seq<Evidence>, id: OpId)
    ensures CountOp(es, id) > 0 <==> exists i :: 0 <= i < |es| && es[i].op == id
  {
    if es != [] {
      CountOpPositive(es[..|es| - 1], id);
      if es[|es| - 1].op != id && CountOp(es, id) > 0 {
        var i :| 0 <= i < |es[..|es| - 1]| && es[..|es| - 1][i].op == id;
        assert es[i].op == id;
      }
    }
  }

  lemma {:induction false} CountSourcePositive(rs: seq<Relation>, id: OpId)
    ensures CountSource(rs, id) > 0 <==> exists r :: r in rs && r.source == id
  {
    if rs != [] {
      CountSourcePositive(rs[..|rs| - 1], id);
      assert rs == rs[..|rs| - 1] + [rs[|rs| - 1]];
    }
  }

  // ----- Invariant -----

  function Rank(status: Status): nat {
    match status
    case Validated => 0
    case PendingConfirmation => 1
    case PendingApproval => 2
    case Ready => 3
    case Applied => 4
    case Compensated => 5
  }

  predicate Passed(op: Operation) { Rank(op.status) >= 3 }
  predicate Settled(op: Operation) { Rank(op.status) >= 4 }

  predicate SimulationDone(op: Operation) {
    op.definition.policy.requiresSimulation ==> op.simulated
  }

  type Signatures = map<(OpId, Principal), Fingerprint>

  predicate ConfirmationDone(op: Operation, id: OpId, confirmations: Signatures) {
    op.definition.policy.requiresConfirmation ==>
      (id, op.proposer) in confirmations && confirmations[(id, op.proposer)] == op.fingerprint
  }

  predicate ApprovalsDone(op: Operation, id: OpId, approvals: Signatures) {
    |Approvers(approvals, id, op.proposer, op.fingerprint)| >= op.definition.policy.requiredApprovals
  }

  // The first gate of its own snapshot that an operation has not passed.
  function OpenGate(op: Operation, id: OpId, confirmations: Signatures, approvals: Signatures): Status {
    if !SimulationDone(op) then Validated
    else if !ConfirmationDone(op, id, confirmations) then PendingConfirmation
    else if !ApprovalsDone(op, id, approvals) then PendingApproval
    else Ready
  }

  // An unsettled operation waits exactly at its first open gate; a settled one has passed them all.
  predicate OpGated(op: Operation, id: OpId, confirmations: Signatures, approvals: Signatures) {
    && op.fingerprint == Fingerprint(op.proposer, op.definition, op.input, op.reason)
    && (if Settled(op) then Ready else op.status) == OpenGate(op, id, confirmations, approvals)
  }

  ghost predicate GatesSound(ops: seq<Operation>, confirmations: Signatures, approvals: Signatures) {
    && (forall id :: 0 <= id < |ops| ==> OpGated(ops[id], id, confirmations, approvals))
    && (forall k :: k in confirmations ==>
          k.0 < |ops| && k.1 == ops[k.0].proposer && Rank(ops[k.0].status) >= 2 && confirmations[k] == ops[k.0].fingerprint)
    && (forall k :: k in approvals ==>
          k.0 < |ops| && k.1 != ops[k.0].proposer && Rank(ops[k.0].status) >= 2 && approvals[k] == ops[k.0].fingerprint)
  }

  ghost predicate GateOrder(s: State) {
    GatesSound(s.ops, s.confirmations, s.approvals)
  }

  // An operation that an apply call has been allowed to act on.
  ghost predicate Actionable(s: State, id: OpId) {
    && Resolvable(s.ops, id)
    && Passed(s.ops[id])
    && s.ops[id].reason.Some?
    && (s.ops[id].input.Compensate? ==>
          var source := s.ops[s.ops[id].input.source];
          Settled(source) && TargetPlayer(source.input) == s.ops[id].input.player)
  }

  function CommittedRow(s: State, id: OpId): Option<Row>
    requires Resolvable(s.ops, id)
  {
    Find(s.book.rows, ScopeOf(Effect(s.ops, id).0, Effect(s.ops, id).1), AdminOperation(id))
  }

  // The recorded before and after are those of the operation's own ledger row.
  ghost predicate Backed(s: State, id: OpId, before: int, after: int) {
    && Actionable(s, id)
    && CommittedRow(s, id).Some?
    && CommittedRow(s, id).value.balanceAfter == after
    && before == after - Effect(s.ops, id).1
  }

  ghost predicate RowOwned(s: State, row: Row) {
    row.key.AdminOperation? ==>
      && Actionable(s, row.key.id)
      && row.account == Effect(s.ops, row.key.id).0
      && row.delta == Effect(s.ops, row.key.id).1
      && row.audit == s.ops[row.key.id].proposer
  }

  ghost predicate CallSound(s: State, call: Call) {
    match call
    case Gated(id, _) => Actionable(s, id)
    case Committed(id, _, before, after) => Backed(s, id, before, after)
  }

  ghost predicate EvidenceSound(s: State) {
    && s.audits == s.changes
    && (forall e :: e in s.changes ==> Backed(s, e.op, e.before, e.after))
    && (forall id :: 0 <= id < |s.ops| ==> CountOp(s.changes, id) == if Settled(s.ops[id]) then 1 else 0)
  }

  ghost predicate RelationSound(ops: seq<Operation>, r: Relation) {
    && r.compensation < |ops|
    && ops[r.compensation].input.Compensate?
    && ops[r.compensation].input.source == r.source
    && ops[r.compensation].status == Applied
    && r.source < |ops|
    && ops[r.source].input.Adjust?
  }

  ghost predicate RelationsSound(ops: seq<Operation>, relations: seq<Relation>) {
    && (forall r :: r in relations ==> RelationSound(ops, r))
    && (forall id :: 0 <= id < |ops| ==>
          CountSource(relations, id) == if ops[id].status == Compensated then 1 else 0)
    && (forall id :: 0 <= id < |ops| && ops[id].input.Compensate? && ops[id].status == Applied ==>
          Relation(ops[id].input.source, id) in relations)
  }

  ghost predicate Inv(opening: map<Account, nat>, s: State) {
    && Balanced(opening, s.book)
    && GateOrder(s)
    && (forall i :: 0 <= i < |s.book.rows| ==> RowOwned(s, s.book.rows[i]))
    && (forall c :: c in s.calls ==> CallSound(s, s.calls[c]))
    && EvidenceSound(s)
    && RelationsSound(s.ops, s.relations)
  }

  // ----- Every step only adds: rows, evidence, relations, and forward status moves -----

  ghost predicate OpEvolves(a: Operation, b: Operation) {
    && a.proposer == b.proposer && a.input == b.input && a.reason == b.reason
    && a.definition == b.definition && a.fingerprint == b.fingerprint
    && Rank(a.status) <= Rank(b.status)
    && (a.simulated ==> b.simulated)
    && a.revision <= b.revision
  }

  ghost predicate Evolves(s: State, t: State) {
    && |s.ops| <= |t.ops|
    && (forall id :: 0 <= id < |s.ops| ==> OpEvolves(s.ops[id], t.ops[id]))
    && s.book.rows <= t.book.rows
    && s.changes <= t.changes
    && s.audits <= t.audits
    && s.relations <= t.relations
  }

  lemma EvolvesTransitive(a: State, b: State, c: State)
    requires Evolves(a, b) && Evolves(b, c)
    ensures Evolves(a, c)
  {
    forall id | 0 <= id < |a.ops| ensures OpEvolves(a.ops[id], c.ops[id]) {
      assert OpEvolves(a.ops[id], b.ops[id]) && OpEvolves(b.ops[id], c.ops[id]);
    }
  }

  lemma AdvanceEvolves(s: State, id: OpId, status: Status)
    requires id < |s.ops| && Rank(s.ops[id].status) <= Rank(status)
    ensures Evolves(s, Advance(s, id, status))
  {
  }

  lemma RecordEvidenceEvolves(s: State, c: Call)
    requires c.Committed? && c.op < |s.ops| && s.ops[c.op].status == Ready
    ensures Evolves(s, RecordEvidence(s, c))
  {
    var e := Evidence(c.op, c.actor, c.before, c.after);
    AdvanceEvolves(s.(changes := s.changes + [e], audits := s.audits + [e]), c.op, Applied);
  }

  lemma RecordRelationEvolves(s: State, r: Relation)
    requires r.source < |s.ops|
    ensures Evolves(s, RecordRelation(s, r))
  {
    AdvanceEvolves(s.(relations := s.relations + [r]), r.source, Compensated);
  }

  lemma CompleteAdjustmentEvolves(s: State, c: Call)
    requires c.Committed? && c.op < |s.ops|
    ensures Evolves(s, CompleteAdjustment(s, c).0)
  {
    if CompleteAdjustment(s, c).1.Accepted? {
      RecordEvidenceEvolves(s, c);
    }
  }

  lemma CompleteCompensationEvolves(s: State, c: Call, source: OpId)
    requires c.Committed? && c.op < |s.ops| && source < |s.ops|
    ensures Evolves(s, CompleteCompensation(s, c, source).0)
  {
    if CompleteCompensation(s, c, source).1.Accepted? {
      var t, r := RecordEvidence(s, c), Relation(source, c.op);
      RecordEvidenceEvolves(s, c);
      RecordRelationEvolves(t, r);
      EvolvesTransitive(s, t, RecordRelation(t, r));
    }
  }

  lemma CompleteEvolves(s: State, call: CallId)
    ensures Evolves(s, Complete(s, call).0)
  {
    if call in s.calls && s.calls[call].Committed? && s.calls[call].op < |s.ops| {
      var c, t := s.calls[call], s.(calls := s.calls - {call});
      var input := s.ops[c.op].input;
      if input.Adjust? {
        CompleteAdjustmentEvolves(t, c);
      } else if input.source < |s.ops| {
        CompleteCompensationEvolves(t, c, input.source);
      }
    }
  }

  lemma SimulateEvolves(s: State, id: OpId, actor: Principal, allowed: bool)
    ensures Evolves(s, Simulate(s, id, actor, allowed).0)
  {
  }

  lemma ConfirmEvolves(s: State, id: OpId, actor: Principal, allowed: bool)
    ensures Evolves(s, Confirm(s, id, actor, allowed).0)
  {
    if Confirm(s, id, actor, allowed).1.Accepted? {
      AdvanceEvolves(s.(confirmations := s.confirmations[(id, actor) := s.ops[id].fingerprint]), id,
                     if s.ops[id].definition.policy.requiredApprovals > 0 then PendingApproval else Ready);
    }
  }

  lemma ApproveEvolves(s: State, id: OpId, actor: Principal, allowed: bool, reasonBlank: bool)
    ensures Evolves(s, Approve(s, id, actor, allowed, reasonBlank).0)
  {
    if Approve(s, id, actor, allowed, reasonBlank).1.Accepted? {
      var t := s.(approvals := s.approvals[(id, actor) := s.ops[id].fingerprint]);
      assert Evolves(s, t);
      AdvanceEvolves(t, id, Ready);
      AdvanceEvolves(t, id, PendingApproval);
    }
  }

  lemma PrepareEvolves(s: State, proposer: Principal, key: nat, input: Input, reason: Option<nat>, allowed: bool)
    ensures Evolves(s, Prepare(s, proposer, key, input, reason, allowed).0)
  {
  }

  lemma OwnerCommitEvolves(s: State, call: CallId)
    ensures Evolves(s, OwnerCommit(s, call).0)
  {
  }

  lemma BeginEvolves(s: State, call: CallId, id: OpId, actor: Principal, allowed: bool)
    ensures Evolves(s, Begin(s, call, id, actor, allowed).0)
  {
  }

  // Nothing recorded is ever rewritten, by any step.
  lemma StepEvolves(s: State, e: Event)
    ensures Evolves(s, Next(s, e))
  {
    match e
    case DoPrepare(proposer, key, input, reason, allowed) => PrepareEvolves(s, proposer, key, input, reason, allowed);
    case DoBegin(call, id, actor, allowed) => BeginEvolves(s, call, id, actor, allowed);
    case DoOwnerCommit(call) => OwnerCommitEvolves(s, call);
    case DoSimulate(id, actor, allowed) => SimulateEvolves(s, id, actor, allowed);
    case DoConfirm(id, actor, allowed) => ConfirmEvolves(s, id, actor, allowed);
    case DoApprove(id, actor, allowed, blank) => ApproveEvolves(s, id, actor, allowed, blank);
    case DoComplete(call) => CompleteEvolves(s, call);
    case _ =>
  }

  lemma {:induction false} RunEvolves(s: State, es: seq<Event>)
    ensures Evolves(s, Run(s, es))
    decreases |es|
  {
    if es != [] {
      StepEvolves(s, es[0]);
      RunEvolves(Next(s, es[0]), es[1..]);
    }
  }

  lemma ActionableStable(s: State, t: State, id: OpId)
    requires Evolves(s, t) && Actionable(s, id)
    ensures Actionable(t, id) && Effect(t.ops, id) == Effect(s.ops, id)
  {
    assert OpEvolves(s.ops[id], t.ops[id]);
    if s.ops[id].input.Compensate? {
      assert OpEvolves(s.ops[s.ops[id].input.source], t.ops[s.ops[id].input.source]);
    }
  }

  lemma BackedStable(s: State, t: State, id: OpId, before: int, after: int)
    requires Evolves(s, t) && Backed(s, id, before, after)
    ensures Backed(t, id, before, after)
  {
    ActionableStable(s, t, id);
    FindPrefix(s.book.rows, t.book.rows, ScopeOf(Effect(s.ops, id).0, Effect(s.ops, id).1), AdminOperation(id));
  }

  // Old rows, calls and evidence stay sound in any later state.
  lemma SoundStable(s: State, t: State)
    requires Evolves(s, t)
    ensures forall i :: 0 <= i < |s.book.rows| && RowOwned(s, s.book.rows[i]) ==> RowOwned(t, t.book.rows[i])
    ensures forall c: Call :: CallSound(s, c) ==> CallSound(t, c)
    ensures forall e: Evidence :: Backed(s, e.op, e.before, e.after) ==> Backed(t, e.op, e.before, e.after)
  {
    forall i | 0 <= i < |s.book.rows| && RowOwned(s, s.book.rows[i]) ensures RowOwned(t, t.book.rows[i]) {
      var row := s.book.rows[i];
      if row.key.AdminOperation? {
        ActionableStable(s, t, row.key.id);
        assert OpEvolves(s.ops[row.key.id], t.ops[row.key.id]);
      }
    }
    forall c: Call | CallSound(s, c) ensures CallSound(t, c) {
      match c
      case Gated(id, _) => ActionableStable(s, t, id);
      case Committed(id, _, before, after) => BackedStable(s, t, id, before, after);
    }
    forall e: Evidence | Backed(s, e.op, e.before, e.after) ensures Backed(t, e.op, e.before, e.after) {
      BackedStable(s, t, e.op, e.before, e.after);
    }
  }

  // ----- Gates -----

  // Moving one operation forward is safe when the gates before its new status have been passed.
  lemma ForwardKeepsGates(ops: seq<Operation>, confirmations: Signatures, approvals: Signatures, id: OpId, op: Operation)
    requires GatesSound(ops, confirmations, approvals)
    requires id < |ops| && OpEvolves(ops[id], op) && OpGated(op, id, confirmations, approvals)
    ensures GatesSound(ops[id := op], confirmations, approvals)
  {
  }

  lemma ConfirmationKeepsGates(ops: seq<Operation>, confirmations: Signatures, approvals: Signatures, id: OpId, op: Operation)
    requires GatesSound(ops, confirmations, approvals)
    requires id < |ops| && OpEvolves(ops[id], op) && Rank(op.status) >= 2
    requires OpGated(op, id, confirmations[(id, op.proposer) := op.fingerprint], approvals)
    ensures GatesSound(ops[id := op], confirmations[(id, op.proposer) := op.fingerprint], approvals)
  {
  }

  lemma OtherApprovers(approvals: Signatures, id: OpId, actor: Principal, print0: Fingerprint,
                       other: OpId, proposer: Principal, print1: Fingerprint)
    requires other != id
    ensures Approvers(approvals[(id, actor) := print0], other, proposer, print1) == Approvers(approvals, other, proposer, print1)
  {
    var more := approvals[(id, actor) := print0];
    forall p | p in Approvers(more, other, proposer, print1) ensures p in Approvers(approvals, other, proposer, print1) {
      assert (other, p) in approvals;
    }
    forall p | p in Approvers(approvals, other, proposer, print1) ensures p in Approvers(more, other, proposer, print1) {
      assert (other, p) in more;
    }
  }

  lemma ApprovalKeepsGates(ops: seq<Operation>, confirmations: Signatures, approvals: Signatures, id: OpId,
                           actor: Principal, op: Operation)
    requires GatesSound(ops, confirmations, approvals)
    requires id < |ops| && OpEvolves(ops[id], op) && Rank(op.status) >= 2 && actor != op.proposer
    requires OpGated(op, id, confirmations, approvals[(id, actor) := op.fingerprint])
    ensures GatesSound(ops[id := op], confirmations, approvals[(id, actor) := op.fingerprint])
  {
    forall i | 0 <= i < |ops| && i != id
      ensures OpGated(ops[i], i, confirmations, approvals[(id, actor) := op.fingerprint])
    {
      OtherApprovers(approvals, id, actor, op.fingerprint, i, ops[i].proposer, ops[i].fingerprint);
    }
  }

  lemma SimulateKeepsGates(s: State, id: OpId, actor: Principal, allowed: bool)
    requires GateOrder(s)
    ensures GateOrder(Simulate(s, id, actor, allowed).0)
  {
    var t := Simulate(s, id, actor, allowed).0;
    if t != s {
      ForwardKeepsGates(s.ops, s.confirmations, s.approvals, id, t.ops[id]);
      assert t.ops == s.ops[id := t.ops[id]];
    }
  }

  lemma ConfirmKeepsGates(s: State, id: OpId, actor: Principal, allowed: bool)
    requires GateOrder(s)
    ensures GateOrder(Confirm(s, id, actor, allowed).0)
  {
    var t := Confirm(s, id, actor, allowed).0;
    if t != s {
      ConfirmationKeepsGates(s.ops, s.confirmations, s.approvals, id, t.ops[id]);
    }
  }

  lemma ApproveKeepsGates(s: State, id: OpId, actor: Principal, allowed: bool, reasonBlank: bool)
    requires GateOrder(s)
    ensures GateOrder(Approve(s, id, actor, allowed, reasonBlank).0)
  {
    var t := Approve(s, id, actor, allowed, reasonBlank).0;
    if t != s {
      ApprovalKeepsGates(s.ops, s.confirmations, s.approvals, id, actor, t.ops[id]);
    }
  }

  lemma NobodyApprovedYet(ops: seq<Operation>, confirmations: Signatures, approvals: Signatures,
                          proposer: Principal, fingerprint: Fingerprint)
    requires GatesSound(ops, confirmations, approvals)
    ensures Approvers(approvals, |ops|, proposer, fingerprint) == {}
  {
    assert forall k :: k in approvals ==> k.0 < |ops|;
  }

  lemma PrepareKeepsGates(s: State, proposer: Principal, key: nat, input: Input, reason: Option<nat>, allowed: bool)
    requires GateOrder(s)
    ensures GateOrder(Prepare(s, proposer, key, input, reason, allowed).0)
  {
    var t := Prepare(s, proposer, key, input, reason, allowed).0;
    if t != s {
      NobodyApprovedYet(s.ops, s.confirmations, s.approvals, proposer, t.ops[|s.ops|].fingerprint);
      assert OpGated(t.ops[|s.ops|], |s.ops|, s.confirmations, s.approvals);
    }
  }

  lemma RecordEvidenceKeepsGates(s: State, c: Call)
    requires GateOrder(s) && c.Committed? && c.op < |s.ops| && s.ops[c.op].status == Ready
    ensures GateOrder(RecordEvidence(s, c))
  {
    ForwardKeepsGates(s.ops, s.confirmations, s.approvals, c.op, RecordEvidence(s, c).ops[c.op]);
  }

  lemma RecordRelationKeepsGates(s: State, r: Relation)
    requires GateOrder(s) && r.source < |s.ops| && Passed(s.ops[r.source])
    ensures GateOrder(RecordRelation(s, r))
  {
    ForwardKeepsGates(s.ops, s.confirmations, s.approvals, r.source, RecordRelation(s, r).ops[r.source]);
  }

  // The four possible shapes of the state after an evidence transaction.
  lemma CompleteShape(s: State, call: CallId)
    ensures var t := Complete(s, call).0;
            var dropped := s.(calls := s.calls - {call});
            || t == s
            || t == dropped
            || (&& call in s.calls && s.calls[call].Committed? && s.calls[call].op < |s.ops|
                && s.ops[s.calls[call].op].status == Ready
                && var c := s.calls[call];
                   var input := s.ops[c.op].input;
                   if input.Adjust? then t == RecordEvidence(dropped, c)
                   else
                     && input.source < |s.ops|
                     && s.ops[input.source].status == Applied
                     && !HasRelation(s.relations, input.source)
                     && t == RecordRelation(RecordEvidence(dropped, c), Relation(input.source, c.op)))
  {
  }

  lemma CompleteKeepsGates(s: State, call: CallId)
    requires GateOrder(s)
    ensures GateOrder(Complete(s, call).0)
  {
    CompleteShape(s, call);
    if Complete(s, call).1.Accepted? {
      var c, t := s.calls[call], s.(calls := s.calls - {call});
      RecordEvidenceKeepsGates(t, c);
      if s.ops[c.op].input.Compensate? {
        RecordRelationKeepsGates(RecordEvidence(t, c), Relation(s.ops[c.op].input.source, c.op));
      }
    }
  }

  lemma StepKeepsGates(s: State, e: Event)
    requires GateOrder(s)
    ensures GateOrder(Next(s, e))
  {
    match e
    case DoPrepare(proposer, key, input, reason, allowed) => PrepareKeepsGates(s, proposer, key, input, reason, allowed);
    case DoSimulate(id, actor, allowed) => SimulateKeepsGates(s, id, actor, allowed);
    case DoConfirm(id, actor, allowed) => ConfirmKeepsGates(s, id, actor, allowed);
    case DoApprove(id, actor, allowed, blank) => ApproveKeepsGates(s, id, actor, allowed, blank);
    case DoComplete(call) => CompleteKeepsGates(s, call);
    case _ => OtherStepKeepsGates(s, e);
  }

  lemma OtherStepKeepsGates(s: State, e: Event)
    requires e.DoBegin? || e.DoOwnerCommit? || e.Crash? || e.Intervene? || e.Redeploy?
    ensures Next(s, e).ops == s.ops && Next(s, e).confirmations == s.confirmations && Next(s, e).approvals == s.approvals
  {
    match e
    case DoBegin(call, id, actor, allowed) => BeginKeepsGates(s, call, id, actor, allowed);
    case DoOwnerCommit(call) => OwnerCommitKeepsGates(s, call);
    case _ =>
  }

  lemma BeginKeepsGates(s: State, call: CallId, id: OpId, actor: Principal, allowed: bool)
    ensures var t := Begin(s, call, id, actor, allowed).0;
            t.ops == s.ops && t.confirmations == s.confirmations && t.approvals == s.approvals
  {
  }

  lemma OwnerCommitKeepsGates(s: State, call: CallId)
    ensures var t := OwnerCommit(s, call).0; t.ops == s.ops && t.confirmations == s.confirmations && t.approvals == s.approvals
  {
  }

  // ----- Evidence and relations -----

  // Steps other than the evidence transaction neither settle an operation nor record evidence.
  ghost predicate Quiet(s: State, t: State) {
    && |s.ops| <= |t.ops|
    && (forall id :: 0 <= id < |s.ops| ==>
          && t.ops[id].input == s.ops[id].input
          && (t.ops[id].status == s.ops[id].status || (!Settled(s.ops[id]) && !Settled(t.ops[id]))))
    && (forall id :: |s.ops| <= id < |t.ops| ==> !Settled(t.ops[id]))
    && t.changes == s.changes && t.audits == s.audits && t.relations == s.relations
  }

  lemma AdvanceQuiet(s: State, id: OpId, status: Status)
    requires id < |s.ops| && !Settled(s.ops[id]) && Rank(status) < 4
    ensures Quiet(s, Advance(s, id, status))
  {
  }

  lemma ApproveQuiet(s: State, id: OpId, actor: Principal, allowed: bool, reasonBlank: bool)
    ensures Quiet(s, Approve(s, id, actor, allowed, reasonBlank).0)
  {
    if Approve(s, id, actor, allowed, reasonBlank).1.Accepted? {
      var t := s.(approvals := s.approvals[(id, actor) := s.ops[id].fingerprint]);
      AdvanceQuiet(t, id, Ready);
      AdvanceQuiet(t, id, PendingApproval);
    }
  }

  lemma ConfirmQuiet(s: State, id: OpId, actor: Principal, allowed: bool)
    ensures Quiet(s, Confirm(s, id, actor, allowed).0)
  {
  }

  lemma SimulateQuiet(s: State, id: OpId, actor: Principal, allowed: bool)
    ensures Quiet(s, Simulate(s, id, actor, allowed).0)
  {
  }

  lemma StepQuiet(s: State, e: Event)
    requires !e.DoComplete?
    ensures Quiet(s, Next(s, e))
  {
    match e
    case DoSimulate(id, actor, allowed) => SimulateQuiet(s, id, actor, allowed);
    case DoConfirm(id, actor, allowed) => ConfirmQuiet(s, id, actor, allowed);
    case DoApprove(id, actor, allowed, blank) => ApproveQuiet(s, id, actor, allowed, blank);
    case DoPrepare(_, _, _, _, _) =>
    case _ => OtherStepKeepsGates(s, e);
  }

  lemma QuietKeepsEvidence(s: State, t: State)
    requires EvidenceSound(s) && Evolves(s, t) && Quiet(s, t)
    ensures EvidenceSound(t)
  {
    SoundStable(s, t);
    forall id | |s.ops| <= id < |t.ops| ensures CountOp(t.changes, id) == 0 {
      CountOpPositive(s.changes, id);
      assert forall i :: 0 <= i < |s.changes| ==> s.changes[i] in s.changes;
    }
  }

  lemma QuietKeepsRelations(s: State, t: State)
    requires RelationsSound(s.ops, s.relations) && Quiet(s, t)
    ensures RelationsSound(t.ops, t.relations)
  {
    forall r | r in t.relations ensures RelationSound(t.ops, r) {
      assert RelationSound(s.ops, r);
    }
    forall id | |s.ops| <= id < |t.ops| ensures CountSource(t.relations, id) == 0 {
      CountSourcePositive(s.relations, id);
      assert forall r :: r in s.relations ==> RelationSound(s.ops, r);
    }
  }

  lemma RecordKeepsEvidence(s: State, c: Call)
    requires EvidenceSound(s) && CallSound(s, c) && c.Committed? && s.ops[c.op].status == Ready
    ensures EvidenceSound(RecordEvidence(s, c))
  {
    var t := RecordEvidence(s, c);
    var e := Evidence(c.op, c.actor, c.before, c.after);
    RecordEvidenceEvolves(s, c);
    SoundStable(s, t);
    forall id | 0 <= id < |t.ops| ensures CountOp(t.changes, id) == if Settled(t.ops[id]) then 1 else 0 {
      CountOpAppend(s.changes, e, id);
    }
    forall x | x in t.changes ensures Backed(t, x.op, x.before, x.after) {
      assert x in s.changes || x == e;
    }
  }

  lemma RelationKeepsEvidence(s: State, r: Relation)
    requires EvidenceSound(s) && r.source < |s.ops| && s.ops[r.source].status == Applied
    ensures EvidenceSound(RecordRelation(s, r))
  {
    var t := RecordRelation(s, r);
    RecordRelationEvolves(s, r);
    SoundStable(s, t);
  }

  // An applied adjustment leaves every relation as it was.
  lemma AdjustmentKeepsRelations(ops: seq<Operation>, relations: seq<Relation>, id: OpId, op: Operation)
    requires RelationsSound(ops, relations) && id < |ops|
    requires ops[id].input.Adjust? && ops[id].status == Ready && op.input == ops[id].input && op.status == Applied
    ensures RelationsSound(ops[id := op], relations)
  {
    forall r | r in relations ensures RelationSound(ops[id := op], r) {
      assert RelationSound(ops, r);
    }
  }

  lemma CompensationKeepsRelations(ops: seq<Operation>, relations: seq<Relation>, id: OpId, op: Operation,
                                   source: OpId, undone: Operation)
    requires RelationsSound(ops, relations) && id < |ops| && source < |ops|
    requires ops[id].input.Compensate? && ops[id].input.source == source && ops[id].status == Ready
    requires op.input == ops[id].input && op.status == Applied
    requires ops[source].input.Adjust? && ops[source].status == Applied
    requires undone.input == ops[source].input && undone.status == Compensated
    ensures RelationsSound(ops[id := op][source := undone], relations + [Relation(source, id)])
  {
    var ops', relations' := ops[id := op][source := undone], relations + [Relation(source, id)];
    forall r | r in relations' ensures RelationSound(ops', r) {
      if r in relations {
        assert RelationSound(ops, r);
      }
    }
    forall i | 0 <= i < |ops'| ensures CountSource(relations', i) == if ops'[i].status == Compensated then 1 else 0 {
      CountSourceAppend(relations, Relation(source, id), i);
    }
    forall i | 0 <= i < |ops'| && ops'[i].input.Compensate? && ops'[i].status == Applied
      ensures Relation(ops'[i].input.source, i) in relations'
    {
      assert i != id ==> Relation(ops[i].input.source, i) in relations;
    }
  }

  // ----- The invariant along every run -----

  lemma CompleteKeepsEvidence(s: State, call: CallId)
    requires EvidenceSound(s) && (forall c :: c in s.calls ==> CallSound(s, s.calls[c]))
    ensures EvidenceSound(Complete(s, call).0)
  {
    CompleteShape(s, call);
    var t := s.(calls := s.calls - {call});
    assert Evolves(s, t) && Quiet(s, t);
    QuietKeepsEvidence(s, t);
    if Complete(s, call).1.Accepted? {
      var c := s.calls[call];
      assert Evolves(s, t);
      SoundStable(s, t);
      RecordKeepsEvidence(t, c);
      if s.ops[c.op].input.Compensate? {
        RelationKeepsEvidence(RecordEvidence(t, c), Relation(s.ops[c.op].input.source, c.op));
      }
    }
  }

  lemma CompleteKeepsRelations(s: State, call: CallId)
    requires RelationsSound(s.ops, s.relations) && (forall c :: c in s.calls ==> CallSound(s, s.calls[c]))
    ensures RelationsSound(Complete(s, call).0.ops, Complete(s, call).0.relations)
  {
    CompleteShape(s, call);
    if Complete(s, call).1.Accepted? {
      var c, t := s.calls[call], s.(calls := s.calls - {call});
      var u := RecordEvidence(t, c);
      if s.ops[c.op].input.Adjust? {
        AdjustmentKeepsRelations(s.ops, s.relations, c.op, u.ops[c.op]);
      } else {
        var source := s.ops[c.op].input.source;
        assert CallSound(s, c);
        CompensationKeepsRelations(s.ops, s.relations, c.op, u.ops[c.op], source,
                                   RecordRelation(u, Relation(source, c.op)).ops[source]);
      }
    }
  }

  ghost predicate RowsOwned(s: State) {
    forall i :: 0 <= i < |s.book.rows| ==> RowOwned(s, s.book.rows[i])
  }

  ghost predicate CallsSound(s: State) {
    forall c :: c in s.calls ==> CallSound(s, s.calls[c])
  }

  // After an accepted mutation the ledger holds its row, with the balance it was answered with.
  lemma OwnerRowIsCommitted(b: Book, m: Mutation)
    requires Mutate(b, m).1.Ok?
    ensures var found := Find(Mutate(b, m).0.rows, ScopeOf(m.account, m.delta), m.key);
            found.Some? && SameRequest(found.value, m) && found.value.balanceAfter == Mutate(b, m).1.balance
  {
    if Mutate(b, m).0 != b {
      FindAppend(b.rows, NewRow(b, m), ScopeOf(m.account, m.delta), m.key);
    }
  }

  // A call that has committed holds the balances of the operation's ledger row.
  lemma CommitIsBacked(s: State, call: CallId)
    requires CallsSound(s) && OwnerCommit(s, call).1 in {Accepted, Replayed}
    ensures var t := OwnerCommit(s, call).0;
            var m := OwnerRequest(s.ops, s.calls[call].op);
            var after := Mutate(s.book, m).1.balance;
            && t.calls[call] == Committed(s.calls[call].op, s.calls[call].actor, after - m.delta, after)
            && Backed(t, s.calls[call].op, after - m.delta, after)
  {
    assert CallSound(s, s.calls[call]);
    OwnerRowIsCommitted(s.book, OwnerRequest(s.ops, s.calls[call].op));
  }

  lemma NewRowIsOwned(s: State, call: CallId)
    requires CallsSound(s)
    ensures var t := OwnerCommit(s, call).0;
            t.ops == s.ops && forall i :: |s.book.rows| <= i < |t.book.rows| ==> RowOwned(t, t.book.rows[i])
  {
    if call in s.calls && s.calls[call].Gated? {
      assert CallSound(s, s.calls[call]);
    }
  }

  lemma OwnerCommitKeepsRows(opening: map<Account, nat>, s: State, call: CallId)
    requires Balanced(opening, s.book) && RowsOwned(s) && CallsSound(s)
    ensures Balanced(opening, OwnerCommit(s, call).0.book) && RowsOwned(OwnerCommit(s, call).0)
  {
    OwnerCommitEvolves(s, call);
    SoundStable(s, OwnerCommit(s, call).0);
    NewRowIsOwned(s, call);
    OwnerCommitBalanced(opening, s, call);
  }

  lemma OwnerCommitBalanced(opening: map<Account, nat>, s: State, call: CallId)
    requires Balanced(opening, s.book)
    ensures Balanced(opening, OwnerCommit(s, call).0.book)
  {
    if call in s.calls && s.calls[call].Gated? && Resolvable(s.ops, s.calls[call].op) {
      MutateKeepsBalanced(opening, s.book, OwnerRequest(s.ops, s.calls[call].op));
    }
  }

  lemma OwnerCommitKeepsCalls(s: State, call: CallId)
    requires CallsSound(s)
    ensures CallsSound(OwnerCommit(s, call).0)
  {
    OwnerCommitEvolves(s, call);
    SoundStable(s, OwnerCommit(s, call).0);
    if OwnerCommit(s, call).1 in {Accepted, Replayed} {
      CommitIsBacked(s, call);
    }
  }

  lemma InterveneKeeps(opening: map<Account, nat>, s: State, m: Mutation)
    requires Balanced(opening, s.book) && RowsOwned(s) && CallsSound(s) && m.key.Gameplay?
    ensures var t := s.(book := Economy.Apply(s.book, m));
            Balanced(opening, t.book) && RowsOwned(t) && CallsSound(t)
  {
    var t := s.(book := Economy.Apply(s.book, m));
    assert Evolves(s, t);
    SoundStable(s, t);
    MutateKeepsBalanced(opening, s.book, m);
  }

  lemma CallsStable(s: State, t: State)
    requires Evolves(s, t) && RowsOwned(s) && CallsSound(s) && t.book == s.book
    requires forall c :: c in t.calls ==> (c in s.calls && t.calls[c] == s.calls[c]) || CallSound(t, t.calls[c])
    ensures RowsOwned(t) && CallsSound(t)
  {
    SoundStable(s, t);
  }

  lemma OtherCalls(s: State, e: Event)
    requires !e.DoOwnerCommit? && !e.Intervene? && !e.DoComplete?
    ensures var t := Next(s, e);
            && t.book == s.book
            && forall c :: c in t.calls ==> (c in s.calls && t.calls[c] == s.calls[c]) || CallSound(t, t.calls[c])
  {
  }

  lemma StepKeepsOwner(opening: map<Account, nat>, s: State, e: Event)
    requires Balanced(opening, s.book) && RowsOwned(s) && CallsSound(s)
    ensures Balanced(opening, Next(s, e).book) && RowsOwned(Next(s, e)) && CallsSound(Next(s, e))
  {
    match e
    case DoOwnerCommit(call) =>
      OwnerCommitKeepsRows(opening, s, call);
      OwnerCommitKeepsCalls(s, call);
    case Intervene(account, delta, key) => InterveneKeeps(opening, s, Mutation(account, delta, Gameplay(key), 0));
    case DoComplete(call) => CompleteKeepsCalls(s, call);
    case _ =>
      OtherCalls(s, e);
      StepEvolves(s, e);
      CallsStable(s, Next(s, e));
  }

  lemma CompleteKeepsCalls(s: State, call: CallId)
    requires RowsOwned(s) && CallsSound(s)
    ensures RowsOwned(Complete(s, call).0) && CallsSound(Complete(s, call).0) && Complete(s, call).0.book == s.book
  {
    CompleteShape(s, call);
    CompleteEvolves(s, call);
    CallsStable(s, Complete(s, call).0);
  }

  lemma StepKeepsInv(opening: map<Account, nat>, s: State, e: Event)
    requires Inv(opening, s)
    ensures Inv(opening, Next(s, e))
  {
    StepKeepsOwner(opening, s, e);
    StepKeepsGates(s, e);
    if e.DoComplete? {
      CompleteKeepsEvidence(s, e.call);
      CompleteKeepsRelations(s, e.call);
    } else {
      StepEvolves(s, e);
      StepQuiet(s, e);
      QuietKeepsEvidence(s, Next(s, e));
      QuietKeepsRelations(s, Next(s, e));
    }
  }

  lemma {:induction false} RunKeepsInv(opening: map<Account, nat>, s: State, es: seq<Event>)
    requires Inv(opening, s)
    ensures Inv(opening, Run(s, es))
    decreases |es|
  {
    if es != [] {
      StepKeepsInv(opening, s, es[0]);
      RunKeepsInv(opening, Next(s, es[0]), es[1..]);
    }
  }

  // The states any system starting from an empty ledger can be in.
  ghost predicate Reachable(opening: map<Account, nat>, s: State) {
    && (forall a :: a in opening ==> opening[a] <= BIGINT_MAX)
    && exists registry, es :: s == Run(Initial(registry, opening), es)
  }

  lemma ReachableInv(opening: map<Account, nat>, s: State)
    requires Reachable(opening, s)
    ensures Inv(opening, s)
  {
    var registry, es :| s == Run(Initial(registry, opening), es);
    RunKeepsInv(opening, Initial(registry, opening), es);
  }

  // ----- Main results -----

  // At most one ledger row, one change and one audit row per operation; exactly one of each once it
  // is applied, recording the balance at its own commit.
  lemma EachOperationOnce(opening: map<Account, nat>, s: State, id: OpId)
    requires Reachable(opening, s) && id < |s.ops|
    ensures forall i, j :: 0 <= i < j < |s.book.rows| ==>
              !(s.book.rows[i].key == AdminOperation(id) && s.book.rows[j].key == AdminOperation(id))
    ensures CountOp(s.changes, id) == CountOp(s.audits, id) == if Settled(s.ops[id]) then 1 else 0
    ensures Settled(s.ops[id]) ==> Resolvable(s.ops, id) && exists i :: OriginalRow(opening, s, id, i)
  {
    ReachableInv(opening, s);
    OperationOnce(opening, s, id);
  }

  lemma OperationOnce(opening: map<Account, nat>, s: State, id: OpId)
    requires Inv(opening, s) && id < |s.ops|
    ensures forall i, j :: 0 <= i < j < |s.book.rows| ==>
              !(s.book.rows[i].key == AdminOperation(id) && s.book.rows[j].key == AdminOperation(id))
    ensures CountOp(s.changes, id) == CountOp(s.audits, id) == if Settled(s.ops[id]) then 1 else 0
    ensures Settled(s.ops[id]) ==> Resolvable(s.ops, id) && exists i :: OriginalRow(opening, s, id, i)
  {
    forall i, j | 0 <= i < j < |s.book.rows| && s.book.rows[i].key == AdminOperation(id)
      ensures s.book.rows[j].key != AdminOperation(id)
    {
      assert RowOwned(s, s.book.rows[i]) && RowOwned(s, s.book.rows[j]);
      assert RowAt(opening, s.book.rows, i) && RowAt(opening, s.book.rows, j);
    }
    if Settled(s.ops[id]) {
      CountOpPositive(s.changes, id);
      var k :| 0 <= k < |s.changes| && s.changes[k].op == id;
      assert Backed(s, id, s.changes[k].before, s.changes[k].after);
      SettledRow(opening, s, id);
    }
  }

  // Row i is the operation's own, and every evidence row of the operation repeats its balances.
  ghost predicate OriginalRow(opening: map<Account, nat>, s: State, id: OpId, i: nat)
    requires Resolvable(s.ops, id)
  {
    && i < |s.book.rows|
    && s.book.rows[i].key == AdminOperation(id)
    && var (account, delta) := Effect(s.ops, id);
       var before := Balance(opening, account) + Sum(s.book.rows[..i], account);
       forall e :: e in s.changes + s.audits && e.op == id ==> e.before == before && e.after == before + delta
  }

  lemma SettledRow(opening: map<Account, nat>, s: State, id: OpId)
    requires Inv(opening, s) && Resolvable(s.ops, id) && CommittedRow(s, id).Some?
    ensures exists i :: OriginalRow(opening, s, id, i)
  {
    var (account, delta) := Effect(s.ops, id);
    FindExact(s.book.rows, ScopeOf(account, delta), AdminOperation(id));
    var i :| 0 <= i < |s.book.rows| && s.book.rows[i] == CommittedRow(s, id).value;
    assert RowOwned(s, s.book.rows[i]);
    RowBefore(opening, s.book, i);
    forall e | e in s.changes + s.audits && e.op == id
      ensures e.before == Balance(opening, account) + Sum(s.book.rows[..i], account) && e.after == e.before + delta
    {
      assert e in s.changes;
      assert Backed(s, id, e.before, e.after);
    }
    assert OriginalRow(opening, s, id, i);
  }

  lemma RowBefore(opening: map<Account, nat>, b: Book, i: nat)
    requires Balanced(opening, b) && i < |b.rows|
    ensures var row := b.rows[i];
            row.balanceAfter == Balance(opening, row.account) + Sum(b.rows[..i], row.account) + row.delta
  {
    assert RowAt(opening, b.rows, i);
    assert b.rows[..i + 1] == b.rows[..i] + [b.rows[i]];
    SumAppend(b.rows[..i], b.rows[i], b.rows[i].account);
  }

  // An applied operation has passed every gate of its own policy snapshot.
  lemma AppliedPassedEveryGate(opening: map<Account, nat>, s: State, id: OpId)
    requires Reachable(opening, s) && id < |s.ops| && Settled(s.ops[id])
    ensures var op := s.ops[id];
            var policy := op.definition.policy;
            && (policy.requiresSimulation ==> op.simulated)
            && (policy.requiresConfirmation ==>
                  (id, op.proposer) in s.confirmations
                  && s.confirmations[(id, op.proposer)] == Fingerprint(op.proposer, op.definition, op.input, op.reason))
            && exists who: set<Principal> ::
                 && |who| >= policy.requiredApprovals
                 && op.proposer !in who
                 && forall p :: p in who ==> (id, p) in s.approvals && s.approvals[(id, p)] == op.fingerprint
  {
    ReachableInv(opening, s);
    var op := s.ops[id];
    assert OpGated(op, id, s.confirmations, s.approvals);
    var who := Approvers(s.approvals, id, op.proposer, op.fingerprint);
    assert |who| >= op.definition.policy.requiredApprovals;
  }

  // The gates were passed in order: no signature exists before the gates that precede it.
  lemma GatesPassedInOrder(opening: map<Account, nat>, s: State, id: OpId, p: Principal)
    requires Reachable(opening, s)
    ensures (id, p) in s.confirmations ==> id < |s.ops| && p == s.ops[id].proposer && SimulationDone(s.ops[id])
    ensures (id, p) in s.approvals ==>
              && id < |s.ops| && p != s.ops[id].proposer
              && SimulationDone(s.ops[id]) && ConfirmationDone(s.ops[id], id, s.confirmations)
  {
    ReachableInv(opening, s);
    if id < |s.ops| {
      assert OpGated(s.ops[id], id, s.confirmations, s.approvals);
    }
  }

  // Whatever happens between the owner's commit and the evidence, the evidence shows the balance
  // at the commit, not the balance at completion.
  lemma EvidenceIsOriginal(opening: map<Account, nat>, s: State, call: CallId, later: seq<Event>, e: Evidence)
    requires Reachable(opening, s) && OwnerCommit(s, call).1.Accepted?
    requires e in Run(OwnerCommit(s, call).0, later).changes + Run(OwnerCommit(s, call).0, later).audits
    requires e.op == s.calls[call].op
    ensures Resolvable(s.ops, e.op)
    ensures var (account, delta) := Effect(s.ops, e.op);
            e.before == Balance(s.book.balances, account) && e.after == e.before + delta
  {
    InvAfterCommit(opening, s, call);
    FirstCommitReads(s, call);
    EvidenceOfCommit(opening, OwnerCommit(s, call).0, call, later, e);
  }

  lemma InvAfterCommit(opening: map<Account, nat>, s: State, call: CallId)
    requires Reachable(opening, s)
    ensures Inv(opening, OwnerCommit(s, call).0)
  {
    ReachableInv(opening, s);
    StepKeepsInv(opening, s, DoOwnerCommit(call));
    assert Next(s, DoOwnerCommit(call)) == OwnerCommit(s, call).0;
  }

  lemma FirstCommitReads(s: State, call: CallId)
    requires OwnerCommit(s, call).1.Accepted?
    ensures var c, t := s.calls[call], OwnerCommit(s, call).0;
            && Resolvable(s.ops, c.op)
            && var (account, delta) := Effect(s.ops, c.op);
               var before := Balance(s.book.balances, account);
               call in t.calls && t.calls[call] == Committed(c.op, c.actor, before, before + delta)
  {
  }

  lemma EvidenceOfCommit(opening: map<Account, nat>, s: State, call: CallId, later: seq<Event>, e: Evidence)
    requires Inv(opening, s) && call in s.calls && s.calls[call].Committed?
    requires e in Run(s, later).changes + Run(s, later).audits && e.op == s.calls[call].op
    ensures e.before == s.calls[call].before && e.after == s.calls[call].after
  {
    RunKeepsInv(opening, s, later);
    RunEvolves(s, later);
    assert e in Run(s, later).changes;
    BackedIsFixed(s, Run(s, later), s.calls[call], e);
  }

  lemma BackedIsFixed(s: State, t: State, c: Call, e: Evidence)
    requires Evolves(s, t) && c.Committed? && CallSound(s, c)
    requires Backed(t, e.op, e.before, e.after) && e.op == c.op
    ensures e.before == c.before && e.after == c.after
  {
    BackedStable(s, t, c.op, c.before, c.after);
    ActionableStable(s, t, c.op);
  }
}
