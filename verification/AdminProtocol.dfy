/** The two-phase admin mutation protocol: gates, keyed owner commit, evidence completion and
  * compensation, as atomic transactions of any number of concurrent apply calls that may crash
  * between any two of them.
  */
module AdminProtocol {
  import opened Wrappers
  import opened Economy

  type OpId = nat
  type Principal = nat
  type CallId = nat

  // ----- Data model -----

  datatype Policy = Policy(version: nat, requiresReason: bool, requiresSimulation: bool,
                           requiresConfirmation: bool, requiredApprovals: nat)

  // The part of a registry definition that every stored operation snapshots.
  datatype Definition = Definition(capability: nat, riskTier: nat, authorizationMode: nat, policy: Policy)

  datatype Registry = Registry(inventory: Definition, wallet: Definition, compensation: Definition)

  datatype Input = Adjust(account: Account, delta: int) | Compensate(player: nat, source: OpId)

  // Request fingerprints are taken to be injective, so the fingerprint is the fingerprinted data.
  datatype Fingerprint = Fingerprint(proposer: Principal, definition: Definition, input: Input, reason: Option<nat>)

  datatype Status = Validated | PendingConfirmation | PendingApproval | Ready | Applied | Compensated

  datatype Operation = Operation(proposer: Principal, input: Input, reason: Option<nat>, definition: Definition,
                                 fingerprint: Fingerprint, status: Status, simulated: bool, revision: nat)

  datatype Evidence = Evidence(op: OpId, actor: Principal, before: int, after: int)

  datatype Relation = Relation(source: OpId, compensation: OpId)

  // An apply call in flight: past the gate check, or past the owner's commit.
  datatype Call =
    | Gated(op: OpId, actor: Principal)
    | Committed(op: OpId, actor: Principal, before: int, after: int)

  datatype State = State(
    registry: Registry,
    ops: seq<Operation>,
    keys: map<nat, OpId>,
    confirmations: map<(OpId, Principal), Fingerprint>,
    approvals: map<(OpId, Principal), Fingerprint>,
    book: Book,
    changes: seq<Evidence>,
    audits: seq<Evidence>,
    relations: seq<Relation>,
    calls: map<CallId, Call>)

  datatype AdminError =
    | NotFound | AuthorizationDenied | ReasonRequired | IdempotencyConflict | PolicyDrift | InvalidState
    | SelfApproval | InvalidInput | Rejected(cause: EconomyError) | NotCompensatable | CallInUse | NoSuchCall

  datatype Outcome = Accepted | Replayed | Refused(error: AdminError)

  function DefinitionFor(registry: Registry, input: Input): Definition {
    match input
    case Adjust(Item(_, _), _) => registry.inventory
    case Adjust(Wallet(_, _), _) => registry.wallet
    case Compensate(_, _) => registry.compensation
  }

  function FingerprintOf(registry: Registry, proposer: Principal, input: Input, reason: Option<nat>): Fingerprint {
    Fingerprint(proposer, DefinitionFor(registry, input), input, reason)
  }

  function TargetPlayer(input: Input): nat {
    if input.Adjust? then input.account.player else input.player
  }

  function AfterSimulation(policy: Policy): Status {
    if policy.requiresConfirmation then PendingConfirmation
    else if policy.requiredApprovals > 0 then PendingApproval
    else Ready
  }

  function AfterValidation(policy: Policy): Status {
    if policy.requiresSimulation then Validated else AfterSimulation(policy)
  }

  predicate Drifted(s: State, op: Operation) {
    || op.definition != DefinitionFor(s.registry, op.input)
    || op.fingerprint != FingerprintOf(s.registry, op.proposer, op.input, op.reason)
  }

  // ----- Gates -----

  function Prepare(s: State, proposer: Principal, key: nat, input: Input, reason: Option<nat>, allowed: bool): (State, Outcome) {
    var definition := DefinitionFor(s.registry, input);
    var fingerprint := FingerprintOf(s.registry, proposer, input, reason);
    if !allowed then (s, Refused(AuthorizationDenied))
    else if definition.policy.requiresReason && reason.None? then (s, Refused(ReasonRequired))
    else if key in s.keys then
      (s, if s.keys[key] < |s.ops| && s.ops[s.keys[key]].fingerprint == fingerprint then Replayed else Refused(IdempotencyConflict))
    else
      var op := Operation(proposer, input, reason, definition, fingerprint, AfterValidation(definition.policy), false, 0);
      (s.(ops := s.ops + [op], keys := s.keys[key := |s.ops|]), Accepted)
  }

  function Advance(s: State, id: OpId, status: Status): State
    requires id < |s.ops|
  {
    s.(ops := s.ops[id := s.ops[id].(status := status, revision := s.ops[id].revision + 1)])
  }

  function Simulate(s: State, id: OpId, actor: Principal, allowed: bool): (State, Outcome) {
    if id >= |s.ops| then (s, Refused(NotFound))
    else
      var op := s.ops[id];
      if op.proposer != actor then (s, Refused(AuthorizationDenied))
      else if Drifted(s, op) then (s, Refused(PolicyDrift))
      else if !allowed then (s, Refused(AuthorizationDenied))
      else if op.status != Validated then (s, Refused(InvalidState))
      else
        var simulated := op.(status := AfterSimulation(op.definition.policy), revision := op.revision + 1, simulated := true);
        (s.(ops := s.ops[id := simulated]), Accepted)
  }

  function Confirm(s: State, id: OpId, actor: Principal, allowed: bool): (State, Outcome) {
    if id >= |s.ops| then (s, Refused(NotFound))
    else
      var op := s.ops[id];
      if op.proposer != actor then (s, Refused(AuthorizationDenied))
      else if Drifted(s, op) then (s, Refused(PolicyDrift))
      else if !allowed then (s, Refused(AuthorizationDenied))
      else if (id, actor) in s.confirmations then
        (s, if s.confirmations[(id, actor)] != op.fingerprint then Refused(IdempotencyConflict) else Replayed)
      else if op.status != PendingConfirmation then (s, Refused(InvalidState))
      else
        (Advance(s.(confirmations := s.confirmations[(id, actor) := op.fingerprint]), id,
                 if op.definition.policy.requiredApprovals > 0 then PendingApproval else Ready),
         Accepted)
  }

  // The principals whose approval counts: the same fingerprint, and not the proposer.
  function Approvers(approvals: map<(OpId, Principal), Fingerprint>, id: OpId, proposer: Principal,
                     fingerprint: Fingerprint): set<Principal>
  {
    set k | k in approvals && k.0 == id && approvals[k] == fingerprint && k.1 != proposer :: k.1
  }

  function Approve(s: State, id: OpId, actor: Principal, allowed: bool, reasonBlank: bool): (State, Outcome) {
    if id >= |s.ops| then (s, Refused(NotFound))
    else
      var op := s.ops[id];
      if op.proposer == actor then (s, Refused(SelfApproval))
      else if Drifted(s, op) then (s, Refused(PolicyDrift))
      else if !allowed then (s, Refused(AuthorizationDenied))
      else if reasonBlank then (s, Refused(InvalidInput))
      else if (id, actor) in s.approvals then
        (s, if s.approvals[(id, actor)] != op.fingerprint then Refused(IdempotencyConflict) else Replayed)
      else if op.status != PendingApproval then (s, Refused(InvalidState))
      else
        var t := s.(approvals := s.approvals[(id, actor) := op.fingerprint]);
        var enough := |Approvers(t.approvals, id, op.proposer, op.fingerprint)| >= op.definition.policy.requiredApprovals;
        (Advance(t, id, if enough then Ready else PendingApproval), Accepted)
  }

  // ----- Apply: gate check, owner transaction, evidence transaction -----

  function CompensationRefusal(s: State, player: nat, source: OpId): Option<AdminError> {
    if source >= |s.ops| then Some(NotFound)
    else if TargetPlayer(s.ops[source].input) != player then Some(AuthorizationDenied)
    else if s.ops[source].status != Applied then Some(InvalidState)
    else if s.ops[source].input.Compensate? then Some(NotCompensatable)
    else None
  }

  // The status reads that precede any write of an apply call.
  function Begin(s: State, call: CallId, id: OpId, actor: Principal, allowed: bool): (State, Outcome) {
    if id >= |s.ops| then (s, Refused(NotFound))
    else
      var op := s.ops[id];
      if op.status == Applied then (s, Replayed)
      else if Drifted(s, op) then (s, Refused(PolicyDrift))
      else if !allowed then (s, Refused(AuthorizationDenied))
      else if op.status != Ready then (s, Refused(InvalidState))
      else
        var refusal := if op.input.Compensate? then CompensationRefusal(s, op.input.player, op.input.source) else None;
        if refusal.Some? then (s, Refused(refusal.value))
        else if op.reason.None? then (s, Refused(ReasonRequired))
        else if call in s.calls then (s, Refused(CallInUse))
        else (s.(calls := s.calls[call := Gated(id, actor)]), Accepted)
  }

  // What the owner is asked to do for an operation: its own delta, or its source's delta negated.
  function Effect(ops: seq<Operation>, id: OpId): (Account, int)
    requires Resolvable(ops, id)
  {
    var input := ops[id].input;
    if input.Adjust? then (input.account, input.delta)
    else (ops[input.source].input.account, -ops[input.source].input.delta)
  }

  predicate Resolvable(ops: seq<Operation>, id: OpId) {
    && id < |ops|
    && (ops[id].input.Compensate? ==> ops[id].input.source < |ops| && ops[ops[id].input.source].input.Adjust?)
  }

  function OwnerRequest(ops: seq<Operation>, id: OpId): Mutation
    requires Resolvable(ops, id)
  {
    Mutation(Effect(ops, id).0, Effect(ops, id).1, AdminOperation(id), ops[id].proposer)
  }

  // The owner's own transaction, keyed by the operation id.
  function OwnerCommit(s: State, call: CallId): (State, Outcome) {
    if !(call in s.calls && s.calls[call].Gated? && Resolvable(s.ops, s.calls[call].op)) then (s, Refused(NoSuchCall))
    else
      var c := s.calls[call];
      var m := OwnerRequest(s.ops, c.op);
      var (book, reply) := Mutate(s.book, m);
      match reply
      case Rejected(cause) => (s.(calls := s.calls - {call}), Refused(AdminError.Rejected(cause)))
      case Ok(after, replayed) =>
        (s.(book := book, calls := s.calls[call := Committed(c.op, c.actor, after - m.delta, after)]),
         if replayed then Replayed else Accepted)
  }

  predicate HasRelation(relations: seq<Relation>, source: OpId) {
    exists r :: r in relations && r.source == source
  }

  // The writes every evidence transaction makes: one change, one audit row, status APPLIED.
  function RecordEvidence(s: State, c: Call): State
    requires c.Committed? && c.op < |s.ops|
  {
    var e := Evidence(c.op, c.actor, c.before, c.after);
    Advance(s.(changes := s.changes + [e], audits := s.audits + [e]), c.op, Applied)
  }

  // The additional writes of a compensation: the relation, and the source's status.
  function RecordRelation(s: State, r: Relation): State
    requires r.source < |s.ops|
  {
    Advance(s.(relations := s.relations + [r]), r.source, Compensated)
  }

  function CompleteCompensation(s: State, c: Call, source: OpId): (State, Outcome)
    requires c.Committed? && c.op < |s.ops| && source < |s.ops|
  {
    if s.ops[c.op].status == Applied then
      (s, if Relation(source, c.op) in s.relations && s.ops[source].status == Compensated then Replayed
          else Refused(InvalidState))
    else if s.ops[c.op].status != Ready then (s, Refused(InvalidState))
    else if s.ops[source].status != Applied then (s, Refused(InvalidState))
    else if HasRelation(s.relations, source) then (s, Refused(InvalidState))
    else (RecordRelation(RecordEvidence(s, c), Relation(source, c.op)), Accepted)
  }

  function CompleteAdjustment(s: State, c: Call): (State, Outcome)
    requires c.Committed? && c.op < |s.ops|
  {
    if s.ops[c.op].status == Applied then (s, Replayed)
    else if s.ops[c.op].status != Ready then (s, Refused(InvalidState))
    else (RecordEvidence(s, c), Accepted)
  }

  // The evidence transaction of an apply call, after which the call is over.
  function Complete(s: State, call: CallId): (State, Outcome) {
    if !(call in s.calls && s.calls[call].Committed? && s.calls[call].op < |s.ops|) then (s, Refused(NoSuchCall))
    else
      var c := s.calls[call];
      var t := s.(calls := s.calls - {call});
      var input := s.ops[c.op].input;
      if input.Adjust? then CompleteAdjustment(t, c)
      else if input.source >= |s.ops| then (t, Refused(NotFound))
      else CompleteCompensation(t, c, input.source)
  }

  // ----- Runs -----

  datatype Event =
    | DoPrepare(proposer: Principal, key: nat, input: Input, reason: Option<nat>, allowed: bool)
    | DoSimulate(id: OpId, actor: Principal, allowed: bool)
    | DoConfirm(id: OpId, actor: Principal, allowed: bool)
    | DoApprove(id: OpId, actor: Principal, allowed: bool, reasonBlank: bool)
    | DoBegin(call: CallId, id: OpId, actor: Principal, allowed: bool)
    | DoOwnerCommit(call: CallId)
    | DoComplete(call: CallId)
    | Crash(call: CallId)
    | Intervene(account: Account, delta: int, key: nat)
    | Redeploy(registry: Registry)

  function Step(s: State, e: Event): (State, Outcome) {
    match e
    case DoPrepare(proposer, key, input, reason, allowed) => Prepare(s, proposer, key, input, reason, allowed)
    case DoSimulate(id, actor, allowed) => Simulate(s, id, actor, allowed)
    case DoConfirm(id, actor, allowed) => Confirm(s, id, actor, allowed)
    case DoApprove(id, actor, allowed, reasonBlank) => Approve(s, id, actor, allowed, reasonBlank)
    case DoBegin(call, id, actor, allowed) => Begin(s, call, id, actor, allowed)
    case DoOwnerCommit(call) => OwnerCommit(s, call)
    case DoComplete(call) => Complete(s, call)
    case Crash(call) => (s.(calls := s.calls - {call}), Accepted)
    case Intervene(account, delta, key) =>
      (s.(book := Economy.Apply(s.book, Mutation(account, delta, Gameplay(key), 0))), Accepted)
    case Redeploy(registry) => (s.(registry := registry), Accepted)
  }

  function Next(s: State, e: Event): State { Step(s, e).0 }

  function Run(s: State, es: seq<Event>): State
    decreases |es|
  {
    if es == [] then s else Run(Next(s, es[0]), es[1..])
  }

  function Initial(registry: Registry, opening: map<Account, nat>): State {
    State(registry, [], map[], map[], map[], Book(opening, []), [], [], [], map[])
  }
}
