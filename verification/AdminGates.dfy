/** Where an operation stands between its gates, and what opens them.
  */
module AdminGates {
  import opened Wrappers
  import opened Economy
  import opened AdminProtocol
  import opened AdminSafety

  // ----- Where an operation stands -----

  function Signers(signatures: Signatures, id: OpId): set<Principal> {
    set k | k in signatures && k.0 == id :: k.1
  }

  lemma SignersCount(s: State, id: OpId)
    requires GateOrder(s) && id < |s.ops|
    ensures Approvers(s.approvals, id, s.ops[id].proposer, s.ops[id].fingerprint) == Signers(s.approvals, id)
    ensures s.ops[id].proposer !in Signers(s.approvals, id)
  {
    var op := s.ops[id];
    forall p | p in Signers(s.approvals, id) ensures p in Approvers(s.approvals, id, op.proposer, op.fingerprint) {
      assert (id, p) in s.approvals;
    }
  }

  // The operation waits exactly at the first gate its own snapshot asks for and it has not passed, told
  // from the operation and the signatures alone; it is READY if and only if none is left.
  ghost predicate AtFirstOpenGate(s: State, id: OpId)
    requires id < |s.ops|
  {
    var op := s.ops[id];
    var policy := op.definition.policy;
    var simulated := policy.requiresSimulation ==> op.simulated;
    var confirmed := policy.requiresConfirmation ==> (id, op.proposer) in s.confirmations;
    var approved := |Signers(s.approvals, id)| >= policy.requiredApprovals;
    && (op.status == Validated <==> !simulated)
    && (op.status == PendingConfirmation <==> simulated && !confirmed)
    && (op.status == PendingApproval <==> simulated && confirmed && !approved)
    && (op.status == Ready <==> simulated && confirmed && approved)
  }

  // So it is in every reachable state, until it is settled.
  lemma ReadyIffGatesPassed(opening: map<Account, nat>, s: State, id: OpId)
    requires Reachable(opening, s) && id < |s.ops| && !Settled(s.ops[id])
    ensures AtFirstOpenGate(s, id)
  {
    ReachableInv(opening, s);
    SignersCount(s, id);
    assert OpGated(s.ops[id], id, s.confirmations, s.approvals);
  }

  // In a reachable state an operation has drifted exactly when the registry's entry for its kind is no longer
  // the one it was prepared under.
  lemma DriftIsChangedEntry(opening: map<Account, nat>, s: State, id: OpId)
    requires Reachable(opening, s) && id < |s.ops|
    ensures var entry := if s.ops[id].input.Compensate? then s.registry.compensation
                         else if s.ops[id].input.account.Item? then s.registry.inventory else s.registry.wallet;
            Drifted(s, s.ops[id]) <==> s.ops[id].definition != entry
  {
    ReachableInv(opening, s);
    assert OpGated(s.ops[id], id, s.confirmations, s.approvals);
  }

  // ----- What each gate answers -----

  // A request under a known key is the same request or a conflict.
  lemma PrepareAnswers(s: State, proposer: Principal, key: nat, input: Input, reason: Option<nat>, allowed: bool)
    ensures var outcome := Prepare(s, proposer, key, input, reason, allowed).1;
            var wanted := DefinitionFor(s.registry, input);
            var complete := allowed && (wanted.policy.requiresReason ==> reason.Some?);
            var same := key in s.keys && s.keys[key] < |s.ops| && s.ops[s.keys[key]].fingerprint == Fingerprint(proposer, wanted, input, reason);
            && (outcome == Refused(AuthorizationDenied) <==> !allowed)
            && (outcome == Refused(ReasonRequired) <==> allowed && !complete)
            && (outcome == Replayed <==> complete && same)
            && (outcome == Refused(IdempotencyConflict) <==> complete && key in s.keys && !same)
  {
  }

  lemma SimulateAnswers(s: State, id: OpId, actor: Principal, allowed: bool)
    ensures var outcome := Simulate(s, id, actor, allowed).1;
            && (outcome == Refused(NotFound) <==> id >= |s.ops|)
            && (id < |s.ops| ==>
                  var own, drifted := actor == s.ops[id].proposer, Drifted(s, s.ops[id]);
                  && (outcome == Refused(PolicyDrift) <==> own && drifted)
                  && (outcome == Refused(AuthorizationDenied) <==> !own || (!drifted && !allowed))
                  && (outcome == Accepted <==> own && !drifted && allowed && s.ops[id].status == Validated)
                  && (outcome == Refused(InvalidState) <==> own && !drifted && allowed && s.ops[id].status != Validated))
  {
  }

  // A signature that stands always replays: it was given to this very operation.
  lemma ConfirmAnswers(opening: map<Account, nat>, s: State, id: OpId, actor: Principal, allowed: bool)
    requires Reachable(opening, s)
    ensures var outcome := Confirm(s, id, actor, allowed).1;
            && (outcome == Refused(NotFound) <==> id >= |s.ops|)
            && (id < |s.ops| ==>
                  var own, drifted := actor == s.ops[id].proposer, Drifted(s, s.ops[id]);
                  var signed := (id, actor) in s.confirmations;
                  && (outcome == Refused(PolicyDrift) <==> own && drifted)
                  && (outcome == Refused(AuthorizationDenied) <==> !own || (!drifted && !allowed))
                  && (outcome == Replayed <==> own && !drifted && allowed && signed)
                  && (outcome == Accepted <==> own && !drifted && allowed && !signed && s.ops[id].status == PendingConfirmation)
                  && (outcome == Refused(InvalidState) <==> own && !drifted && allowed && !signed && s.ops[id].status != PendingConfirmation))
  {
    ReachableInv(opening, s);
  }

  lemma ApproveAnswers(opening: map<Account, nat>, s: State, id: OpId, actor: Principal, allowed: bool, blank: bool)
    requires Reachable(opening, s)
    ensures var outcome := Approve(s, id, actor, allowed, blank).1;
            && (outcome == Refused(NotFound) <==> id >= |s.ops|)
            && (id < |s.ops| ==>
                  var other, drifted := actor != s.ops[id].proposer, Drifted(s, s.ops[id]);
                  var signed, sound := (id, actor) in s.approvals, other && !drifted && allowed;
                  && (outcome == Refused(SelfApproval) <==> !other)
                  && (outcome == Refused(PolicyDrift) <==> other && drifted)
                  && (outcome == Refused(AuthorizationDenied) <==> other && !drifted && !allowed)
                  && (outcome == Refused(InvalidInput) <==> sound && blank)
                  && (outcome == Replayed <==> sound && !blank && signed)
                  && (outcome == Accepted <==> sound && !blank && !signed && s.ops[id].status == PendingApproval)
                  && (outcome == Refused(InvalidState) <==> sound && !blank && !signed && s.ops[id].status != PendingApproval))
  {
    ReachableInv(opening, s);
  }

  // An apply call is let in exactly on a READY, undrifted operation with a reason, a compensation only
  // while its own player's adjustment stands APPLIED.
  lemma BeginAnswers(s: State, call: CallId, id: OpId, actor: Principal, allowed: bool)
    ensures var outcome := Begin(s, call, id, actor, allowed).1;
            id < |s.ops| ==>
              var op := s.ops[id];
              var passed := op.status != Applied && !Drifted(s, op) && allowed && op.status == Ready;
              var undo := op.input.Compensate?;
              var there := undo && op.input.source < |s.ops|;
              var own := there && TargetPlayer(s.ops[op.input.source].input) == op.input.player;
              var standing := own && s.ops[op.input.source].status == Applied;
              && (outcome == Replayed <==> op.status == Applied)
              && (outcome == Refused(PolicyDrift) <==> op.status != Applied && Drifted(s, op))
              && (outcome == Refused(NotCompensatable) <==> passed && standing && s.ops[op.input.source].input.Compensate?)
              && (outcome == Refused(NotFound) <==> passed && undo && !there)
              && (outcome == Refused(AuthorizationDenied) <==>
                    (op.status != Applied && !Drifted(s, op) && !allowed) || (passed && there && !own))
              && (outcome == Refused(InvalidState) <==>
                    (op.status != Applied && op.status != Ready && !Drifted(s, op) && allowed) || (passed && own && !standing))
              && (outcome == Accepted <==>
                    passed && op.reason.Some? && call !in s.calls
                    && (undo ==> standing && s.ops[op.input.source].input.Adjust?))
  {
  }

  // ----- Every gate opens to the right principal -----

  ghost predicate Waiting(s: State, id: OpId) {
    GateOrder(s) && id < |s.ops| && !Settled(s.ops[id]) && !Drifted(s, s.ops[id])
  }

  // The same request with the same signatures of others.
  predicate SameRequestOf(s: State, t: State, id: OpId) {
    && id < |s.ops| && id < |t.ops|
    && t.ops[id].proposer == s.ops[id].proposer && t.ops[id].input == s.ops[id].input && t.ops[id].reason == s.ops[id].reason
    && t.ops[id].definition == s.ops[id].definition
    && t.book == s.book && t.calls == s.calls
  }

  // The operation has moved on in the same state.
  predicate MovedOn(s: State, t: State, id: OpId) {
    SameRequestOf(s, t, id) && !Settled(t.ops[id]) && !Drifted(t, t.ops[id]) && Rank(t.ops[id].status) >= Rank(s.ops[id].status)
  }

  lemma SimulateMoves(s: State, id: OpId)
    requires id < |s.ops| && !Settled(s.ops[id]) && !Drifted(s, s.ops[id])
    ensures var t := Simulate(s, id, s.ops[id].proposer, true).0;
            MovedOn(s, t, id) && t.approvals == s.approvals && t.ops[id].status != Validated
  {
  }

  lemma SimulatePasses(s: State, id: OpId)
    requires Waiting(s, id)
    ensures var t := Next(s, DoSimulate(id, s.ops[id].proposer, true));
            Waiting(t, id) && MovedOn(s, t, id) && t.approvals == s.approvals && t.ops[id].status != Validated
  {
    SimulateMoves(s, id);
    SimulateKeepsGates(s, id, s.ops[id].proposer, true);
  }

  lemma ConfirmMoves(s: State, id: OpId)
    requires id < |s.ops| && !Settled(s.ops[id]) && !Drifted(s, s.ops[id]) && s.ops[id].status != Validated
    requires (id, s.ops[id].proposer) in s.confirmations ==> s.ops[id].status != PendingConfirmation
    ensures var t := Confirm(s, id, s.ops[id].proposer, true).0;
            MovedOn(s, t, id) && t.approvals == s.approvals && Rank(t.ops[id].status) >= 2
  {
  }

  lemma ConfirmPasses(s: State, id: OpId)
    requires Waiting(s, id) && s.ops[id].status != Validated
    ensures var t := Next(s, DoConfirm(id, s.ops[id].proposer, true));
            Waiting(t, id) && MovedOn(s, t, id) && t.approvals == s.approvals && Rank(t.ops[id].status) >= 2
  {
    ConfirmMoves(s, id);
    ConfirmKeepsGates(s, id, s.ops[id].proposer, true);
  }

  lemma ApproveMoves(s: State, id: OpId, p: Principal)
    requires id < |s.ops| && !Drifted(s, s.ops[id]) && p != s.ops[id].proposer && (id, p) !in s.approvals
    requires s.ops[id].status == PendingApproval
    ensures var t := Approve(s, id, p, true, false).0;
            MovedOn(s, t, id) && t.approvals == s.approvals[(id, p) := s.ops[id].fingerprint]
  {
  }

  lemma SignersGrow(signatures: Signatures, id: OpId, p: Principal, fingerprint: Fingerprint)
    ensures Signers(signatures[(id, p) := fingerprint], id) == Signers(signatures, id) + {p}
  {
    var more := signatures[(id, p) := fingerprint];
    forall q | q in Signers(signatures, id) + {p} ensures q in Signers(more, id) {
      assert (id, q) in more;
    }
  }

  lemma ApprovePasses(s: State, id: OpId, p: Principal)
    requires Waiting(s, id) && s.ops[id].status == PendingApproval
    requires p != s.ops[id].proposer && p !in Signers(s.approvals, id)
    ensures var t := Next(s, DoApprove(id, p, true, false));
            Waiting(t, id) && MovedOn(s, t, id) && Signers(t.approvals, id) == Signers(s.approvals, id) + {p}
  {
    assert (id, p) !in s.approvals;
    ApproveMoves(s, id, p);
    SignersGrow(s.approvals, id, p, s.ops[id].fingerprint);
    ApproveKeepsGates(s, id, p, true, false);
  }

  lemma ReadyTakesNoMore(s: State, id: OpId, p: Principal)
    requires id < |s.ops| && s.ops[id].status == Ready && p !in Signers(s.approvals, id)
    ensures Next(s, DoApprove(id, p, true, false)) == s
  {
    assert (id, p) !in s.approvals;
  }

  function ApprovalsBy(id: OpId, who: seq<Principal>): seq<Event> {
    seq(|who|, i requires 0 <= i < |who| => DoApprove(id, who[i], true, false))
  }

  // Distinct principals who are not the proposer and have not signed.
  ghost predicate MayApprove(s: State, id: OpId, who: seq<Principal>) {
    && id < |s.ops|
    && (forall i :: 0 <= i < |who| ==> who[i] != s.ops[id].proposer && who[i] !in Signers(s.approvals, id))
    && forall i, j :: 0 <= i < j < |who| ==> who[i] != who[j]
  }

  lemma {:induction false} ApprovedToReady(s: State, id: OpId, who: seq<Principal>)
    requires Waiting(s, id) && Rank(s.ops[id].status) >= 2
    requires MayApprove(s, id, who) && |Signers(s.approvals, id)| + |who| >= s.ops[id].definition.policy.requiredApprovals
    ensures var t := Run(s, ApprovalsBy(id, who));
            Waiting(t, id) && SameRequestOf(s, t, id) && t.ops[id].status == Ready
    decreases |who|
  {
    if s.ops[id].status == Ready {
      ReadyStays(s, id, who);
    } else {
      EnoughRemain(s, id, who);
      ApprovePasses(s, id, who[0]);
      var t := Next(s, DoApprove(id, who[0], true, false));
      OneLess(s, t, id, who);
      ApprovedToReady(t, id, who[1..]);
      SameRequestTwice(s, t, Run(t, ApprovalsBy(id, who[1..])), id);
    }
  }

  // After the first approval the others may still approve, and the run goes on with theirs.
  lemma OneLess(s: State, t: State, id: OpId, who: seq<Principal>)
    requires MayApprove(s, id, who) && who != [] && t == Next(s, DoApprove(id, who[0], true, false))
    requires id < |t.ops| && t.ops[id].proposer == s.ops[id].proposer
    requires Signers(t.approvals, id) == Signers(s.approvals, id) + {who[0]}
    ensures MayApprove(t, id, who[1..]) && |Signers(t.approvals, id)| == |Signers(s.approvals, id)| + 1
    ensures Run(s, ApprovalsBy(id, who)) == Run(t, ApprovalsBy(id, who[1..]))
  {
    assert ApprovalsBy(id, who)[1..] == ApprovalsBy(id, who[1..]);
  }

  lemma SameRequestTwice(s: State, t: State, u: State, id: OpId)
    requires SameRequestOf(s, t, id) && SameRequestOf(t, u, id)
    ensures SameRequestOf(s, u, id)
  {
  }

  lemma EnoughRemain(s: State, id: OpId, who: seq<Principal>)
    requires GateOrder(s) && id < |s.ops| && s.ops[id].status == PendingApproval
    requires |Signers(s.approvals, id)| + |who| >= s.ops[id].definition.policy.requiredApprovals
    ensures who != []
  {
    SignersCount(s, id);
    assert OpGated(s.ops[id], id, s.confirmations, s.approvals);
  }

  lemma {:induction false} ReadyStays(s: State, id: OpId, who: seq<Principal>)
    requires MayApprove(s, id, who) && s.ops[id].status == Ready
    ensures Run(s, ApprovalsBy(id, who)) == s
    decreases |who|
  {
    if who != [] {
      ReadyTakesNoMore(s, id, who[0]);
      assert ApprovalsBy(id, who)[1..] == ApprovalsBy(id, who[1..]);
      ReadyStays(s, id, who[1..]);
    }
  }

  lemma GatesInOrder(opening: map<Account, nat>, s: State)
    requires Reachable(opening, s)
    ensures GateOrder(s)
  {
    ReachableInv(opening, s);
  }

  // Everything the gates can ask for: the proposer's simulation and confirmation, and the others' approvals.
  function GateEvents(s: State, id: OpId, who: seq<Principal>): seq<Event>
    requires id < |s.ops|
  {
    [DoSimulate(id, s.ops[id].proposer, true), DoConfirm(id, s.ops[id].proposer, true)] + ApprovalsBy(id, who)
  }

  lemma RunTwoThen(s: State, a: Event, b: Event, es: seq<Event>)
    ensures Run(s, [a, b] + es) == Run(Next(Next(s, a), b), es)
  {
    assert ([a, b] + es)[1..] == [b] + es && ([b] + es)[1..] == es;
    assert Run(s, [a, b] + es) == Run(Next(s, a), [b] + es);
  }

  // An undrifted operation that is not settled is READY once its proposer has simulated and confirmed
  // it and enough others have approved it, wherever it stood, and no call or balance is touched.
  lemma GatesLeadToReady(opening: map<Account, nat>, s: State, id: OpId, who: seq<Principal>)
    requires Reachable(opening, s) && id < |s.ops| && !Settled(s.ops[id]) && !Drifted(s, s.ops[id])
    requires MayApprove(s, id, who) && |Signers(s.approvals, id)| + |who| >= s.ops[id].definition.policy.requiredApprovals
    ensures var t := Run(s, GateEvents(s, id, who));
            SameRequestOf(s, t, id) && t.ops[id].status == Ready && !Drifted(t, t.ops[id])
  {
    GatesInOrder(opening, s);
    var proposer := s.ops[id].proposer;
    var s1 := Next(s, DoSimulate(id, proposer, true));
    var s2 := Next(s1, DoConfirm(id, proposer, true));
    SimulatePasses(s, id);
    ConfirmPasses(s1, id);
    ApprovedToReady(s2, id, who);
    RunTwoThen(s, DoSimulate(id, proposer, true), DoConfirm(id, proposer, true), ApprovalsBy(id, who));
  }
}
