/** What a refusal, a drifted snapshot and a crash between owner commit and evidence leave behind, and
  * exactly when one more apply call settles an operation.
  */
module AdminRecovery {
  import opened Wrappers
  import opened Economy
  import opened AdminProtocol
  import opened AdminSafety
  import opened AdminLedger
  import opened AdminGates
  import opened AdminCompensation

  // ----- No evidence without a commit -----

  // As long as the owner has not committed an operation, in whatever state its calls crashed, it
  // is not applied and has no change, no audit row and no relation.
  lemma NoRowNoTrace(opening: map<Account, nat>, s: State, id: OpId)
    requires Reachable(opening, s) && id < |s.ops|
    requires !HasRow(s.book.rows, id)
    ensures !Settled(s.ops[id])
    ensures forall e :: e in s.changes + s.audits ==> e.op != id
    ensures forall r :: r in s.relations ==> r.compensation != id && r.source != id
  {
    if Settled(s.ops[id]) {
      AppliedHasRow(opening, s, id);
    }
    EachOperationOnce(opening, s, id);
    CountOpPositive(s.changes, id);
    CountOpPositive(s.audits, id);
    CompensatedIffOneRelation(opening, s, id);
    CountSourcePositive(s.relations, id);
    forall r | r in s.relations ensures r.compensation != id {
      ReachableInv(opening, s);
      assert RelationSound(s.ops, r);
    }
  }

  predicate EverCommits(s: State, es: seq<Event>, id: OpId)
    decreases |es|
  {
    es != [] && (Commits(s, es[0], id) || EverCommits(Next(s, es[0]), es[1..], id))
  }

  lemma {:induction false} RowIffCommits(s: State, es: seq<Event>, id: OpId)
    requires !HasRow(s.book.rows, id)
    ensures HasRow(Run(s, es).book.rows, id) <==> EverCommits(s, es, id)
    decreases |es|
  {
    if es != [] {
      RowStep(s, es[0], id);
      if Commits(s, es[0], id) {
        RunEvolves(Next(s, es[0]), es[1..]);
        var i :| 0 <= i < |Next(s, es[0]).book.rows| && Next(s, es[0]).book.rows[i].key == AdminOperation(id);
        assert Run(Next(s, es[0]), es[1..]).book.rows[i].key == AdminOperation(id);
      } else {
        RowIffCommits(Next(s, es[0]), es[1..], id);
      }
    }
  }

  // An adjustment or inverse the owner refused leaves nothing, then and in any later state, unless the
  // owner later commits it after all: then its balance guard was met, and only then is there a row.
  lemma RefusedLeavesNoTrace(opening: map<Account, nat>, s: State, call: CallId, later: seq<Event>)
    requires Reachable(opening, s) && call in s.calls && s.calls[call].Gated?
    requires !HasRow(s.book.rows, s.calls[call].op) && !Commits(s, DoOwnerCommit(call), s.calls[call].op)
    ensures var id, refused := s.calls[call].op, OwnerCommit(s, call).0;
            var t := Run(refused, later);
            && refused.book == s.book && refused.ops == s.ops && call !in refused.calls
            && (HasRow(t.book.rows, id) <==> EverCommits(refused, later, id))
            && (!EverCommits(refused, later, id) ==>
                  && id < |t.ops| && !Settled(t.ops[id])
                  && (forall e :: e in t.changes + t.audits ==> e.op != id)
                  && forall r :: r in t.relations ==> r.compensation != id && r.source != id)
  {
    var id, refused := s.calls[call].op, OwnerCommit(s, call).0;
    var t := Run(refused, later);
    ReachableInv(opening, s);
    assert CallSound(s, s.calls[call]);
    FreshCommits(s.book, OwnerRequest(s.ops, id));
    assert refused == s.(calls := s.calls - {call});
    RowIffCommits(refused, later, id);
    ReachableAfter(opening, s, call, later);
    RunEvolves(refused, later);
    if !EverCommits(refused, later, id) {
      NoRowNoTrace(opening, t, id);
    }
  }

  lemma ReachableAfter(opening: map<Account, nat>, s: State, call: CallId, later: seq<Event>)
    requires Reachable(opening, s)
    ensures Reachable(opening, Run(OwnerCommit(s, call).0, later))
  {
    var registry, es :| s == Run(Initial(registry, opening), es);
    var all := es + ([DoOwnerCommit(call)] + later);
    RunAppend(Initial(registry, opening), es, [DoOwnerCommit(call)] + later);
    assert ([DoOwnerCommit(call)] + later)[1..] == later;
    assert Run(OwnerCommit(s, call).0, later) == Run(Initial(registry, opening), all);
  }

  // ----- A drifted operation is frozen -----

  predicate Calls(s: State, id: OpId) {
    exists c :: c in s.calls && s.calls[c].op == id
  }

  predicate AlwaysDrifted(s: State, es: seq<Event>, id: OpId)
    decreases |es|
  {
    id < |s.ops| && Drifted(s, s.ops[id]) && (es == [] || AlwaysDrifted(Next(s, es[0]), es[1..], id))
  }

  // What belongs to an operation: its record, its signatures and the calls acting on it.
  ghost predicate SameOperation(s: State, t: State, id: OpId) {
    && id < |s.ops| && id < |t.ops| && t.ops[id] == s.ops[id]
    && (forall p: Principal :: (id, p) in t.confirmations <==> (id, p) in s.confirmations)
    && (forall p: Principal :: (id, p) in t.approvals <==> (id, p) in s.approvals)
    && !Calls(t, id)
  }

  // Every gate refuses a drifted operation and writes nothing.
  lemma DriftIsRefused(s: State, e: Event, id: OpId)
    requires id < |s.ops| && Drifted(s, s.ops[id]) && !Settled(s.ops[id])
    requires (e.DoSimulate? || e.DoConfirm? || e.DoApprove? || e.DoBegin?) && e.id == id
    ensures Next(s, e) == s
  {
  }

  lemma OtherGate(s: State, e: Event, id: OpId)
    requires id < |s.ops| && (e.DoSimulate? || e.DoConfirm? || e.DoApprove?) && e.id != id
    ensures var t := Next(s, e);
            && id < |t.ops| && t.ops[id] == s.ops[id] && t.calls == s.calls
            && (forall p: Principal :: (id, p) in t.confirmations <==> (id, p) in s.confirmations)
            && (forall p: Principal :: (id, p) in t.approvals <==> (id, p) in s.approvals)
  {
    match e
    case DoSimulate(_, _, _) =>
    case DoConfirm(_, _, _) =>
    case DoApprove(_, _, _, _) =>
  }

  lemma GateFrozen(s: State, e: Event, id: OpId)
    requires id < |s.ops| && Drifted(s, s.ops[id]) && !Settled(s.ops[id]) && !Calls(s, id)
    requires e.DoSimulate? || e.DoConfirm? || e.DoApprove?
    ensures SameOperation(s, Next(s, e), id)
  {
    if e.id == id {
      DriftIsRefused(s, e, id);
    } else {
      OtherGate(s, e, id);
    }
  }

  lemma BeginFrozen(s: State, e: Event, id: OpId)
    requires id < |s.ops| && Drifted(s, s.ops[id]) && !Settled(s.ops[id]) && !Calls(s, id) && e.DoBegin?
    ensures SameOperation(s, Next(s, e), id)
  {
    var t := Next(s, e);
    forall c | c in t.calls ensures t.calls[c].op != id {
      if c in s.calls {
        assert s.calls[c].op != id;
      }
    }
  }

  lemma CommitFrozen(s: State, e: Event, id: OpId)
    requires id < |s.ops| && !Calls(s, id) && e.DoOwnerCommit?
    ensures SameOperation(s, Next(s, e), id) && !Commits(s, e, id)
  {
    var t := Next(s, e);
    assert e.call in s.calls ==> s.calls[e.call].op != id;
    forall c | c in t.calls ensures t.calls[c].op != id {
      assert c in s.calls && s.calls[c].op != id;
    }
  }

  lemma PrepareFrozen(s: State, e: Event, id: OpId)
    requires id < |s.ops| && !Calls(s, id) && e.DoPrepare?
    ensures SameOperation(s, Next(s, e), id)
  {
    assert Next(s, e).calls == s.calls;
  }

  lemma OtherFrozen(s: State, e: Event, id: OpId)
    requires id < |s.ops| && !Calls(s, id) && (e.Crash? || e.Intervene? || e.Redeploy?)
    ensures SameOperation(s, Next(s, e), id)
  {
    var t := Next(s, e);
    assert t.ops == s.ops && t.confirmations == s.confirmations && t.approvals == s.approvals;
    forall c | c in t.calls ensures t.calls[c].op != id {
      assert c in s.calls && s.calls[c].op != id;
    }
  }

  lemma CompleteFrozen(s: State, e: Event, id: OpId)
    requires id < |s.ops| && !Settled(s.ops[id]) && !Calls(s, id) && e.DoComplete?
    ensures SameOperation(s, Next(s, e), id)
  {
    CompleteElsewhere(s, e.call, id);
    var t := Next(s, e);
    forall c | c in t.calls ensures t.calls[c].op != id {
      assert c in s.calls && s.calls[c].op != id;
    }
  }

  lemma DriftStep(s: State, e: Event, id: OpId)
    requires id < |s.ops| && Drifted(s, s.ops[id]) && !Settled(s.ops[id]) && !Calls(s, id)
    ensures SameOperation(s, Next(s, e), id)
    ensures !Commits(s, e, id)
  {
    match e
    case DoSimulate(_, _, _) => GateFrozen(s, e, id);
    case DoConfirm(_, _, _) => GateFrozen(s, e, id);
    case DoApprove(_, _, _, _) => GateFrozen(s, e, id);
    case DoBegin(_, _, _, _) => BeginFrozen(s, e, id);
    case DoOwnerCommit(_) => CommitFrozen(s, e, id);
    case DoComplete(_) => CompleteFrozen(s, e, id);
    case DoPrepare(_, _, _, _, _) => PrepareFrozen(s, e, id);
    case _ => OtherFrozen(s, e, id);
  }

  // Completing another operation touches only itself and a source that was applied.
  lemma CompleteElsewhere(s: State, call: CallId, id: OpId)
    requires id < |s.ops| && !Settled(s.ops[id]) && !Calls(s, id)
    ensures var t := Complete(s, call).0;
            && id < |t.ops| && t.ops[id] == s.ops[id]
            && t.confirmations == s.confirmations && t.approvals == s.approvals
            && (t.calls == s.calls - {call} || t.calls == s.calls)
  {
    if call in s.calls && s.calls[call].Committed? && s.calls[call].op < |s.ops| {
      var c, t := s.calls[call], s.(calls := s.calls - {call});
      assert c.op != id;
      if s.ops[c.op].input.Compensate? && s.ops[c.op].input.source < |s.ops| {
        CompensationElsewhere(t, c, s.ops[c.op].input.source, id);
      }
    }
  }

  lemma CompensationElsewhere(s: State, c: Call, source: OpId, id: OpId)
    requires id < |s.ops| && !Settled(s.ops[id]) && c.Committed? && c.op < |s.ops| && c.op != id && source < |s.ops|
    ensures var t := CompleteCompensation(s, c, source).0;
            && id < |t.ops| && t.ops[id] == s.ops[id]
            && t.confirmations == s.confirmations && t.approvals == s.approvals && t.calls == s.calls
  {
  }

  // A drifted operation passes no gate, gets no ledger row and is not settled: only an apply call begun
  // before the definitions changed can still finish it.
  lemma {:induction false} DriftFreezes(s: State, es: seq<Event>, id: OpId)
    requires id < |s.ops| && !Settled(s.ops[id]) && AlwaysDrifted(s, es, id)
    ensures var t := Run(s, es);
            && id < |t.ops|
            && (!Calls(s, id) ==> SameOperation(s, t, id) && !EverCommits(s, es, id))
            && (Settled(t.ops[id]) ==> Calls(s, id))
    decreases |es|
  {
    RunEvolves(s, es);
    if es != [] && !Calls(s, id) {
      DriftStep(s, es[0], id);
      DriftFreezes(Next(s, es[0]), es[1..], id);
    }
  }

  // ----- The crash window -----

  // One apply call with nothing in between.
  function ApplyOnce(s: State, call: CallId, id: OpId, actor: Principal): State {
    Next(Next(Next(s, DoBegin(call, id, actor, true)), DoOwnerCommit(call)), DoComplete(call))
  }

  // Left READY under unchanged definitions.
  predicate CanRetry(s: State, id: OpId, retry: CallId) {
    id < |s.ops| && s.ops[id].status == Ready && !Drifted(s, s.ops[id]) && retry !in s.calls
  }

  // An adjustment is always open to completion, a compensation while its source is APPLIED.
  predicate Open(s: State, id: OpId) {
    && id < |s.ops|
    && (s.ops[id].input.Compensate? ==>
          s.ops[id].input.source < |s.ops| && s.ops[s.ops[id].input.source].status == Applied)
  }

  function Advanced(op: Operation, status: Status): Operation {
    op.(status := status, revision := op.revision + 1)
  }

  // The operation is settled with the given evidence, a compensation together with its relation and its
  // source's status; no balance moves and nothing else changes.
  predicate SettledBy(s: State, t: State, e: Evidence)
    requires Resolvable(s.ops, e.op)
  {
    var settled := s.ops[e.op := Advanced(s.ops[e.op], Applied)];
    && t.book == s.book && t.calls == s.calls
    && t.changes == s.changes + [e] && t.audits == s.audits + [e]
    && if s.ops[e.op].input.Adjust? then t.ops == settled && t.relations == s.relations
       else
         var source := s.ops[e.op].input.source;
         && t.ops == settled[source := Advanced(settled[source], Compensated)]
         && t.relations == s.relations + [Relation(source, e.op)]
  }

  // An operation with a ledger row gets that row's balance again from the owner, and no second row.
  lemma BackedReplays(opening: map<Account, nat>, s: State, id: OpId, before: int, after: int)
    requires Inv(opening, s) && Backed(s, id, before, after)
    ensures Mutate(s.book, OwnerRequest(s.ops, id)) == (s.book, Economy.Ok(after, true))
  {
    var (account, delta) := Effect(s.ops, id);
    FindExact(s.book.rows, ScopeOf(account, delta), AdminOperation(id));
    var i :| 0 <= i < |s.book.rows| && s.book.rows[i] == CommittedRow(s, id).value;
    assert RowOwned(s, s.book.rows[i]) && RowAt(opening, s.book.rows, i);
  }

  lemma OpenBegins(opening: map<Account, nat>, s: State, id: OpId, retry: CallId, actor: Principal)
    requires Inv(opening, s) && Actionable(s, id) && CanRetry(s, id, retry)
    ensures Begin(s, retry, id, actor, true).0 == if Open(s, id) then s.(calls := s.calls[retry := Gated(id, actor)]) else s
  {
  }

  lemma NoRelationYet(opening: map<Account, nat>, s: State, source: OpId)
    requires Inv(opening, s) && source < |s.ops| && s.ops[source].status == Applied
    ensures !HasRelation(s.relations, source)
  {
    CountSourcePositive(s.relations, source);
  }

  lemma AdjustmentSettles(s: State, e: Evidence)
    requires e.op < |s.ops| && s.ops[e.op].status == Ready && s.ops[e.op].input.Adjust?
    ensures SettledBy(s, CompleteAdjustment(s, Committed(e.op, e.actor, e.before, e.after)).0, e)
  {
  }

  lemma CompensationSettles(s: State, e: Evidence)
    requires Resolvable(s.ops, e.op) && s.ops[e.op].status == Ready && s.ops[e.op].input.Compensate?
    requires s.ops[s.ops[e.op].input.source].status == Applied && !HasRelation(s.relations, s.ops[e.op].input.source)
    ensures SettledBy(s, CompleteCompensation(s, Committed(e.op, e.actor, e.before, e.after), s.ops[e.op].input.source).0, e)
  {
    var c, source := Committed(e.op, e.actor, e.before, e.after), s.ops[e.op].input.source;
    var u := RecordEvidence(s, c);
    assert CompleteCompensation(s, c, source) == (RecordRelation(u, Relation(source, e.op)), Accepted);
    assert u.ops == s.ops[e.op := Advanced(s.ops[e.op], Applied)];
  }

  // The replayed commit hands the call the original balances and writes nothing else.
  lemma CommitReplays(opening: map<Account, nat>, s: State, e: Evidence, retry: CallId)
    requires Inv(opening, s) && Backed(s, e.op, e.before, e.after)
    ensures OwnerCommit(s.(calls := s.calls[retry := Gated(e.op, e.actor)]), retry).0
            == s.(calls := s.calls[retry := Committed(e.op, e.actor, e.before, e.after)])
  {
    BackedReplays(opening, s, e.op, e.before, e.after);
    ReplayedCommit(s, e, retry);
  }

  lemma ReplayedCommit(s: State, e: Evidence, retry: CallId)
    requires Resolvable(s.ops, e.op) && e.before == e.after - Effect(s.ops, e.op).1 && e.after >= 0
    requires Mutate(s.book, OwnerRequest(s.ops, e.op)) == (s.book, Economy.Ok(e.after, true))
    ensures OwnerCommit(s.(calls := s.calls[retry := Gated(e.op, e.actor)]), retry).0
            == s.(calls := s.calls[retry := Committed(e.op, e.actor, e.before, e.after)])
  {
    var gated := s.calls[retry := Gated(e.op, e.actor)];
    assert gated[retry := Committed(e.op, e.actor, e.before, e.after)] == s.calls[retry := Committed(e.op, e.actor, e.before, e.after)];
  }

  // Completing a committed call is completing it in the state without the call.
  lemma CompleteIs(s: State, call: CallId, c: Call)
    requires call !in s.calls && c.Committed? && Resolvable(s.ops, c.op)
    ensures Complete(s.(calls := s.calls[call := c]), call).0
            == if s.ops[c.op].input.Adjust? then CompleteAdjustment(s, c).0 else CompleteCompensation(s, c, s.ops[c.op].input.source).0
  {
    var t := s.(calls := s.calls[call := c]);
    assert t.calls - {call} == s.calls;
    assert t.(calls := t.calls - {call}) == s;
  }

  lemma CompleteSettles(opening: map<Account, nat>, s: State, e: Evidence, retry: CallId)
    requires Inv(opening, s) && Resolvable(s.ops, e.op) && s.ops[e.op].status == Ready && Open(s, e.op) && retry !in s.calls
    ensures SettledBy(s, Complete(s.(calls := s.calls[retry := Committed(e.op, e.actor, e.before, e.after)]), retry).0, e)
  {
    CompleteIs(s, retry, Committed(e.op, e.actor, e.before, e.after));
    if s.ops[e.op].input.Compensate? {
      NoRelationYet(opening, s, s.ops[e.op].input.source);
      CompensationSettles(s, e);
    } else {
      AdjustmentSettles(s, e);
    }
  }

  lemma NoCallNoStep(s: State, call: CallId)
    requires call !in s.calls
    ensures OwnerCommit(s, call).0 == s == Complete(s, call).0
  {
  }

  lemma ApplyOnceIs(s: State, gated: State, committed: State, call: CallId, id: OpId, actor: Principal)
    requires Begin(s, call, id, actor, true).0 == gated && OwnerCommit(gated, call).0 == committed
    ensures ApplyOnce(s, call, id, actor) == Complete(committed, call).0
  {
  }

  // One more apply call for an operation that has its ledger row: it settles the operation with the
  // original evidence if it is open, and changes nothing at all if it is not.
  lemma RecoverAt(opening: map<Account, nat>, s: State, e: Evidence, retry: CallId)
    requires Inv(opening, s) && Backed(s, e.op, e.before, e.after) && CanRetry(s, e.op, retry)
    ensures var t := ApplyOnce(s, retry, e.op, e.actor);
            if Open(s, e.op) then SettledBy(s, t, e) else t == s
  {
    OpenBegins(opening, s, e.op, retry, e.actor);
    if Open(s, e.op) {
      CommitReplays(opening, s, e, retry);
      CompleteSettles(opening, s, e, retry);
      ApplyOnceIs(s, s.(calls := s.calls[retry := Gated(e.op, e.actor)]),
                  s.(calls := s.calls[retry := Committed(e.op, e.actor, e.before, e.after)]), retry, e.op, e.actor);
    } else {
      NoCallNoStep(s, retry);
      ApplyOnceIs(s, s, s, retry, e.op, e.actor);
    }
  }

  lemma SettledByMeans(s: State, t: State, e: Evidence)
    requires Resolvable(s.ops, e.op) && SettledBy(s, t, e)
    ensures |t.ops| == |s.ops| && t.book == s.book && Settled(t.ops[e.op])
  {
  }

  // The crash window: once the owner has committed, whether the call then crashed or not and whatever
  // else happened, one more apply call settles an operation left READY if and only if it is an
  // adjustment or its source is still APPLIED. No balance moves either way; the evidence shows the
  // balances of the original commit; a compensation adds exactly its one relation.
  lemma CrashWindowRecovers(opening: map<Account, nat>, s: State, call: CallId, later: seq<Event>, retry: CallId, actor: Principal)
    requires Reachable(opening, s) && call in s.calls && s.calls[call].Committed?
    requires CanRetry(Run(s, later), s.calls[call].op, retry)
    ensures var c, u := s.calls[call], Run(s, later);
            var t := ApplyOnce(u, retry, c.op, actor);
            && Resolvable(u.ops, c.op) && |t.ops| == |u.ops|
            && t.book == u.book
            && (Settled(t.ops[c.op]) <==> Open(u, c.op))
            && if Open(u, c.op) then SettledBy(u, t, Evidence(c.op, actor, c.before, c.after)) else t == u
  {
    var c, u := s.calls[call], Run(s, later);
    BackedLater(opening, s, call, later);
    var e := Evidence(c.op, actor, c.before, c.after);
    RecoverAt(opening, u, e, retry);
    if Open(u, c.op) {
      SettledByMeans(u, ApplyOnce(u, retry, c.op, actor), e);
    }
  }

  lemma BackedLater(opening: map<Account, nat>, s: State, call: CallId, later: seq<Event>)
    requires Reachable(opening, s) && call in s.calls && s.calls[call].Committed?
    ensures var c := s.calls[call]; Inv(opening, Run(s, later)) && Backed(Run(s, later), c.op, c.before, c.after)
  {
    var c := s.calls[call];
    ReachableInv(opening, s);
    RunKeepsInv(opening, s, later);
    RunEvolves(s, later);
    assert CallSound(s, c);
    BackedStable(s, Run(s, later), c.op, c.before, c.after);
  }

  lemma {:induction false} TwoRelations(rs: seq<Relation>, a: Relation, b: Relation)
    requires a in rs && b in rs && a != b && a.source == b.source
    ensures CountSource(rs, a.source) >= 2
  {
    var front, last := rs[..|rs| - 1], rs[|rs| - 1];
    assert rs == front + [last];
    if last == a {
      assert b in front;
      CountSourcePositive(front, a.source);
    } else if last == b {
      assert a in front;
      CountSourcePositive(front, a.source);
    } else {
      TwoRelations(front, a, b);
    }
  }

  // With a relation of another compensation in place, this one is not applied, and never compensated.
  lemma OtherRelationExcludes(ops: seq<Operation>, relations: seq<Relation>, r: Relation, id: OpId)
    requires RelationsSound(ops, relations) && r in relations && r.source < |ops|
    requires id < |ops| && ops[id].input.Compensate? && ops[id].input.source == r.source && r.compensation != id
    ensures !Settled(ops[id])
  {
    if ops[id].status == Applied {
      TwoRelations(relations, r, Relation(r.source, id));
    } else if ops[id].status == Compensated {
      CountSourcePositive(relations, id);
    }
  }

  // A compensation whose source another compensation has reversed is refused for ever: in no later state
  // is it applied, so a row it left in the ledger before a crash stays there without evidence.
  lemma SecondCompensationStuck(opening: map<Account, nat>, s: State, id: OpId, es: seq<Event>)
    requires Inv(opening, s) && id < |s.ops| && s.ops[id].input.Compensate? && !Settled(s.ops[id])
    requires s.ops[id].input.source < |s.ops| && s.ops[s.ops[id].input.source].status == Compensated
    ensures var t := Run(s, es);
            && id < |t.ops| && !Settled(t.ops[id])
            && CountOp(t.changes, id) == 0 == CountOp(t.audits, id)
            && s.book.rows <= t.book.rows
  {
    var t := Run(s, es);
    RunKeepsInv(opening, s, es);
    RunEvolves(s, es);
    var r := ReversedBy(s.ops, s.relations, s.ops[id].input.source);
    OvertakenStays(s, t, id, r);
    OperationOnce(opening, t, id);
  }

  lemma OvertakenStays(s: State, t: State, id: OpId, r: Relation)
    requires Evolves(s, t) && id < |s.ops| && s.ops[id].input.Compensate? && !Settled(s.ops[id])
    requires r in s.relations && r.source == s.ops[id].input.source < |s.ops|
    requires r.compensation < |s.ops| && s.ops[r.compensation].status == Applied
    requires RelationsSound(t.ops, t.relations)
    ensures !Settled(t.ops[id])
  {
    assert OpEvolves(s.ops[id], t.ops[id]);
    OtherRelationExcludes(t.ops, t.relations, r, id);
  }

  lemma ReversedBy(ops: seq<Operation>, relations: seq<Relation>, source: OpId) returns (r: Relation)
    requires RelationsSound(ops, relations) && source < |ops| && ops[source].status == Compensated
    ensures r in relations && r.source == source && r.compensation < |ops| && ops[r.compensation].status == Applied
  {
    CountSourcePositive(relations, source);
    r :| r in relations && r.source == source;
    assert RelationSound(ops, r);
  }

  // ----- An undisturbed apply -----

  // One uninterrupted apply of a READY adjustment settles it, repeating no ledger row.
  lemma ApplySettles(s: State, call: CallId, id: OpId, actor: Principal)
    requires id < |s.ops| && s.ops[id].status == Ready && s.ops[id].input.Adjust? && s.ops[id].reason.Some?
    requires !Drifted(s, s.ops[id]) && call !in s.calls
    requires Mutate(s.book, OwnerRequest(s.ops, id)).1.Ok?
    ensures var t := ApplyOnce(s, call, id, actor);
            var after := Mutate(s.book, OwnerRequest(s.ops, id)).1.balance;
            && t.ops == s.ops[id := s.ops[id].(status := Applied, revision := s.ops[id].revision + 1)]
            && t.calls == s.calls
            && t.book == Economy.Apply(s.book, OwnerRequest(s.ops, id))
            && t.changes == s.changes + [Evidence(id, actor, after - s.ops[id].input.delta, after)]
  {
    var s1 := s.(calls := s.calls[call := Gated(id, actor)]);
    assert Next(s, DoBegin(call, id, actor, true)) == s1;
    CommitSettles(s1, call, id, actor);
  }

  // The adjustment is applied: exactly its delta moved on its account, with one new row, and the change
  // shows the balances around it.
  predicate AppliedOnce(s: State, t: State, id: OpId, actor: Principal)
    requires id < |s.ops| && s.ops[id].input.Adjust?
  {
    var account, delta := s.ops[id].input.account, s.ops[id].input.delta;
    var before := Balance(s.book.balances, account);
    && id < |t.ops| && t.ops[id].status == Applied && t.ops[id].input == s.ops[id].input
    && before + delta >= 0 && t.book.balances == s.book.balances[account := before + delta]
    && |t.book.rows| == |s.book.rows| + 1 && s.book.rows <= t.book.rows
    && t.changes != [] && t.changes[|t.changes| - 1] == Evidence(id, actor, before, before + delta)
  }

  predicate DeltaFits(s: State, id: OpId)
    requires id < |s.ops| && s.ops[id].input.Adjust?
  {
    var account, delta := s.ops[id].input.account, s.ops[id].input.delta;
    InRange(delta) && 0 <= Balance(s.book.balances, account) + delta <= BIGINT_MAX
  }

  lemma ReadyApplies(s: State, call: CallId, id: OpId, actor: Principal)
    requires id < |s.ops| && s.ops[id].status == Ready && s.ops[id].input.Adjust? && s.ops[id].reason.Some?
    requires !Drifted(s, s.ops[id]) && call !in s.calls && !HasRow(s.book.rows, id) && DeltaFits(s, id)
    ensures AppliedOnce(s, ApplyOnce(s, call, id, actor), id, actor)
  {
    FreshCommits(s.book, OwnerRequest(s.ops, id));
    ApplySettles(s, call, id, actor);
  }

  // From prepared to applied: whatever gates an adjustment still has to pass, once its proposer and enough
  // others have done their part, one apply call settles it, provided the delta fits and the definitions
  // have not changed.
  lemma AdjustmentRunsThrough(opening: map<Account, nat>, s: State, id: OpId, who: seq<Principal>, call: CallId, actor: Principal)
    requires Reachable(opening, s) && id < |s.ops| && !Settled(s.ops[id]) && !Drifted(s, s.ops[id])
    requires s.ops[id].input.Adjust? && s.ops[id].reason.Some? && call !in s.calls && !HasRow(s.book.rows, id)
    requires MayApprove(s, id, who) && |Signers(s.approvals, id)| + |who| >= s.ops[id].definition.policy.requiredApprovals
    requires DeltaFits(s, id)
    ensures var ready := Run(s, GateEvents(s, id, who));
            AppliedOnce(s, ApplyOnce(ready, call, id, actor), id, actor)
  {
    GatesLeadToReady(opening, s, id, who);
    SameRequestApplies(s, Run(s, GateEvents(s, id, who)), call, id, actor);
  }

  lemma SameRequestApplies(s: State, ready: State, call: CallId, id: OpId, actor: Principal)
    requires SameRequestOf(s, ready, id) && ready.ops[id].status == Ready && !Drifted(ready, ready.ops[id])
    requires s.ops[id].input.Adjust? && s.ops[id].reason.Some? && call !in s.calls && !HasRow(s.book.rows, id) && DeltaFits(s, id)
    ensures AppliedOnce(s, ApplyOnce(ready, call, id, actor), id, actor)
  {
    ReadyApplies(ready, call, id, actor);
  }

  lemma CommitSettles(s: State, call: CallId, id: OpId, actor: Principal)
    requires call in s.calls && s.calls[call] == Gated(id, actor)
    requires id < |s.ops| && s.ops[id].status == Ready && s.ops[id].input.Adjust?
    requires Mutate(s.book, OwnerRequest(s.ops, id)).1.Ok?
    ensures var t := Next(Next(s, DoOwnerCommit(call)), DoComplete(call));
            var after := Mutate(s.book, OwnerRequest(s.ops, id)).1.balance;
            && t.ops == s.ops[id := s.ops[id].(status := Applied, revision := s.ops[id].revision + 1)]
            && t.calls == s.calls - {call}
            && t.book == Economy.Apply(s.book, OwnerRequest(s.ops, id))
            && t.changes == s.changes + [Evidence(id, actor, after - s.ops[id].input.delta, after)]
  {
    var m := OwnerRequest(s.ops, id);
    var after := Mutate(s.book, m).1.balance;
    var s2 := s.(book := Economy.Apply(s.book, m), calls := s.calls[call := Committed(id, actor, after - m.delta, after)]);
    assert Next(s, DoOwnerCommit(call)) == s2;
    assert s2.calls - {call} == s.calls - {call};
    assert Next(s2, DoComplete(call)) == RecordEvidence(s2.(calls := s2.calls - {call}), s2.calls[call]);
  }
}
