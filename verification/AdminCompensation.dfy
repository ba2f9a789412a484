/** What compensation does to the ledger: one-shot relations, and exactly when source and inverse
  * deltas cancel.
  */
module AdminCompensation {
  import opened Wrappers
  import opened Economy
  import opened AdminProtocol
  import opened AdminSafety
  import opened AdminLedger

  predicate IsInverse(ops: seq<Operation>, row: Row, source: OpId) {
    && row.key.AdminOperation?
    && row.key.id < |ops|
    && ops[row.key.id].input.Compensate?
    && ops[row.key.id].input.source == source
  }

  // Every ledger row of an operation is what the operation asks for: an adjustment's own delta on its own
  // account, a compensation's source delta taken back from the source's account, which is its own player's.
  lemma RowsDoTheirOperation(opening: map<Account, nat>, s: State, i: nat)
    requires Reachable(opening, s) && i < |s.book.rows| && s.book.rows[i].key.AdminOperation?
    ensures var row := s.book.rows[i];
            && row.key.id < |s.ops|
            && var op := s.ops[row.key.id];
               && op.reason.Some? && row.audit == op.proposer
               && (op.input.Adjust? ==> row.account == op.input.account && row.delta == op.input.delta)
               && (op.input.Compensate? ==>
                     && op.input.source < |s.ops| && s.ops[op.input.source].input.Adjust?
                     && row.account == s.ops[op.input.source].input.account
                     && row.delta == -s.ops[op.input.source].input.delta
                     && row.account.player == op.input.player)
  {
    ReachableInv(opening, s);
    assert RowOwned(s, s.book.rows[i]);
  }

  // How many ledger rows undo the source.
  function Inverses(ops: seq<Operation>, rows: seq<Row>, source: OpId): nat {
    if rows == [] then 0
    else Inverses(ops, rows[..|rows| - 1], source) + if IsInverse(ops, rows[|rows| - 1], source) then 1 else 0
  }

  function Owned(rows: seq<Row>, id: OpId): nat {
    if rows == [] then 0
    else Owned(rows[..|rows| - 1], id) + if rows[|rows| - 1].key == AdminOperation(id) then 1 else 0
  }

  // The sum of the source's own ledger delta and of every inverse of it.
  function Net(ops: seq<Operation>, rows: seq<Row>, source: OpId): int {
    if rows == [] then 0
    else
      var last := rows[|rows| - 1];
      Net(ops, rows[..|rows| - 1], source)
      + if last.key == AdminOperation(source) || IsInverse(ops, last, source) then last.delta else 0
  }

  // ----- Compensation is one-shot -----

  // COMPENSATED means exactly one relation; its compensation is applied, undoes this very source,
  // and can itself never be compensated.
  lemma CompensatedIffOneRelation(opening: map<Account, nat>, s: State, id: OpId)
    requires Reachable(opening, s) && id < |s.ops|
    ensures CountSource(s.relations, id) == if s.ops[id].status == Compensated then 1 else 0
    ensures forall r :: r in s.relations && r.source == id ==>
              && r.compensation < |s.ops| && s.ops[r.compensation].status == Applied
              && s.ops[r.compensation].input.Compensate? && s.ops[r.compensation].input.source == id
              && CountSource(s.relations, r.compensation) == 0
    ensures s.ops[id].input.Compensate? ==> s.ops[id].status != Compensated
  {
    ReachableInv(opening, s);
    assert forall r :: r in s.relations ==> RelationSound(s.ops, r);
    CountSourcePositive(s.relations, id);
  }

  // ----- When source and inverses cancel -----

  lemma {:induction false} NetShape(s: State, rows: seq<Row>, source: OpId)
    requires source < |s.ops| && s.ops[source].input.Adjust?
    requires forall i :: 0 <= i < |rows| ==> RowOwned(s, rows[i])
    ensures Net(s.ops, rows, source) == s.ops[source].input.delta * (Owned(rows, source) - Inverses(s.ops, rows, source))
  {
    if rows != [] {
      var front, d := rows[..|rows| - 1], s.ops[source].input.delta;
      NetShape(s, front, source);
      assert RowOwned(s, rows[|rows| - 1]);
      var k := Owned(front, source) - Inverses(s.ops, front, source);
      assert d * (k + 1) == d * k + d && d * (k - 1) == d * k - d;
    }
  }

  lemma {:induction false} OwnedBounds(rows: seq<Row>, id: OpId)
    requires forall i, j :: 0 <= i < j < |rows| ==> !(rows[i].key == AdminOperation(id) && rows[j].key == AdminOperation(id))
    ensures Owned(rows, id) <= 1
    ensures Owned(rows, id) == 1 <==> exists i :: 0 <= i < |rows| && rows[i].key == AdminOperation(id)
  {
    if rows != [] {
      var front := rows[..|rows| - 1];
      OwnedBounds(front, id);
      if rows[|rows| - 1].key == AdminOperation(id) {
        assert forall i :: 0 <= i < |front| ==> front[i] == rows[i];
      } else if Owned(front, id) == 1 {
        var i :| 0 <= i < |front| && front[i].key == AdminOperation(id);
        assert rows[i].key == AdminOperation(id);
      }
    }
  }

  lemma {:induction false} InverseRow(ops: seq<Operation>, rows: seq<Row>, source: OpId)
    ensures Inverses(ops, rows, source) > 0 <==> exists i :: 0 <= i < |rows| && IsInverse(ops, rows[i], source)
  {
    if rows != [] {
      var front := rows[..|rows| - 1];
      InverseRow(ops, front, source);
      if Inverses(ops, front, source) > 0 {
        var i :| 0 <= i < |front| && IsInverse(ops, front[i], source);
        assert IsInverse(ops, rows[i], source);
      }
    }
  }

  // A source with an inverse in the ledger is itself in the ledger, once.
  lemma InvertedSourceIsOwned(opening: map<Account, nat>, s: State, source: OpId)
    requires Reachable(opening, s) && source < |s.ops| && Inverses(s.ops, s.book.rows, source) > 0
    ensures s.ops[source].input.Adjust? && s.ops[source].input.delta != 0 && Owned(s.book.rows, source) == 1
  {
    ReachableInv(opening, s);
    InverseRow(s.ops, s.book.rows, source);
    var i :| 0 <= i < |s.book.rows| && IsInverse(s.ops, s.book.rows[i], source);
    assert RowOwned(s, s.book.rows[i]) && RowAt(opening, s.book.rows, i);
    EachOperationOnce(opening, s, source);
    var k :| OriginalRow(opening, s, source, k);
    OwnedBounds(s.book.rows, source);
  }

  // The ledger effect of a reversed source is zero exactly when one inverse was committed; every
  // further compensation operation that got as far as the owner subtracts the delta once more.
  lemma CancelsIffOneInverse(opening: map<Account, nat>, s: State, source: OpId)
    requires Reachable(opening, s) && source < |s.ops| && Inverses(s.ops, s.book.rows, source) > 0
    ensures s.ops[source].input.Adjust?
    ensures Net(s.ops, s.book.rows, source) == 0 <==> Inverses(s.ops, s.book.rows, source) == 1
    ensures Net(s.ops, s.book.rows, source) == s.ops[source].input.delta * (1 - Inverses(s.ops, s.book.rows, source))
  {
    InvertedSourceIsOwned(opening, s, source);
    ReachableInv(opening, s);
    NetShape(s, s.book.rows, source);
    NonZeroProduct(s.ops[source].input.delta, 1 - Inverses(s.ops, s.book.rows, source));
  }

  lemma NonZeroProduct(x: int, y: int)
    requires x != 0
    ensures x * y == 0 <==> y == 0
  {
  }

  // COMPENSATED implies that an inverse reached the ledger.
  lemma CompensatedHasInverse(opening: map<Account, nat>, s: State, source: OpId)
    requires Reachable(opening, s) && source < |s.ops| && s.ops[source].status == Compensated
    ensures Inverses(s.ops, s.book.rows, source) > 0
  {
    CompensatedIffOneRelation(opening, s, source);
    CountSourcePositive(s.relations, source);
    var r :| r in s.relations && r.source == source;
    AppliedHasRow(opening, s, r.compensation);
    var i: nat :| i < |s.book.rows| && s.book.rows[i].key == AdminOperation(r.compensation);
    assert IsInverse(s.ops, s.book.rows[i], source);
    InverseRow(s.ops, s.book.rows, source);
  }

  lemma AppliedHasRow(opening: map<Account, nat>, s: State, id: OpId)
    requires Reachable(opening, s) && id < |s.ops| && Settled(s.ops[id])
    ensures HasRow(s.book.rows, id)
  {
    EachOperationOnce(opening, s, id);
    var i :| OriginalRow(opening, s, id, i);
  }

  // ----- Exactly which runs cancel -----

  // The event commits a compensation that is not in the ledger yet.
  predicate CommitsCompensation(s: State, e: Event) {
    && e.DoOwnerCommit? && e.call in s.calls && FirstCommit(s, e, s.calls[e.call].op)
    && s.ops[s.calls[e.call].op].input.Compensate?
  }

  function Undone(s: State, e: Event): OpId
    requires CommitsCompensation(s, e)
  {
    s.ops[s.calls[e.call].op].input.source
  }

  // The guard the code lacks: no other compensation of the same source is in the ledger yet.
  predicate Clean(s: State, e: Event) {
    CommitsCompensation(s, e) ==> Inverses(s.ops, s.book.rows, Undone(s, e)) == 0
  }

  predicate CleanRun(s: State, es: seq<Event>)
    decreases |es|
  {
    es == [] || (Clean(s, es[0]) && CleanRun(Next(s, es[0]), es[1..]))
  }

  ghost predicate AtMostOneInverse(s: State) {
    forall source: OpId :: Inverses(s.ops, s.book.rows, source) <= 1
  }

  lemma {:induction false} InversesStable(s: State, t: State, rows: seq<Row>, source: OpId)
    requires Evolves(s, t)
    requires forall i :: 0 <= i < |rows| && rows[i].key.AdminOperation? ==> rows[i].key.id < |s.ops|
    ensures Inverses(t.ops, rows, source) == Inverses(s.ops, rows, source)
  {
    if rows != [] {
      InversesStable(s, t, rows[..|rows| - 1], source);
      var last := rows[|rows| - 1];
      if last.key.AdminOperation? {
        assert OpEvolves(s.ops[last.key.id], t.ops[last.key.id]);
      }
    }
  }

  lemma InversesAppend(ops: seq<Operation>, rows: seq<Row>, row: Row, source: OpId)
    ensures Inverses(ops, rows + [row], source) == Inverses(ops, rows, source) + if IsInverse(ops, row, source) then 1 else 0
  {
    assert (rows + [row])[..|rows|] == rows;
  }

  lemma BookStep(s: State, e: Event)
    ensures Next(s, e).book.rows == s.book.rows
            || (e.Intervene? && exists row: Row :: !row.key.AdminOperation? && Next(s, e).book.rows == s.book.rows + [row])
            || (e.DoOwnerCommit? && OwnerCommit(s, e.call).1.Accepted?
                && exists row: Row :: row.key == AdminOperation(s.calls[e.call].op) && Next(s, e).book.rows == s.book.rows + [row])
    ensures e.DoOwnerCommit? && OwnerCommit(s, e.call).1.Accepted? ==>
              Next(s, e).ops == s.ops && |Next(s, e).book.rows| == |s.book.rows| + 1
  {
    if e.Intervene? {
      var m := Mutation(e.account, e.delta, Gameplay(e.key), 0);
      if Mutate(s.book, m).0 != s.book {
        assert Next(s, e).book.rows == s.book.rows + [NewRow(s.book, m)];
      }
    } else if e.DoOwnerCommit? {
      if OwnerCommit(s, e.call).1.Accepted? {
        var m := OwnerRequest(s.ops, s.calls[e.call].op);
        assert Next(s, e).book.rows == s.book.rows + [NewRow(s.book, m)];
      }
    }
  }

  lemma InversesStep(opening: map<Account, nat>, s: State, e: Event, source: OpId)
    requires Inv(opening, s)
    ensures Inverses(Next(s, e).ops, Next(s, e).book.rows, source)
            == Inverses(s.ops, s.book.rows, source) + if CommitsCompensation(s, e) && Undone(s, e) == source then 1 else 0
  {
    var t := Next(s, e);
    StepEvolves(s, e);
    BookStep(s, e);
    if e.DoOwnerCommit? {
      AcceptedIffFirstCommit(opening, s, e.call);
    }
    assert forall i :: 0 <= i < |s.book.rows| ==> RowOwned(s, s.book.rows[i]);
    InversesStable(s, t, s.book.rows, source);
    if t.book.rows != s.book.rows {
      var row := t.book.rows[|s.book.rows|];
      assert t.book.rows == s.book.rows + [row];
      InversesAppend(t.ops, s.book.rows, row, source);
    }
  }

  lemma {:induction false} InversesOnlyGrow(opening: map<Account, nat>, s: State, es: seq<Event>, source: OpId)
    requires Inv(opening, s)
    ensures Inverses(Run(s, es).ops, Run(s, es).book.rows, source) >= Inverses(s.ops, s.book.rows, source)
    decreases |es|
  {
    if es != [] {
      InversesStep(opening, s, es[0], source);
      StepKeepsInv(opening, s, es[0]);
      InversesOnlyGrow(opening, Next(s, es[0]), es[1..], source);
    }
  }

  lemma {:induction false} AtMostOneIffClean(opening: map<Account, nat>, s: State, es: seq<Event>)
    requires Inv(opening, s) && AtMostOneInverse(s)
    ensures AtMostOneInverse(Run(s, es)) <==> CleanRun(s, es)
    decreases |es|
  {
    if es != [] {
      var t := Next(s, es[0]);
      StepKeepsInv(opening, s, es[0]);
      forall source: OpId
        ensures Inverses(t.ops, t.book.rows, source)
                == Inverses(s.ops, s.book.rows, source) + if CommitsCompensation(s, es[0]) && Undone(s, es[0]) == source then 1 else 0
      {
        InversesStep(opening, s, es[0], source);
      }
      if Clean(s, es[0]) {
        AtMostOneIffClean(opening, t, es[1..]);
      } else {
        InversesOnlyGrow(opening, t, es[1..], Undone(s, es[0]));
      }
    }
  }

  ghost predicate ReversalsCancel(s: State) {
    forall source: OpId :: Inverses(s.ops, s.book.rows, source) > 0 ==> Net(s.ops, s.book.rows, source) == 0
  }

  // Over whole runs: every source that was reversed nets to zero if and only if no owner commit of
  // a compensation happened while another compensation of its source was already in the ledger.
  lemma ReversalsCancelIffClean(registry: Registry, opening: map<Account, nat>, es: seq<Event>)
    requires forall a :: a in opening ==> opening[a] <= BIGINT_MAX
    ensures ReversalsCancel(Run(Initial(registry, opening), es)) <==> CleanRun(Initial(registry, opening), es)
  {
    var s := Initial(registry, opening);
    var t := Run(s, es);
    assert Reachable(opening, t);
    AtMostOneIffClean(opening, s, es);
    assert AtMostOneInverse(t) <==> CleanRun(s, es);
    forall source: OpId | Inverses(t.ops, t.book.rows, source) > 0
      ensures Net(t.ops, t.book.rows, source) == 0 <==> Inverses(t.ops, t.book.rows, source) <= 1
    {
      InverseInRange(opening, t, source);
      CancelsIffOneInverse(opening, t, source);
    }
    assert ReversalsCancel(t) <==> AtMostOneInverse(t);
  }

  lemma InverseInRange(opening: map<Account, nat>, s: State, source: OpId)
    requires Reachable(opening, s) && Inverses(s.ops, s.book.rows, source) > 0
    ensures source < |s.ops|
  {
    ReachableInv(opening, s);
    InverseRow(s.ops, s.book.rows, source);
    var i :| 0 <= i < |s.book.rows| && IsInverse(s.ops, s.book.rows[i], source);
    assert RowOwned(s, s.book.rows[i]);
  }

  // ----- The failing run: two compensations of one source reach the owner -----

  const UNGATED := Definition(0, 0, 0, Policy(0, true, false, false, 0))
  const REGISTRY := Registry(UNGATED, UNGATED, UNGATED)
  const POTIONS := Item(1, 1)
  const SOURCE := Adjust(POTIONS, 5)
  const UNDO := Compensate(1, 0)

  function Prepared(input: Input, status: Status, revision: nat): Operation {
    Operation(7, input, Some(0), UNGATED, Fingerprint(7, UNGATED, input, Some(0)), status, false, revision)
  }

  const ROW0 := Row(InventoryAdd, AdminOperation(0), POTIONS, 5, 7, 15)
  const ROW1 := Row(InventoryConsume, AdminOperation(1), POTIONS, -5, 7, 10)
  const ROW2 := Row(InventoryConsume, AdminOperation(2), POTIONS, -5, 7, 5)

  // Ten potions, and an applied operation that added five.
  function AfterSource(): State {
    State(REGISTRY, [Prepared(SOURCE, Applied, 1)], map[0 := 0], map[], map[],
          Book(map[POTIONS := 15], [ROW0]), [Evidence(0, 7, 10, 15)], [Evidence(0, 7, 10, 15)], [], map[])
  }

  // Two compensation operations, both past the status check while the source was still APPLIED.
  function TwoInFlight(): State {
    AfterSource().(ops := [Prepared(SOURCE, Applied, 1), Prepared(UNDO, Ready, 0), Prepared(UNDO, Ready, 0)],
                   keys := map[0 := 0, 1 := 1, 2 := 2],
                   calls := map[1 := Gated(1, 7), 2 := Gated(2, 7)])
  }

  function BothCommitted(): State {
    TwoInFlight().(book := Book(map[POTIONS := 5], [ROW0, ROW1, ROW2]),
                   calls := map[1 := Committed(1, 7, 15, 10), 2 := Committed(2, 7, 10, 5)])
  }

  function OneCompleted(): State {
    BothCommitted().(ops := [Prepared(SOURCE, Compensated, 2), Prepared(UNDO, Applied, 1), Prepared(UNDO, Ready, 0)],
                     changes := [Evidence(0, 7, 10, 15), Evidence(1, 7, 15, 10)],
                     audits := [Evidence(0, 7, 10, 15), Evidence(1, 7, 15, 10)],
                     relations := [Relation(0, 1)],
                     calls := map[2 := Committed(2, 7, 10, 5)])
  }

  lemma {:induction false} RunAppend(s: State, xs: seq<Event>, ys: seq<Event>)
    ensures Run(s, xs + ys) == Run(Run(s, xs), ys)
    decreases |xs|
  {
    if xs == [] {
      assert xs + ys == ys;
    } else {
      assert (xs + ys)[1..] == xs[1..] + ys;
      RunAppend(Next(s, xs[0]), xs[1..], ys);
    }
  }

  lemma RunFour(s: State, a: Event, b: Event, c: Event, d: Event)
    ensures Run(s, [a, b, c, d]) == Next(Next(Next(Next(s, a), b), c), d)
  {
    var s1, s2 := Next(s, a), Next(Next(s, a), b);
    assert [a, b, c, d][1..] == [b, c, d] && [b, c, d][1..] == [c, d] && [c, d][1..] == [d] && [d][1..] == [];
    assert Run(s, [a, b, c, d]) == Run(s1, [b, c, d]);
    assert Run(s1, [b, c, d]) == Run(s2, [c, d]);
    assert Run(s2, [c, d]) == Run(Next(s2, c), [d]);
  }

  const SOURCE_EVENTS := [DoPrepare(7, 0, SOURCE, Some(0), true), DoBegin(0, 0, 7, true), DoOwnerCommit(0), DoComplete(0)]
  const UNDO_EVENTS := [DoPrepare(7, 1, UNDO, Some(0), true), DoPrepare(7, 2, UNDO, Some(0), true),
                        DoBegin(1, 1, 7, true), DoBegin(2, 2, 7, true)]
  const END_EVENTS := [DoOwnerCommit(1), DoOwnerCommit(2), DoComplete(1), DoComplete(2)]

  function SourceGated(): State {
    Initial(REGISTRY, map[POTIONS := 10]).(ops := [Prepared(SOURCE, Ready, 0)], keys := map[0 := 0],
                                           calls := map[0 := Gated(0, 7)])
  }

  lemma SourceGates()
    ensures Next(Next(Initial(REGISTRY, map[POTIONS := 10]), SOURCE_EVENTS[0]), SOURCE_EVENTS[1]) == SourceGated()
  {
    var s := Initial(REGISTRY, map[POTIONS := 10]);
    var s1 := s.(ops := [Prepared(SOURCE, Ready, 0)], keys := map[0 := 0]);
    assert Next(s, SOURCE_EVENTS[0]) == s1;
  }

  lemma SourceApplies()
    ensures Next(Next(SourceGated(), SOURCE_EVENTS[2]), SOURCE_EVENTS[3]) == AfterSource()
  {
    var s := SourceGated().(book := Book(map[POTIONS := 15], [ROW0]), calls := map[0 := Committed(0, 7, 10, 15)]);
    assert Next(SourceGated(), SOURCE_EVENTS[2]) == s;
  }

  lemma SourceRun()
    ensures Run(Initial(REGISTRY, map[POTIONS := 10]), SOURCE_EVENTS) == AfterSource()
  {
    RunFour(Initial(REGISTRY, map[POTIONS := 10]), SOURCE_EVENTS[0], SOURCE_EVENTS[1], SOURCE_EVENTS[2], SOURCE_EVENTS[3]);
    SourceGates();
    SourceApplies();
  }

  lemma UndoRun()
    ensures Run(AfterSource(), UNDO_EVENTS) == TwoInFlight()
  {
    var s := AfterSource();
    RunFour(s, UNDO_EVENTS[0], UNDO_EVENTS[1], UNDO_EVENTS[2], UNDO_EVENTS[3]);
    var s1 := s.(ops := s.ops + [Prepared(UNDO, Ready, 0)], keys := map[0 := 0, 1 := 1]);
    assert Next(s, UNDO_EVENTS[0]) == s1;
    var s2 := s1.(ops := s1.ops + [Prepared(UNDO, Ready, 0)], keys := map[0 := 0, 1 := 1, 2 := 2]);
    assert Next(s1, UNDO_EVENTS[1]) == s2;
    var s3 := s2.(calls := map[1 := Gated(1, 7)]);
    assert Next(s2, UNDO_EVENTS[2]) == s3;
    assert Next(s3, UNDO_EVENTS[3]) == TwoInFlight();
  }

  lemma BothCommit()
    ensures Next(Next(TwoInFlight(), END_EVENTS[0]), END_EVENTS[1]) == BothCommitted()
  {
    var s := TwoInFlight().(book := Book(map[POTIONS := 10], [ROW0, ROW1]),
                            calls := map[1 := Committed(1, 7, 15, 10), 2 := Gated(2, 7)]);
    assert Next(TwoInFlight(), END_EVENTS[0]) == s;
  }

  lemma FirstCompletes()
    ensures Next(BothCommitted(), END_EVENTS[2]) == OneCompleted()
  {
  }

  lemma SecondIsRefused()
    ensures Step(OneCompleted(), END_EVENTS[3]) == (OneCompleted().(calls := map[]), Refused(InvalidState))
  {
  }

  lemma EndRun()
    ensures Run(TwoInFlight(), END_EVENTS) == OneCompleted().(calls := map[])
  {
    RunFour(TwoInFlight(), END_EVENTS[0], END_EVENTS[1], END_EVENTS[2], END_EVENTS[3]);
    BothCommit();
    FirstCompletes();
    SecondIsRefused();
  }

  // One source of +5, one relation, but the ledger took 5 away twice: ten potions became five.
  lemma DoubleReversal()
    ensures var t := Run(Initial(REGISTRY, map[POTIONS := 10]), SOURCE_EVENTS + UNDO_EVENTS + END_EVENTS);
            && |t.ops| == 3 && t.ops[0].status == Compensated && t.relations == [Relation(0, 1)]
            && t.book.rows == [ROW0, ROW1, ROW2]
            && t.book.balances == map[POTIONS := 5]
            && Net(t.ops, t.book.rows, 0) == -5
  {
    var s := Initial(REGISTRY, map[POTIONS := 10]);
    RunAppend(s, SOURCE_EVENTS + UNDO_EVENTS, END_EVENTS);
    RunAppend(s, SOURCE_EVENTS, UNDO_EVENTS);
    SourceRun();
    UndoRun();
    EndRun();
    var t := OneCompleted();
    assert [ROW0, ROW1, ROW2][..2] == [ROW0, ROW1] && [ROW0, ROW1][..1] == [ROW0] && [ROW0][..0] == [];
    assert Net(t.ops, [ROW0], 0) == 5;
    assert Net(t.ops, [ROW0, ROW1], 0) == 0;
  }
}
