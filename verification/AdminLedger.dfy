/** When an operation's mutation enters the owner's ledger, told from the tables before the commit.
  */
module AdminLedger {
  import opened Economy
  import opened AdminProtocol
  import opened AdminSafety

  predicate HasRow(rows: seq<Row>, id: OpId) {
    exists i :: 0 <= i < |rows| && rows[i].key == AdminOperation(id)
  }

  // What lets the owner commit an operation it has no row of yet: a gated call, and a balance the delta
  // fits into.
  predicate Commits(s: State, e: Event, id: OpId) {
    && e.DoOwnerCommit? && e.call in s.calls && s.calls[e.call].Gated? && s.calls[e.call].op == id
    && Resolvable(s.ops, id) && Fits(s.book, OwnerRequest(s.ops, id))
  }

  predicate FirstCommit(s: State, e: Event, id: OpId) {
    Commits(s, e, id) && !HasRow(s.book.rows, id)
  }

  lemma AppendRow(b: Book, m: Mutation, id: OpId)
    requires m.key != AdminOperation(id)
    ensures HasRow(Mutate(b, m).0.rows, id) <==> HasRow(b.rows, id)
  {
    var t := Mutate(b, m).0;
    if t != b {
      assert t.rows == b.rows + [NewRow(b, m)];
      if HasRow(b.rows, id) {
        var i :| 0 <= i < |b.rows| && b.rows[i].key == AdminOperation(id);
        assert t.rows[i].key == AdminOperation(id);
      }
    }
  }

  lemma CommitRow(s: State, call: CallId, id: OpId)
    requires !HasRow(s.book.rows, id)
    ensures HasRow(OwnerCommit(s, call).0.book.rows, id) <==> Commits(s, DoOwnerCommit(call), id)
  {
    if call in s.calls && s.calls[call].Gated? && Resolvable(s.ops, s.calls[call].op) {
      var m := OwnerRequest(s.ops, s.calls[call].op);
      if s.calls[call].op == id {
        FreshCommits(s.book, m);
        if Fits(s.book, m) {
          assert OwnerCommit(s, call).0.book.rows[|s.book.rows|].key == AdminOperation(id);
        }
      } else {
        AppendRow(s.book, m, id);
      }
    }
  }

  lemma RowStep(s: State, e: Event, id: OpId)
    requires !HasRow(s.book.rows, id)
    ensures HasRow(Next(s, e).book.rows, id) <==> Commits(s, e, id)
  {
    if e.DoOwnerCommit? {
      CommitRow(s, e.call, id);
    } else if e.Intervene? {
      AppendRow(s.book, Mutation(e.account, e.delta, Gameplay(e.key), 0), id);
    }
  }

  // An operation that has its row is never committed anew.
  lemma RowMeansReplay(opening: map<Account, nat>, s: State, call: CallId)
    requires Inv(opening, s) && call in s.calls && s.calls[call].Gated? && HasRow(s.book.rows, s.calls[call].op)
    ensures !OwnerCommit(s, call).1.Accepted?
  {
    var id := s.calls[call].op;
    var i :| 0 <= i < |s.book.rows| && s.book.rows[i].key == AdminOperation(id);
    assert RowOwned(s, s.book.rows[i]) && RowAt(opening, s.book.rows, i);
    FindExact(s.book.rows, s.book.rows[i].scope, AdminOperation(id));
  }

  // The owner's answer can be told before the call.
  lemma AcceptedIffFirstCommit(opening: map<Account, nat>, s: State, call: CallId)
    requires Inv(opening, s)
    ensures OwnerCommit(s, call).1.Accepted? <==> call in s.calls && FirstCommit(s, DoOwnerCommit(call), s.calls[call].op)
  {
    if call in s.calls && s.calls[call].Gated? && Resolvable(s.ops, s.calls[call].op) {
      if HasRow(s.book.rows, s.calls[call].op) {
        RowMeansReplay(opening, s, call);
      } else {
        FreshCommits(s.book, OwnerRequest(s.ops, s.calls[call].op));
      }
    }
  }
}
