/** What a batch keeps under any number of runners, and the sequential meaning of a serial execution
  * under crashes.
  */
module BatchSafety {
  import opened Wrappers
  import opened Economy
  import opened Batch

  // ----- Any number of runners -----

  ghost predicate TargetSound(s: State, i: Ordinal)
    requires i < |s.targets| == |s.children|
  {
    && (s.targets[i].status.Succeeded? ==> s.children[i].Applied?)
    && (s.children[i].Applied? ==> HasRow(s.book.rows, i))
  }

  ghost predicate RunnerSound(s: State, work: Work) {
    && work.i < |s.targets| == |s.children|
    && (work.Committed? ==> HasRow(s.book.rows, work.i))
    && (work.Answered? && work.ok ==> s.children[work.i].Applied?)
  }

  ghost predicate Terminal(s: State) { s.status in {Completed, CompletedWithErrors} }

  ghost predicate ProgressSound(s: State) {
    && s.revision == (if Terminal(s) then 1 else 0)
    && (s.status.Previewed? ==> s.executor.None? && s.runners == map[])
    && (!s.status.Previewed? ==> s.executor.Some?)
    && s.checkpoint < |s.targets|
    && (forall i :: 0 <= i <= s.checkpoint ==> !s.targets[i].status.Pending?)
    && (Terminal(s) ==>
          && s.checkpoint == |s.targets| - 1
          && s.succeeded == Count(s.targets, Succeeded) && s.failed == Count(s.targets, Failed)
          && (s.status.Completed? <==> s.failed == 0))
  }

  ghost predicate Inv(opening: map<Account, nat>, s: State) {
    && Balanced(opening, s.book)
    && |s.children| == |s.targets|
    && (forall i :: 0 <= i < |s.targets| ==> TargetSound(s, i))
    && (forall r :: r in s.runners ==> RunnerSound(s, s.runners[r]))
    && RowsSound(s.targets, s.book.rows)
    && ProgressSound(s)
  }

  ghost predicate RowsSound(targets: seq<Target>, rows: seq<Row>) {
    forall k :: 0 <= k < |rows| ==> RowSound(targets, rows[k])
  }

  ghost predicate RowSound(targets: seq<Target>, row: Row) {
    row.key.AdminOperation? ==>
      row.key.id < |targets| && SameRequest(row, Request(targets[row.key.id], row.key.id))
  }

  ghost predicate HasRow(rows: seq<Row>, i: Ordinal) {
    exists k :: 0 <= k < |rows| && rows[k].key == AdminOperation(i)
  }

  lemma HasRowAppend(rows: seq<Row>, row: Row, i: Ordinal)
    ensures HasRow(rows + [row], i) <==> HasRow(rows, i) || row.key == AdminOperation(i)
  {
    if HasRow(rows, i) {
      var k :| 0 <= k < |rows| && rows[k].key == AdminOperation(i);
      assert (rows + [row])[k].key == AdminOperation(i);
    }
    assert (rows + [row])[|rows|] == row;
  }

  // Deciding or attempting a target leaves the progress sound: decided targets stay decided.
  lemma TargetsKeepProgress(s: State, t: State)
    requires ProgressSound(s) && |t.targets| == |s.targets|
    requires t == s.(targets := t.targets, runners := t.runners, children := t.children, book := t.book)
    requires forall i :: 0 <= i < |s.targets| && !s.targets[i].status.Pending? ==> t.targets[i] == s.targets[i]
    requires s.status.Previewed? ==> t.runners == map[]
    ensures ProgressSound(t)
  {
    if Terminal(s) {
      assert t.targets == s.targets;
    }
  }

  lemma AttemptKeepsInv(opening: map<Account, nat>, s: State, r: RunnerId)
    requires Inv(opening, s) && r in s.runners && s.runners[r].Taken?
    ensures Inv(opening, Advance(s, r))
  {
    var t := Advance(s, r);
    assert RunnerSound(s, s.runners[r]);
    TargetsKeepProgress(s, t);
    forall i | 0 <= i < |t.targets| ensures TargetSound(t, i) { assert TargetSound(s, i); }
    forall x | x in t.runners ensures RunnerSound(t, t.runners[x]) { assert x in s.runners ==> RunnerSound(s, s.runners[x]); }
  }

  lemma PrepareKeepsInv(opening: map<Account, nat>, s: State, r: RunnerId)
    requires Inv(opening, s) && r in s.runners && s.runners[r].Attempted?
    ensures Inv(opening, Advance(s, r))
  {
    var t := Advance(s, r);
    assert RunnerSound(s, s.runners[r]);
    TargetsKeepProgress(s, t);
    forall i | 0 <= i < |t.targets| ensures TargetSound(t, i) { assert TargetSound(s, i); }
    forall x | x in t.runners ensures RunnerSound(t, t.runners[x]) { assert x in s.runners ==> RunnerSound(s, s.runners[x]); }
  }

  // A target with a ledger row is only ever replayed.
  lemma RowReplays(opening: map<Account, nat>, b: Book, targets: seq<Target>, i: Ordinal)
    requires Balanced(opening, b) && RowsSound(targets, b.rows) && i < |targets| && HasRow(b.rows, i)
    ensures var (after, reply) := Mutate(b, Request(targets[i], i)); after == b && reply.Ok?
  {
    var k :| 0 <= k < |b.rows| && b.rows[k].key == AdminOperation(i);
    assert RowSound(targets, b.rows[k]) && RowAt(opening, b.rows, k);
    FindUnique(b.rows, k);
  }

  // What the owner's transaction does to a book in which target i may or may not have its row.
  lemma CommitBook(opening: map<Account, nat>, b: Book, targets: seq<Target>, i: Ordinal)
    requires Balanced(opening, b) && RowsSound(targets, b.rows) && i < |targets|
    ensures var (after, reply) := Mutate(b, Request(targets[i], i));
            && Balanced(opening, after) && RowsSound(targets, after.rows)
            && (reply.Ok? <==> HasRow(after.rows, i))
            && (reply.Ok? <==> HasRow(b.rows, i) || Fits(b, Request(targets[i], i)))
            && forall k :: k != i ==> (HasRow(after.rows, k) <==> HasRow(b.rows, k))
  {
    var m := Request(targets[i], i);
    MutateKeepsBalanced(opening, b, m);
    if HasRow(b.rows, i) {
      RowReplays(opening, b, targets, i);
    } else {
      FreshCommits(b, m);
      if Fits(b, m) {
        forall k: Ordinal ensures HasRow(b.rows + [NewRow(b, m)], k) <==> HasRow(b.rows, k) || k == i {
          HasRowAppend(b.rows, NewRow(b, m), k);
        }
      }
    }
  }

  // More rows and more applied children leave targets and runners sound.
  lemma SoundStays(s: State, t: State)
    requires |s.targets| == |s.children| && t.targets == s.targets && |t.children| == |s.children|
    requires forall i :: 0 <= i < |s.targets| ==> TargetSound(s, i)
    requires forall i :: HasRow(s.book.rows, i) ==> HasRow(t.book.rows, i)
    requires forall i :: 0 <= i < |s.children| ==>
               t.children[i] == s.children[i] || (t.children[i].Applied? && HasRow(t.book.rows, i))
    ensures forall i :: 0 <= i < |t.targets| ==> TargetSound(t, i)
    ensures forall work :: RunnerSound(s, work) ==> RunnerSound(t, work)
  {
    forall i | 0 <= i < |t.targets| ensures TargetSound(t, i) { assert TargetSound(s, i); }
  }

  lemma CommitKeepsInv(opening: map<Account, nat>, s: State, r: RunnerId)
    requires Inv(opening, s) && r in s.runners && s.runners[r].ChildReady?
    ensures Inv(opening, Advance(s, r))
  {
    var i, t := s.runners[r].i, Advance(s, r);
    assert RunnerSound(s, s.runners[r]);
    CommitBook(opening, s.book, s.targets, i);
    SoundStays(s, t);
    TargetsKeepProgress(s, t);
    forall x | x in t.runners ensures RunnerSound(t, t.runners[x]) { assert x in s.runners ==> RunnerSound(s, s.runners[x]); }
  }

  lemma CompleteKeepsInv(opening: map<Account, nat>, s: State, r: RunnerId)
    requires Inv(opening, s) && r in s.runners && s.runners[r].Committed?
    ensures Inv(opening, Advance(s, r))
  {
    var t := Advance(s, r);
    assert RunnerSound(s, s.runners[r]);
    SoundStays(s, t);
    TargetsKeepProgress(s, t);
    forall x | x in t.runners ensures RunnerSound(t, t.runners[x]) { assert x in s.runners ==> RunnerSound(s, s.runners[x]); }
  }

  lemma RecordKeepsInv(opening: map<Account, nat>, s: State, r: RunnerId)
    requires Inv(opening, s) && r in s.runners && s.runners[r].Answered?
    ensures Inv(opening, Advance(s, r))
  {
    var t := Advance(s, r);
    assert RunnerSound(s, s.runners[r]);
    TargetsKeepProgress(s, t);
    forall i | 0 <= i < |t.targets| ensures TargetSound(t, i) { assert TargetSound(s, i); }
    forall x | x in t.runners ensures RunnerSound(t, t.runners[x]) { assert RunnerSound(s, s.runners[x]); }
  }

  lemma RefreshKeepsInv(opening: map<Account, nat>, s: State)
    requires Inv(opening, s)
    ensures Inv(opening, RefreshProgress(s))
  {
    var t := RefreshProgress(s);
    FirstPendingExact(s.targets, 0);
    forall i | 0 <= i < |t.targets| ensures TargetSound(t, i) { assert TargetSound(s, i); }
    forall x | x in t.runners ensures RunnerSound(t, t.runners[x]) { assert RunnerSound(s, s.runners[x]); }
  }

  lemma OtherKeepsInv(opening: map<Account, nat>, s: State, t: State)
    requires Inv(opening, s) && t.targets == s.targets && t.children == s.children && t.book == s.book
    requires ProgressSound(t)
    requires forall x :: x in t.runners ==> RunnerSound(s, t.runners[x])
    ensures Inv(opening, t)
  {
    forall i | 0 <= i < |t.targets| ensures TargetSound(t, i) { assert TargetSound(s, i); }
  }

  lemma InterveneKeepsInv(opening: map<Account, nat>, s: State, m: Mutation)
    requires Inv(opening, s) && m.key.Gameplay?
    ensures Inv(opening, s.(book := Apply(s.book, m)))
  {
    var t := s.(book := Apply(s.book, m));
    MutateKeepsBalanced(opening, s.book, m);
    RowsStay(s.book, m);
    SoundStays(s, t);
  }

  // A mutation of somebody else neither adds nor removes a target's row.
  lemma RowsStay(b: Book, m: Mutation)
    requires !m.key.AdminOperation?
    ensures forall i :: HasRow(Apply(b, m).rows, i) <==> HasRow(b.rows, i)
  {
    if Apply(b, m) != b {
      forall i: Ordinal ensures HasRow(b.rows + [NewRow(b, m)], i) <==> HasRow(b.rows, i) {
        HasRowAppend(b.rows, NewRow(b, m), i);
      }
    }
  }

  lemma StepKeepsInv(opening: map<Account, nat>, s: State, e: Event)
    requires Inv(opening, s)
    ensures Inv(opening, Next(s, e))
  {
    match e
    case DoAdvance(r) =>
      if r in s.runners {
        assert RunnerSound(s, s.runners[r]);
        match s.runners[r]
        case Taken(_) => AttemptKeepsInv(opening, s, r);
        case Attempted(_) => PrepareKeepsInv(opening, s, r);
        case ChildReady(_) => CommitKeepsInv(opening, s, r);
        case Committed(_) => CompleteKeepsInv(opening, s, r);
        case Answered(_, _) => RecordKeepsInv(opening, s, r);
      }
    case Refresh => RefreshKeepsInv(opening, s);
    case Intervene(account, delta, key) => InterveneKeepsInv(opening, s, Mutation(account, delta, Gameplay(key), 0));
    case DoClaim(_, _) => OtherKeepsInv(opening, s, Next(s, e));
    case DoTake(_, _) => OtherKeepsInv(opening, s, Next(s, e));
    case Crash(_) => OtherKeepsInv(opening, s, Next(s, e));
  }

  lemma {:induction false} RunKeepsInv(opening: map<Account, nat>, s: State, es: seq<Event>)
    requires Inv(opening, s)
    ensures Inv(opening, Run(s, es))
    decreases |es|
  {
    if es != [] {
      StepKeepsInv(opening, s, es[0]);
      RunKeepsInv(opening, Next(s, es[0]), es[1..]);
    }
  }

  // ----- Main results for any number of runners -----

  // Whatever runners do, crash and race, also between a child's two commits: a target's mutation is in
  // the ledger at most once; an applied child has its row and a success its applied child; the
  // revision advances once, with completion; the counts add up; COMPLETED means that nothing failed,
  // so then every target has its row and its applied child.
  lemma BatchIsConsistent(opening: map<Account, nat>, plan: seq<(Account, int)>, es: seq<Event>, i: Ordinal)
    requires (forall a :: a in opening ==> opening[a] <= BIGINT_MAX) && i < |plan|
    ensures var t := Run(Freeze(Book(opening, []), plan), es);
            && |t.targets| == |t.children| == |plan|
            && (forall j, k :: 0 <= j < k < |t.book.rows| ==>
                  !(t.book.rows[j].key == AdminOperation(i) && t.book.rows[k].key == AdminOperation(i)))
            && (t.children[i].Applied? ==> HasRow(t.book.rows, i))
            && (t.targets[i].status.Succeeded? ==> t.children[i].Applied?)
            && (t.status.Completed? ==> t.children[i].Applied? && HasRow(t.book.rows, i))
            && t.revision == (if Terminal(t) then 1 else 0)
            && (Terminal(t) ==>
                  && t.succeeded == Count(t.targets, Succeeded) && t.failed == Count(t.targets, Failed)
                  && t.succeeded + t.failed == |plan| && (t.status.Completed? <==> t.failed == 0))
  {
    var s := Freeze(Book(opening, []), plan);
    assert Inv(opening, s);
    RunKeepsInv(opening, s, es);
    PlanIsFrozen(s, es);
    var t := Run(s, es);
    assert TargetSound(t, i);
    CountsSum(t.targets);
    forall j, k | 0 <= j < k < |t.book.rows| && t.book.rows[j].key == AdminOperation(i)
      ensures t.book.rows[k].key != AdminOperation(i)
    {
      assert RowAt(opening, t.book.rows, j) && RowAt(opening, t.book.rows, k);
      assert RowSound(t.targets, t.book.rows[j]) && RowSound(t.targets, t.book.rows[k]);
    }
  }

  // A runner carried on by n steps; once it has recorded its result, nothing more happens.
  function AdvanceBy(s: State, r: RunnerId, n: nat): State
    decreases n
  {
    if n == 0 then s else AdvanceBy(Advance(s, r), r, n - 1)
  }

  lemma ReadyChild(s: State, i: Ordinal, r: RunnerId)
    requires i < |s.targets| == |s.children| && !s.status.Previewed? && r !in s.runners
    ensures var t := Advance(Advance(Take(s, r, i), r), r);
            && t.book == s.book && t.runners == s.runners[r := ChildReady(i)] && |t.targets| == |s.targets|
            && t.targets[i].account == s.targets[i].account && t.targets[i].delta == s.targets[i].delta
            && t.targets[i].status == s.targets[i].status
            && t.children == if s.children[i].Absent? then s.children[i := Child.Prepared] else s.children
  {
    assert Take(s, r, i).runners[r] == Taken(i);
  }

  lemma FinishChild(s: State, i: Ordinal, r: RunnerId)
    requires i < |s.targets| == |s.children| && r in s.runners && s.runners[r] == ChildReady(i)
    requires Mutate(s.book, Request(s.targets[i], i)).0 == s.book && Mutate(s.book, Request(s.targets[i], i)).1.Ok?
    ensures var t := AdvanceBy(s, r, 3);
            && t.book == s.book && r !in t.runners && t.children == s.children[i := Child.Applied]
            && t.targets == Record(s, i, true).targets
  {
    var s1 := Advance(s, r);
    var s2 := Advance(s1, r);
    assert AdvanceBy(s, r, 3) == AdvanceBy(s1, r, 2) == AdvanceBy(s2, r, 1) == Advance(s2, r);
    if s.children[i].Applied? {
      assert s1.runners[r] == Answered(i, true) && s2 == Record(s1, i, true).(runners := s1.runners - {r});
    } else {
      assert s1.runners[r] == Committed(i) && s2.runners[r] == Answered(i, true);
    }
  }

  // A child whose process died between its two commits, or anywhere else after the owner's: one more
  // undisturbed attempt applies it, moves no balance, and a pending target succeeds.
  lemma InterruptedChildResumes(opening: map<Account, nat>, s: State, i: Ordinal, r: RunnerId)
    requires Inv(opening, s) && i < |s.targets| && !s.status.Previewed? && r !in s.runners && HasRow(s.book.rows, i)
    ensures var t := AdvanceBy(Take(s, r, i), r, 5);
            && t.book == s.book && r !in t.runners
            && t.children == s.children[i := Child.Applied]
            && |t.targets| == |s.targets|
            && t.targets[i].status == if s.targets[i].status.Pending? then Succeeded else s.targets[i].status
  {
    ReadyChild(s, i, r);
    var s1 := Advance(Take(s, r, i), r);
    var ready := Advance(s1, r);
    assert AdvanceBy(Take(s, r, i), r, 5) == AdvanceBy(s1, r, 4) == AdvanceBy(ready, r, 3);
    RowReplays(opening, s.book, s.targets, i);
    FinishChild(ready, i, r);
  }

  // The targets are frozen: no event changes who is affected or by how much.
  lemma {:induction false} PlanIsFrozen(s: State, es: seq<Event>)
    ensures var t := Run(s, es);
            && |t.targets| == |s.targets|
            && forall i :: 0 <= i < |s.targets| ==>
                 t.targets[i].account == s.targets[i].account && t.targets[i].delta == s.targets[i].delta
    decreases |es|
  {
    if es != [] {
      PlanIsFrozen(Next(s, es[0]), es[1..]);
    }
  }

  // One execute operation owns the batch: whoever claims later under another operation is refused,
  // and after completion the owner's claim replays, its stale revision notwithstanding.
  lemma OneExecutor(opening: map<Account, nat>, s: State, operation: nat, expected: nat, es: seq<Event>, other: nat, revision: nat)
    requires Inv(opening, s) && ClaimExecution(s, operation, expected).1.Done?
    ensures var t := Run(ClaimExecution(s, operation, expected).0, es);
            && t.executor == Some(operation)
            && (other != operation ==> ClaimExecution(t, other, revision) == (t, if !Terminal(t) && t.revision != revision
                                                                                 then RevisionConflict else IdempotencyConflict))
            && (Terminal(t) ==> ClaimExecution(t, operation, revision) == (t, ReplayedTerminal))
  {
    ExecutorStays(ClaimExecution(s, operation, expected).0, es);
  }

  lemma {:induction false} ExecutorStays(s: State, es: seq<Event>)
    requires s.executor.Some? && !s.status.Previewed?
    ensures Run(s, es).executor == s.executor && !Run(s, es).status.Previewed?
    decreases |es|
  {
    if es != [] {
      ExecutorStays(Next(s, es[0]), es[1..]);
    }
  }
}
