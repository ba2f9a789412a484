/** A serial batch execution, killed and resumed at will, means applying the child mutation once per
  * target in ordinal order; two overlapping runners lose that meaning in one exact way.
  */
module BatchExecution {
  import opened Wrappers
  import opened Economy
  import opened Batch
  import opened BatchSafety

  // ----- The sequential meaning -----

  // The book after the first n targets, in ordinal order.
  function After(start: Book, ms: seq<Mutation>, n: nat): Book
    requires n <= |ms|
  {
    ApplyAll(start, ms[..n])
  }

  predicate Accepts(start: Book, ms: seq<Mutation>, n: nat)
    requires n < |ms|
  {
    Mutate(After(start, ms, n), ms[n]).1.Ok?
  }

  lemma AfterNext(start: Book, ms: seq<Mutation>, n: nat)
    requires n < |ms|
    ensures After(start, ms, n + 1) == Apply(After(start, ms, n), ms[n])
  {
    assert ms[..n + 1] == ms[..n] + [ms[n]];
    ApplyAllAppend(start, ms[..n], ms[n]);
  }

  // Every target before n is decided as the sequential execution decides it.
  ghost predicate Decided(start: Book, ms: seq<Mutation>, s: State, n: nat)
    requires n <= |ms| == |s.targets| == |s.children|
  {
    forall i :: 0 <= i < n ==>
      && s.targets[i].status == (if Accepts(start, ms, i) then Succeeded else Failed)
      && (s.children[i].Applied? <==> Accepts(start, ms, i))
  }

  // The owner has target n's mutation, and had to accept it.
  ghost predicate OwnerHas(start: Book, ms: seq<Mutation>, book: Book, n: nat) {
    n < |ms| && Accepts(start, ms, n) && book == After(start, ms, n + 1)
  }

  // The tables are those of a sequential execution that has reached target n; the owner may already
  // have target n's mutation, and its child may already be applied.
  ghost predicate Sequential(start: Book, ms: seq<Mutation>, s: State, n: nat) {
    && |ms| == |s.targets| == |s.children| && n <= |ms|
    && (forall i :: 0 <= i < |ms| ==> ms[i] == Request(s.targets[i], i))
    && Decided(start, ms, s, n)
    && (forall i :: n <= i < |ms| ==> s.targets[i].status.Pending?)
    && (forall i :: n < i < |ms| ==> !s.children[i].Applied?)
    && (s.book == After(start, ms, n) || OwnerHas(start, ms, s.book, n))
    && (n < |ms| && s.children[n].Applied? ==> OwnerHas(start, ms, s.book, n))
  }

  // A runner's answer about target n is the sequential one.
  ghost predicate AnswerFits(start: Book, ms: seq<Mutation>, s: State, n: nat, ok: bool) {
    n < |ms| == |s.children| && (ok <==> Accepts(start, ms, n)) && (ok ==> s.children[n].Applied?)
  }

  lemma AttemptIsSequential(start: Book, ms: seq<Mutation>, s: State, n: nat)
    requires Sequential(start, ms, s, n) && n < |ms|
    ensures var t := s.(targets := s.targets[n := s.targets[n].(attempts := s.targets[n].attempts + 1)]);
            Sequential(start, ms, t, n)
  {
    var t := s.(targets := s.targets[n := s.targets[n].(attempts := s.targets[n].attempts + 1)]);
    assert Decided(start, ms, t, n);
  }

  lemma PrepareIsSequential(start: Book, ms: seq<Mutation>, s: State, n: nat)
    requires Sequential(start, ms, s, n) && n < |ms| && s.children[n].Absent?
    ensures Sequential(start, ms, s.(children := s.children[n := Child.Prepared]), n)
  {
    assert Decided(start, ms, s.(children := s.children[n := Child.Prepared]), n);
  }

  // The owner answers as in the sequential execution, whether it is asked first or once more.
  lemma OwnerAnswers(start: Book, ms: seq<Mutation>, book: Book, n: nat)
    requires n < |ms| && (book == After(start, ms, n) || OwnerHas(start, ms, book, n))
    ensures var (after, reply) := Mutate(book, ms[n]);
            && (reply.Ok? <==> Accepts(start, ms, n))
            && (reply.Ok? ==> OwnerHas(start, ms, after, n))
            && (!reply.Ok? ==> after == book)
  {
    AfterNext(start, ms, n);
    if OwnerHas(start, ms, book, n) {
      ReplayReturnsOriginal(After(start, ms, n), ms[n], []);
    }
  }

  lemma CommitIsSequential(start: Book, ms: seq<Mutation>, s: State, r: RunnerId, n: nat)
    requires Sequential(start, ms, s, n) && n < |ms|
    ensures var t := CommitChild(s, r, n);
            && Sequential(start, ms, t, n) && t == s.(book := t.book, runners := t.runners)
            && t.runners == s.runners[r := if s.children[n].Applied? then Answered(n, true)
                                           else if Accepts(start, ms, n) then Committed(n) else Answered(n, false)]
            && (Accepts(start, ms, n) ==> OwnerHas(start, ms, t.book, n))
            && (s.children[n].Applied? ==> Accepts(start, ms, n))
  {
    OwnerAnswers(start, ms, s.book, n);
    assert Decided(start, ms, CommitChild(s, r, n), n);
  }

  lemma CompleteIsSequential(start: Book, ms: seq<Mutation>, s: State, n: nat)
    requires Sequential(start, ms, s, n) && OwnerHas(start, ms, s.book, n)
    ensures Sequential(start, ms, CompleteChild(s, n), n) && AnswerFits(start, ms, CompleteChild(s, n), n, true)
  {
    assert Decided(start, ms, CompleteChild(s, n), n);
  }

  lemma RecordIsSequential(start: Book, ms: seq<Mutation>, s: State, n: nat, ok: bool)
    requires Sequential(start, ms, s, n) && AnswerFits(start, ms, s, n, ok)
    ensures Sequential(start, ms, Record(s, n, ok), n + 1)
  {
    AfterNext(start, ms, n);
    var t := Record(s, n, ok);
    forall i | 0 <= i < n + 1
      ensures t.targets[i].status == (if Accepts(start, ms, i) then Succeeded else Failed)
      ensures t.children[i].Applied? <==> Accepts(start, ms, i)
    {
      assert i < n ==> s.targets[i].status == (if Accepts(start, ms, i) then Succeeded else Failed);
    }
  }

  lemma DecidedBelow(start: Book, ms: seq<Mutation>, s: State, n: nat)
    requires Sequential(start, ms, s, n)
    ensures forall k :: 0 <= k < |s.targets| ==> (s.targets[k].status.Pending? <==> k >= n)
  {
    forall k | 0 <= k < n ensures !s.targets[k].status.Pending? {
      assert s.targets[k].status == if Accepts(start, ms, k) then Succeeded else Failed;
    }
  }

  lemma FirstPendingIs(start: Book, ms: seq<Mutation>, s: State, n: nat)
    requires Sequential(start, ms, s, n)
    ensures FirstPending(s.targets, 0) == n
  {
    FirstPendingExact(s.targets, 0);
    DecidedBelow(start, ms, s, n);
    assert n < |ms| ==> s.targets[n].status.Pending?;
  }

  // ----- Serial runs with crashes -----

  predicate Outside(targets: seq<Target>, account: Account) {
    forall i :: 0 <= i < |targets| ==> targets[i].account != account
  }

  // One runner at a time, taking the first pending target, and nothing else touching the balances
  // of the targets.
  predicate SerialStep(s: State, e: Event) {
    match e
    case DoTake(_, i) => s.runners == map[] && i == FirstPending(s.targets, 0)
    case Intervene(account, _, _) => Outside(s.targets, account)
    case _ => true
  }

  predicate SerialRun(s: State, es: seq<Event>)
    decreases |es|
  {
    es == [] || (SerialStep(s, es[0]) && SerialRun(Next(s, es[0]), es[1..]))
  }

  ghost predicate WorkFits(start: Book, ms: seq<Mutation>, s: State, work: Work) {
    && work.i == FirstPending(s.targets, 0) < |ms|
    && (work.Committed? ==> OwnerHas(start, ms, s.book, work.i))
    && (work.Answered? ==> AnswerFits(start, ms, s, work.i, work.ok))
  }

  ghost predicate SerialInv(start: Book, ms: seq<Mutation>, s: State) {
    && Sequential(start, ms, s, FirstPending(s.targets, 0))
    && (forall r :: r in s.runners ==> s.runners == map[r := s.runners[r]] && WorkFits(start, ms, s, s.runners[r]))
  }

  lemma AttemptKeepsSerial(start: Book, ms: seq<Mutation>, s: State, r: RunnerId)
    requires SerialInv(start, ms, s) && r in s.runners && s.runners[r].Taken?
    ensures SerialInv(start, ms, Advance(s, r))
  {
    var n, t := FirstPending(s.targets, 0), Advance(s, r);
    assert WorkFits(start, ms, s, s.runners[r]);
    AttemptIsSequential(start, ms, s, n);
    SameMeaning(start, ms, s.(targets := t.targets), t, n);
  }

  lemma PrepareKeepsSerial(start: Book, ms: seq<Mutation>, s: State, r: RunnerId)
    requires SerialInv(start, ms, s) && r in s.runners && s.runners[r].Attempted?
    ensures SerialInv(start, ms, Advance(s, r))
  {
    var n, t := FirstPending(s.targets, 0), Advance(s, r);
    assert WorkFits(start, ms, s, s.runners[r]);
    if s.children[n].Absent? {
      PrepareIsSequential(start, ms, s, n);
    }
    SameMeaning(start, ms, s.(children := t.children), t, n);
  }

  lemma CommitKeepsSerial(start: Book, ms: seq<Mutation>, s: State, r: RunnerId)
    requires SerialInv(start, ms, s) && r in s.runners && s.runners[r].ChildReady?
    ensures SerialInv(start, ms, Advance(s, r))
  {
    var n, t := FirstPending(s.targets, 0), Advance(s, r);
    assert WorkFits(start, ms, s, s.runners[r]);
    CommitIsSequential(start, ms, s, r, n);
    FirstPendingIs(start, ms, t, n);
    assert s.runners[r := t.runners[r]] == map[r := t.runners[r]];
    assert WorkFits(start, ms, t, t.runners[r]);
  }

  lemma CompleteKeepsSerial(start: Book, ms: seq<Mutation>, s: State, r: RunnerId)
    requires SerialInv(start, ms, s) && r in s.runners && s.runners[r].Committed?
    ensures SerialInv(start, ms, Advance(s, r))
  {
    var n, t := FirstPending(s.targets, 0), Advance(s, r);
    assert WorkFits(start, ms, s, s.runners[r]);
    CompleteIsSequential(start, ms, s, n);
    SameMeaning(start, ms, CompleteChild(s, n), t, n);
    assert s.runners[r := Answered(n, true)] == map[r := Answered(n, true)];
    assert WorkFits(start, ms, t, t.runners[r]);
  }

  lemma RecordKeepsSerial(start: Book, ms: seq<Mutation>, s: State, r: RunnerId)
    requires SerialInv(start, ms, s) && r in s.runners && s.runners[r].Answered?
    ensures SerialInv(start, ms, Advance(s, r))
  {
    var n, t := FirstPending(s.targets, 0), Advance(s, r);
    assert WorkFits(start, ms, s, s.runners[r]);
    RecordIsSequential(start, ms, s, n, s.runners[r].ok);
    SameMeaning(start, ms, Record(s, n, s.runners[r].ok), t, n + 1);
    assert t.runners == s.runners - {r} == map[];
  }

  lemma AdvanceKeepsSerial(start: Book, ms: seq<Mutation>, s: State, r: RunnerId)
    requires SerialInv(start, ms, s) && r in s.runners
    ensures SerialInv(start, ms, Advance(s, r))
  {
    match s.runners[r]
    case Taken(_) => AttemptKeepsSerial(start, ms, s, r);
    case Attempted(_) => PrepareKeepsSerial(start, ms, s, r);
    case ChildReady(_) => CommitKeepsSerial(start, ms, s, r);
    case Committed(_) => CompleteKeepsSerial(start, ms, s, r);
    case Answered(_, _) => RecordKeepsSerial(start, ms, s, r);
  }

  // The meaning does not depend on who is running or on the progress columns.
  lemma SameMeaning(start: Book, ms: seq<Mutation>, s: State, t: State, n: nat)
    requires Sequential(start, ms, s, n) && t.book == s.book && t.targets == s.targets && t.children == s.children
    ensures Sequential(start, ms, t, n) && FirstPending(t.targets, 0) == n
  {
    assert Decided(start, ms, t, n);
    FirstPendingIs(start, ms, t, n);
  }

  lemma StepKeepsSerial(start: Book, ms: seq<Mutation>, s: State, e: Event)
    requires SerialInv(start, ms, s) && SerialStep(s, e) && !e.Intervene?
    ensures SerialInv(start, ms, Next(s, e))
  {
    match e
    case DoAdvance(r) =>
      if r in s.runners {
        AdvanceKeepsSerial(start, ms, s, r);
      }
    case DoTake(_, _) => OtherKeepsSerial(start, ms, s, e);
    case DoClaim(_, _) => OtherKeepsSerial(start, ms, s, e);
    case Refresh => OtherKeepsSerial(start, ms, s, e);
    case Crash(_) => OtherKeepsSerial(start, ms, s, e);
  }

  lemma OtherKeepsSerial(start: Book, ms: seq<Mutation>, s: State, e: Event)
    requires SerialInv(start, ms, s) && SerialStep(s, e) && !e.DoAdvance? && !e.Intervene?
    ensures SerialInv(start, ms, Next(s, e))
  {
    var t := Next(s, e);
    SameMeaning(start, ms, s, t, FirstPending(s.targets, 0));
    forall r | r in t.runners ensures t.runners == map[r := t.runners[r]] && WorkFits(start, ms, t, t.runners[r]) {
      if r in s.runners {
        assert WorkFits(start, ms, s, s.runners[r]);
      }
    }
  }

  // ----- Mutations of other accounts in between -----

  // The ledger rows of the batch's children.
  function ChildRows(rows: seq<Row>): seq<Row> {
    if rows == [] then []
    else (if rows[0].key.AdminOperation? then [rows[0]] else []) + ChildRows(rows[1..])
  }

  lemma {:induction false} ChildRowsAppend(rows: seq<Row>, row: Row)
    ensures ChildRows(rows + [row]) == ChildRows(rows) + if row.key.AdminOperation? then [row] else []
  {
    if rows == [] {
      assert (rows + [row])[1..] == [];
    } else {
      assert (rows + [row])[1..] == rows[1..] + [row];
      ChildRowsAppend(rows[1..], row);
      var head := if rows[0].key.AdminOperation? then [rows[0]] else [];
      var last := if row.key.AdminOperation? then [row] else [];
      assert head + (ChildRows(rows[1..]) + last) == (head + ChildRows(rows[1..])) + last;
    }
  }

  lemma {:induction false} FindChildRow(rows: seq<Row>, scope: Scope, key: Key)
    requires key.AdminOperation?
    ensures Find(ChildRows(rows), scope, key) == Find(rows, scope, key)
  {
    if rows != [] {
      FindChildRow(rows[1..], scope, key);
      if rows[0].key.AdminOperation? {
        assert ChildRows(rows)[1..] == ChildRows(rows[1..]);
      } else {
        assert ChildRows(rows) == ChildRows(rows[1..]);
      }
    }
  }

  // The books agree on everything a child mutation reads or writes.
  ghost predicate AgreeOn(targets: seq<Target>, b: Book, c: Book) {
    && ChildRows(b.rows) == ChildRows(c.rows)
    && forall i :: 0 <= i < |targets| ==> Balance(b.balances, targets[i].account) == Balance(c.balances, targets[i].account)
  }

  ghost predicate Alike(s: State, t: State) {
    s == t.(book := s.book) && AgreeOn(s.targets, s.book, t.book)
  }

  lemma MutateAlike(targets: seq<Target>, b: Book, c: Book, i: Ordinal)
    requires AgreeOn(targets, b, c) && i < |targets|
    ensures var m := Request(targets[i], i);
            && Mutate(b, m).1 == Mutate(c, m).1
            && AgreeOn(targets, Mutate(b, m).0, Mutate(c, m).0)
  {
    var m := Request(targets[i], i);
    FindChildRow(b.rows, ScopeOf(m.account, m.delta), m.key);
    FindChildRow(c.rows, ScopeOf(m.account, m.delta), m.key);
    if Mutate(b, m).0 != b {
      ChildRowsAppend(b.rows, NewRow(b, m));
      ChildRowsAppend(c.rows, NewRow(c, m));
    }
  }

  // A mutation of another account is invisible to the batch.
  lemma OutsideAlike(s: State, t: State, e: Event)
    requires Alike(s, t) && e.Intervene? && SerialStep(s, e)
    ensures Alike(Next(s, e), t)
  {
    var m := Mutation(e.account, e.delta, Gameplay(e.key), 0);
    if Apply(s.book, m) != s.book {
      ChildRowsAppend(s.book.rows, NewRow(s.book, m));
    }
  }

  lemma StepAlike(s: State, t: State, e: Event)
    requires Alike(s, t) && !e.Intervene?
    ensures Alike(Next(s, e), Next(t, e))
  {
    if e.DoAdvance? && e.r in s.runners && s.runners[e.r].i < |s.targets| == |s.children| {
      var i := s.runners[e.r].i;
      MutateAlike(s.targets, s.book, t.book, i);
    }
  }

  // Beside every serial run there is one without those mutations that the batch cannot tell apart.
  lemma {:induction false} QuietRun(start: Book, ms: seq<Mutation>, s: State, t: State, es: seq<Event>) returns (u: State)
    requires Alike(s, t) && SerialInv(start, ms, t) && SerialRun(s, es)
    ensures Alike(Run(s, es), u) && SerialInv(start, ms, u)
    ensures s == t && (forall e :: e in es ==> !e.Intervene?) ==> u == Run(s, es)
    decreases |es|
  {
    u := t;
    if es != [] {
      var e := es[0];
      if e.Intervene? {
        OutsideAlike(s, t, e);
        u := QuietRun(start, ms, Next(s, e), t, es[1..]);
      } else {
        StepAlike(s, t, e);
        StepKeepsSerial(start, ms, t, e);
        u := QuietRun(start, ms, Next(s, e), Next(t, e), es[1..]);
      }
    }
  }

  // For every chunking and any number of crashes anywhere, whatever happens to other accounts
  // meanwhile: once no target is pending, the balances of the targets and the children's ledger rows
  // are those of applying the child mutation once per target in ordinal order, and every target
  // succeeded or failed as it did there; left to itself, the batch leaves exactly that book.
  lemma SerialRunsAreSequential(start: Book, plan: seq<(Account, int)>, es: seq<Event>)
    requires SerialRun(Freeze(start, plan), es)
    requires Count(Run(Freeze(start, plan), es).targets, Pending) == 0
    ensures var t := Run(Freeze(start, plan), es);
            var ms := Requests(Freeze(start, plan).targets);
            var end := ApplyAll(start, ms);
            && |t.targets| == |ms|
            && (forall i :: 0 <= i < |ms| ==> t.targets[i].status == (if Accepts(start, ms, i) then Succeeded else Failed))
            && (forall i :: 0 <= i < |ms| ==> Balance(t.book.balances, ms[i].account) == Balance(end.balances, ms[i].account))
            && ChildRows(t.book.rows) == ChildRows(end.rows)
            && ((forall e :: e in es ==> !e.Intervene?) ==> t.book == end)
  {
    var s := Freeze(start, plan);
    var ms := Requests(s.targets);
    StartSerial(start, plan);
    var u := QuietRun(start, ms, s, s, es);
    EndSequential(start, ms, u);
    PlanIsFrozen(s, es);
  }

  lemma StartSerial(start: Book, plan: seq<(Account, int)>)
    ensures var s := Freeze(start, plan); SerialInv(start, Requests(s.targets), s)
  {
    var s := Freeze(start, plan);
    var ms := Requests(s.targets);
    assert Sequential(start, ms, s, 0);
    FirstPendingIs(start, ms, s, 0);
  }

  lemma EndSequential(start: Book, ms: seq<Mutation>, s: State)
    requires Sequential(start, ms, s, FirstPending(s.targets, 0)) && Count(s.targets, Pending) == 0
    ensures s.book == ApplyAll(start, ms) && |s.targets| == |ms|
    ensures forall i :: 0 <= i < |ms| ==> s.targets[i].status == if Accepts(start, ms, i) then Succeeded else Failed
  {
    CountsSum(s.targets);
    FirstPendingExact(s.targets, 0);
    assert ms[..|ms|] == ms;
  }

  lemma OutsideStep(s: State, e: Event, account: Account)
    requires Outside(s.targets, account) && (e.Intervene? ==> e.account != account)
    ensures Outside(Next(s, e).targets, account)
    ensures Balance(Next(s, e).book.balances, account) == Balance(s.book.balances, account)
  {
  }

  // Whatever runners do, crash and race: an account outside the frozen targets that nobody else
  // touches keeps its balance.
  lemma {:induction false} OthersUntouched(s: State, es: seq<Event>, account: Account)
    requires Outside(s.targets, account)
    requires forall e :: e in es && e.Intervene? ==> e.account != account
    ensures Balance(Run(s, es).book.balances, account) == Balance(s.book.balances, account)
    decreases |es|
  {
    if es != [] {
      OutsideStep(s, es[0], account);
      OthersUntouched(Next(s, es[0]), es[1..], account);
    }
  }

  // ----- Where overlapping runners go wrong -----

  // A target reported as failed whose mutation is in the ledger all the same.
  ghost predicate Contradictory(s: State) {
    exists i :: 0 <= i < |s.targets| && s.targets[i].status.Failed? && HasRow(s.book.rows, i)
  }

  // The event is the first owner commit of target i: a runner with a ready child, no ledger row yet,
  // and a balance the delta fits into.
  ghost predicate Commits(s: State, e: Event, i: Ordinal) {
    && e.DoAdvance? && e.r in s.runners && s.runners[e.r] == ChildReady(i)
    && i < |s.targets| == |s.children| && !s.children[i].Applied? && !HasRow(s.book.rows, i)
    && Fits(s.book, Request(s.targets[i], i))
  }

  // A live runner holding the owner's refusal of its target.
  predicate Refused(s: State, r: RunnerId) {
    r in s.runners && s.runners[r].Answered? && !s.runners[r].ok
  }

  // The live runners whose refusal has been overtaken by another runner's owner commit.
  ghost function Overtaken(s: State, e: Event, over: set<RunnerId>): set<RunnerId> {
    over + (set r | r in s.runners && Refused(s, r) && Commits(s, e, s.runners[r].i))
    - if e.DoAdvance? || e.Crash? then {e.r} else {}
  }

  // A refusal and an owner commit of the same target meet: the commit comes after the refusal was
  // recorded, or an overtaken refusal is recorded for a target still PENDING.
  ghost predicate Overrules(s: State, e: Event, over: set<RunnerId>) {
    || (exists i :: 0 <= i < |s.targets| && s.targets[i].status.Failed? && Commits(s, e, i))
    || (e.DoAdvance? && e.r in over && e.r in s.runners && s.runners[e.r].i < |s.targets| && s.targets[s.runners[e.r].i].status.Pending?)
  }

  ghost predicate EverOverrules(s: State, es: seq<Event>, over: set<RunnerId>)
    decreases |es|
  {
    es != [] && (Overrules(s, es[0], over) || EverOverrules(Next(s, es[0]), es[1..], Overtaken(s, es[0], over)))
  }

  // The overtaken runners are those who hold a refusal although the ledger has the row: a refusal is
  // only ever answered while there is none.
  ghost predicate OverSound(s: State, over: set<RunnerId>) {
    forall r :: r in over <==> Refused(s, r) && HasRow(s.book.rows, s.runners[r].i)
  }

  // How one event changes which targets have a row.
  lemma RowsStep(opening: map<Account, nat>, s: State, e: Event, i: Ordinal)
    requires Inv(opening, s)
    ensures HasRow(Next(s, e).book.rows, i) <==> HasRow(s.book.rows, i) || Commits(s, e, i)
  {
    if e.DoAdvance? && e.r in s.runners {
      assert RunnerSound(s, s.runners[e.r]);
      if s.runners[e.r].ChildReady? {
        var k := s.runners[e.r].i;
        assert TargetSound(s, k);
        CommitBook(opening, s.book, s.targets, k);
      }
    } else if e.Intervene? {
      RowsStay(s.book, Mutation(e.account, e.delta, Gameplay(e.key), 0));
    }
  }

  // A runner that has just been refused found no row.
  lemma RefusedWithoutRow(opening: map<Account, nat>, s: State, r: RunnerId)
    requires Inv(opening, s) && r in s.runners && s.runners[r].ChildReady?
    ensures var t := Advance(s, r);
            r in t.runners && (t.runners[r].Answered? && !t.runners[r].ok ==> !HasRow(t.book.rows, t.runners[r].i))
  {
    assert RunnerSound(s, s.runners[r]);
    CommitBook(opening, s.book, s.targets, s.runners[r].i);
  }

  // A runner holds a refusal after an event only if it held it before or was just refused.
  lemma RefusalStep(opening: map<Account, nat>, s: State, e: Event, r: RunnerId)
    requires Inv(opening, s) && Refused(Next(s, e), r)
    ensures || (Refused(s, r) && Next(s, e).runners[r] == s.runners[r] && !((e.DoAdvance? || e.Crash?) && e.r == r))
            || !HasRow(Next(s, e).book.rows, Next(s, e).runners[r].i)
  {
    if e.DoAdvance? && e.r == r && r in s.runners && s.runners[r].ChildReady? {
      RefusedWithoutRow(opening, s, r);
    }
  }

  lemma RefusalStays(s: State, e: Event, r: RunnerId)
    requires Refused(s, r) && !((e.DoAdvance? || e.Crash?) && e.r == r)
    ensures Refused(Next(s, e), r) && Next(s, e).runners[r] == s.runners[r]
  {
  }

  lemma OverStep(opening: map<Account, nat>, s: State, e: Event, over: set<RunnerId>)
    requires Inv(opening, s) && OverSound(s, over)
    ensures OverSound(Next(s, e), Overtaken(s, e, over))
  {
    var t, next := Next(s, e), Overtaken(s, e, over);
    forall r ensures r in next <==> Refused(t, r) && HasRow(t.book.rows, t.runners[r].i) {
      if Refused(s, r) {
        RowsStep(opening, s, e, s.runners[r].i);
      }
      if Refused(t, r) {
        RefusalStep(opening, s, e, r);
      }
      if r in next {
        RefusalStays(s, e, r);
      }
    }
  }

  // Only recording a refusal for a PENDING target makes it FAILED.
  lemma FailedStep(s: State, e: Event, i: Ordinal)
    requires i < |s.targets|
    ensures i < |Next(s, e).targets|
    ensures Next(s, e).targets[i].status.Failed? <==>
              || s.targets[i].status.Failed?
              || (&& e.DoAdvance? && Refused(s, e.r) && s.runners[e.r].i == i && |s.children| == |s.targets|
                  && s.targets[i].status.Pending?)
  {
  }

  lemma StepContradicts(opening: map<Account, nat>, s: State, e: Event, over: set<RunnerId>)
    requires Inv(opening, s) && OverSound(s, over) && !Contradictory(s)
    ensures Contradictory(Next(s, e)) <==> Overrules(s, e, over)
  {
    var t := Next(s, e);
    if Overrules(s, e, over) {
      var i: nat := if e.DoAdvance? && e.r in over then s.runners[e.r].i else var k: nat :| k < |s.targets| && s.targets[k].status.Failed? && Commits(s, e, k); k;
      FailedStep(s, e, i);
      RowsStep(opening, s, e, i);
      assert t.targets[i].status.Failed? && HasRow(t.book.rows, i);
    }
    if Contradictory(t) {
      var i: nat :| i < |t.targets| && t.targets[i].status.Failed? && HasRow(t.book.rows, i);
      FrameTargets(s, e);
      FailedStep(s, e, i);
      RowsStep(opening, s, e, i);
      assert !(s.targets[i].status.Failed? && HasRow(s.book.rows, i));
    }
  }

  lemma FrameTargets(s: State, e: Event)
    ensures |Next(s, e).targets| == |s.targets|
  {
  }

  lemma FailedStays(s: State, e: Event, i: Ordinal)
    requires i < |s.targets| && s.targets[i].status.Failed?
    ensures i < |Next(s, e).targets| && Next(s, e).targets[i].status.Failed?
  {
  }

  lemma {:induction false} ContradictionStays(opening: map<Account, nat>, s: State, es: seq<Event>)
    requires Inv(opening, s) && Contradictory(s)
    ensures Contradictory(Run(s, es))
    decreases |es|
  {
    if es != [] {
      var i: nat :| i < |s.targets| && s.targets[i].status.Failed? && HasRow(s.book.rows, i);
      RowsStep(opening, s, es[0], i);
      StepKeepsInv(opening, s, es[0]);
      FailedStays(s, es[0], i);
      ContradictionStays(opening, Next(s, es[0]), es[1..]);
    }
  }

  // Over whole runs: a failed target's mutation is in the ledger if and only if a refusal of it that
  // was answered before another runner's owner commit is recorded, be it before that commit or after.
  lemma {:induction false} ContradictoryIffOverruled(opening: map<Account, nat>, s: State, es: seq<Event>, over: set<RunnerId>)
    requires Inv(opening, s) && OverSound(s, over) && !Contradictory(s)
    ensures Contradictory(Run(s, es)) <==> EverOverrules(s, es, over)
    decreases |es|
  {
    if es != [] {
      StepContradicts(opening, s, es[0], over);
      StepKeepsInv(opening, s, es[0]);
      OverStep(opening, s, es[0], over);
      if Overrules(s, es[0], over) {
        ContradictionStays(opening, Next(s, es[0]), es[1..]);
      } else {
        ContradictoryIffOverruled(opening, Next(s, es[0]), es[1..], Overtaken(s, es[0], over));
      }
    }
  }

  // The guard the code lacks: a target is only taken while it is PENDING and nobody holds it.
  predicate FreeTake(s: State, e: Event) {
    e.DoTake? && e.i < |s.targets| ==> s.targets[e.i].status.Pending? && forall r :: r in s.runners ==> s.runners[r].i != e.i
  }

  predicate FreeTakes(s: State, es: seq<Event>)
    decreases |es|
  {
    es == [] || (FreeTake(s, es[0]) && FreeTakes(Next(s, es[0]), es[1..]))
  }

  // Every target has at most one runner, and a decided one has none.
  ghost predicate Exclusive(s: State) {
    && (forall x, y :: x in s.runners && y in s.runners && x != y ==> s.runners[x].i != s.runners[y].i)
    && (forall r :: r in s.runners ==> s.runners[r].i < |s.targets| && s.targets[s.runners[r].i].status.Pending?)
  }

  // Advancing a runner leaves it at its target, or lets it go; only then is the target decided.
  lemma AdvanceFrame(s: State, r: RunnerId)
    ensures var t := Advance(s, r);
            && |t.targets| == |s.targets|
            && (forall x :: x in t.runners ==> x in s.runners && t.runners[x].i == s.runners[x].i)
            && (forall i :: 0 <= i < |s.targets| && t.targets[i].status != s.targets[i].status ==>
                  r in s.runners && s.runners[r].i == i && r !in t.runners)
  {
  }

  lemma ExclusiveStep(s: State, e: Event)
    requires Exclusive(s) && FreeTake(s, e)
    ensures Exclusive(Next(s, e))
  {
    if e.DoAdvance? {
      AdvanceFrame(s, e.r);
    }
  }

  lemma ExclusiveNeverOverrules(s: State, e: Event)
    requires Exclusive(s)
    ensures !Overrules(s, e, {}) && Overtaken(s, e, {}) == {}
  {
  }

  // With such a guard no batch ever reports a failure for a mutation that is in the ledger, whatever
  // crashes, overlaps on other targets and resumes.
  lemma {:induction false} FreeTakesAgree(opening: map<Account, nat>, s: State, es: seq<Event>)
    requires Inv(opening, s) && Exclusive(s) && OverSound(s, {}) && !Contradictory(s) && FreeTakes(s, es)
    ensures !Contradictory(Run(s, es))
    decreases |es|
  {
    if es != [] {
      StepContradicts(opening, s, es[0], {});
      ExclusiveNeverOverrules(s, es[0]);
      OverStep(opening, s, es[0], {});
      ExclusiveStep(s, es[0]);
      StepKeepsInv(opening, s, es[0]);
      FreeTakesAgree(opening, Next(s, es[0]), es[1..]);
    }
  }

  // Both results for a batch from its preview on.
  lemma BatchContradictsIff(opening: map<Account, nat>, plan: seq<(Account, int)>, es: seq<Event>)
    requires forall a :: a in opening ==> opening[a] <= BIGINT_MAX
    ensures var s := Freeze(Book(opening, []), plan);
            && (Contradictory(Run(s, es)) <==> EverOverrules(s, es, {}))
            && (FreeTakes(s, es) ==> !Contradictory(Run(s, es)))
  {
    var s := Freeze(Book(opening, []), plan);
    assert Inv(opening, s);
    ContradictoryIffOverruled(opening, s, es, {});
    if FreeTakes(s, es) {
      FreeTakesAgree(opening, s, es);
    }
  }

  // ----- The run of two overlapping runners -----

  const COIN := Wallet(1, 1)
  const LACKING := [(COIN, -5)]

  function OneTarget(status: TargetStatus, attempts: nat): seq<Target> {
    [Target(COIN, -5, status, attempts)]
  }

  const TOP_UP := Row(WalletCredit, Gameplay(0), COIN, 10, 0, 10)
  const DEBIT := Row(WalletDebit, AdminOperation(0), COIN, -5, 0, 5)

  // Runner 1 has been refused for lack of funds and has not recorded it yet.
  function FirstRefused(): State {
    State(Book(map[], []), OneTarget(Pending, 1), [Child.Prepared], map[1 := Answered(0, false)], Running, Some(9), 0, -1, 0, 0)
  }

  // Funds arrived, and runner 2 has counted its attempt.
  function SecondAttempted(): State {
    FirstRefused().(book := Book(map[COIN := 10], [TOP_UP]), targets := OneTarget(Pending, 2),
                    runners := map[1 := Answered(0, false), 2 := Attempted(0)])
  }

  // Funds arrived, and runner 2's child went through.
  function SecondApplied(): State {
    FirstRefused().(book := Book(map[COIN := 5], [TOP_UP, DEBIT]), targets := OneTarget(Pending, 2), children := [Child.Applied],
                    runners := map[1 := Answered(0, false), 2 := Answered(0, true)])
  }

  const REFUSAL := [DoClaim(9, 0), DoTake(1, 0)] + [DoAdvance(1), DoAdvance(1), DoAdvance(1)]
  const SUCCESS := [Intervene(COIN, 10, 0), DoTake(2, 0), DoAdvance(2)] + [DoAdvance(2), DoAdvance(2), DoAdvance(2)]
  const RECORDS := [DoAdvance(1), DoAdvance(2), Refresh]

  lemma {:induction false} RunAppend(s: State, xs: seq<Event>, ys: seq<Event>)
    ensures Run(s, xs + ys) == Run(Run(s, xs), ys)
    decreases |xs|
  {
    if xs == [] {
      assert xs + ys == ys;
    } else {
      assert (xs + ys)[1..] == xs[1..] + ys;
      RunAppend(Next(s, xs[0]), xs[1..], ys);
    }
  }

  lemma RunTwo(s: State, a: Event, b: Event)
    ensures Run(s, [a, b]) == Next(Next(s, a), b)
  {
    assert [a, b][1..] == [b] && [b][1..] == [];
    assert Run(s, [a, b]) == Run(Next(s, a), [b]);
  }

  lemma RunThree(s: State, a: Event, b: Event, c: Event)
    ensures Run(s, [a, b, c]) == Next(Next(Next(s, a), b), c)
  {
    assert [a, b, c][1..] == [b, c];
    RunTwo(Next(s, a), b, c);
  }

  // Runner 1 asks the owner and is refused.
  lemma RefusalRun()
    ensures Run(Freeze(Book(map[], []), LACKING), REFUSAL) == FirstRefused()
  {
    var start := Freeze(Book(map[], []), LACKING);
    var s := State(Book(map[], []), OneTarget(Pending, 0), [Child.Absent], map[1 := Taken(0)], Running, Some(9), 0, -1, 0, 0);
    assert start.children == [Child.Absent];
    RunTwo(start, DoClaim(9, 0), DoTake(1, 0));
    assert Next(Next(start, DoClaim(9, 0)), DoTake(1, 0)) == s;
    RunAppend(start, [DoClaim(9, 0), DoTake(1, 0)], [DoAdvance(1), DoAdvance(1), DoAdvance(1)]);
    RunThree(s, DoAdvance(1), DoAdvance(1), DoAdvance(1));
    var s2 := s.(targets := OneTarget(Pending, 1), children := [Child.Prepared], runners := map[1 := ChildReady(0)]);
    assert Advance(Advance(s, 1), 1) == s2;
  }

  lemma TopUpRun()
    ensures Run(FirstRefused(), [Intervene(COIN, 10, 0), DoTake(2, 0), DoAdvance(2)]) == SecondAttempted()
  {
    RunThree(FirstRefused(), Intervene(COIN, 10, 0), DoTake(2, 0), DoAdvance(2));
    var s := FirstRefused().(book := Book(map[COIN := 10], [TOP_UP]), runners := map[1 := Answered(0, false), 2 := Taken(0)]);
    assert Next(Next(FirstRefused(), Intervene(COIN, 10, 0)), DoTake(2, 0)) == s;
  }

  lemma SecondRun()
    ensures Run(FirstRefused(), SUCCESS) == SecondApplied()
  {
    RunAppend(FirstRefused(), [Intervene(COIN, 10, 0), DoTake(2, 0), DoAdvance(2)], [DoAdvance(2), DoAdvance(2), DoAdvance(2)]);
    TopUpRun();
    var s := SecondAttempted();
    RunThree(s, DoAdvance(2), DoAdvance(2), DoAdvance(2));
    var s2 := s.(runners := map[1 := Answered(0, false), 2 := ChildReady(0)]);
    assert Advance(s, 2) == s2;
    assert [TOP_UP][1..] == [] && Find([TOP_UP], WalletDebit, AdminOperation(0)) == None;
    var s3 := s2.(book := Book(map[COIN := 5], [TOP_UP, DEBIT]), runners := map[1 := Answered(0, false), 2 := Committed(0)]);
    assert Advance(s2, 2) == s3;
  }

  function Reported(): State {
    SecondApplied().(targets := OneTarget(Failed, 2), runners := map[], checkpoint := 0, failed := 1,
                     status := CompletedWithErrors, revision := 1)
  }

  lemma RecordRun()
    ensures Run(SecondApplied(), RECORDS) == Reported()
  {
    RunThree(SecondApplied(), DoAdvance(1), DoAdvance(2), Refresh);
    var s := SecondApplied().(targets := OneTarget(Failed, 2), runners := map[]);
    assert Advance(Advance(SecondApplied(), 1), 2) == s;
    assert OneTarget(Failed, 2)[..0] == [];
    assert Count(OneTarget(Failed, 2), Failed) == 1 && Count(OneTarget(Failed, 2), Succeeded) == 0;
    assert FirstPending(OneTarget(Failed, 2), 0) == 1;
  }

  // A whole run from the preview on. The owner refuses the first runner for lack of funds; funds
  // arrive, and a second runner's child goes through; the stale refusal is recorded first, the
  // success is ignored, and the batch reports a failure for a target whose child operation is applied
  // and in the ledger.
  lemma FailedButApplied()
    ensures var t := Run(Freeze(Book(map[], []), LACKING), REFUSAL + (SUCCESS + RECORDS));
            && t.status == CompletedWithErrors && t.succeeded == 0 && t.failed == 1
            && t.targets == OneTarget(Failed, 2) && t.children == [Child.Applied] && HasRow(t.book.rows, 0)
            && Contradictory(t)
  {
    RunAppend(Freeze(Book(map[], []), LACKING), REFUSAL, SUCCESS + RECORDS);
    RefusalRun();
    RunAppend(FirstRefused(), SUCCESS, RECORDS);
    SecondRun();
    RecordRun();
    assert Reported().book.rows[1].key == AdminOperation(0);
    assert Reported().targets[0].status.Failed?;
  }

  // With everything pending from `first` on, the chunk is a run of consecutive ordinals from there.
  lemma ChunkIsConsecutive(targets: seq<Target>, chunk: seq<Ordinal>, limit: nat, first: Ordinal)
    requires limit > 0 && |chunk| <= limit && first <= |targets|
    requires forall k :: 0 <= k < |targets| ==> (targets[k].status.Pending? <==> k >= first)
    requires forall k, l :: 0 <= k < l < |chunk| ==> chunk[k] < chunk[l]
    requires forall k :: 0 <= k < |chunk| ==> chunk[k] < |targets| && targets[chunk[k]].status.Pending?
    requires forall i :: 0 <= i < |targets| && targets[i].status.Pending? ==>
               i in chunk || (|chunk| == limit && forall k :: 0 <= k < |chunk| ==> chunk[k] < i)
    ensures forall k :: 0 <= k < |chunk| ==> chunk[k] == first + k
    ensures chunk == [] <==> first == |targets|
    ensures first + |chunk| <= |targets|
  {
    ChunkFrom(targets, chunk, first, |chunk|);
    if chunk != [] {
      assert chunk[|chunk| - 1] < |targets| && targets[chunk[0]].status.Pending?;
    }
    assert first < |targets| ==> targets[first].status.Pending?;
  }

  lemma {:induction false} ChunkFrom(targets: seq<Target>, chunk: seq<Ordinal>, first: Ordinal, n: nat)
    requires n <= |chunk| && first <= |targets|
    requires forall k :: 0 <= k < |targets| ==> (targets[k].status.Pending? <==> k >= first)
    requires forall k, l :: 0 <= k < l < |chunk| ==> chunk[k] < chunk[l]
    requires forall k :: 0 <= k < |chunk| ==> chunk[k] < |targets| && targets[chunk[k]].status.Pending?
    requires forall i :: 0 <= i < |targets| && targets[i].status.Pending? ==>
               i in chunk || forall k :: 0 <= k < |chunk| ==> chunk[k] < i
    ensures forall k :: 0 <= k < n ==> chunk[k] == first + k
  {
    if n > 0 {
      ChunkFrom(targets, chunk, first, n - 1);
      var i := first + n - 1;
      assert chunk[n - 1] >= i by { assert targets[chunk[n - 1]].status.Pending? && (n >= 2 ==> chunk[n - 2] < chunk[n - 1]); }
      assert targets[i].status.Pending?;
      var j :| 0 <= j < |chunk| && chunk[j] == i;
      assert j <= n - 1;
    }
  }

  // ----- The runner's loop -----

  class BatchStore {
    var book: Book
    var targets: seq<Target>
    var children: seq<Child>
    var status: BatchStatus
    var executor: Option<nat>
    var revision: nat
    var checkpoint: int
    var succeeded: nat
    var failed: nat

    ghost function Contents(): State
      reads this
    {
      State(book, targets, children, map[], status, executor, revision, checkpoint, succeeded, failed)
    }

    constructor (book: Book, plan: seq<(Account, int)>)
      ensures Contents() == Freeze(book, plan)
    {
      this.book := book;
      targets := seq(|plan|, i requires 0 <= i < |plan| => Target(plan[i].0, plan[i].1, Pending, 0));
      children := seq(|plan|, i => Absent);
      status, executor, revision, checkpoint, succeeded, failed := Previewed, None, 0, -1, 0, 0;
    }

    // Whoever is let in is the executor; an executor is never replaced, a refusal changes nothing,
    // and only an open batch at the expected revision is entered.
    method Claim(operation: nat, expectedRevision: nat) returns (outcome: Outcome)
      requires ProgressSound(Contents())
      modifies `status, `executor
      ensures (Contents(), outcome) == ClaimExecution(old(Contents()), operation, expectedRevision)
      ensures ProgressSound(Contents())
      ensures outcome.Done? || outcome.ReplayedTerminal? ==> executor == Some(operation)
      ensures old(executor).Some? ==> executor == old(executor)
      ensures outcome.Done? ==> status.Running? && revision == expectedRevision == 0
      ensures ClaimExecution(Contents(), operation, expectedRevision) == (Contents(), outcome)
    {
      if status == Completed || status == CompletedWithErrors {
        return if executor != Some(operation) then IdempotencyConflict else ReplayedTerminal;
      }
      if revision != expectedRevision {
        return RevisionConflict;
      }
      if executor.Some? && executor != Some(operation) {
        return IdempotencyConflict;
      }
      if status == Previewed {
        executor, status := Some(operation), Running;
      }
      outcome := Done;
    }

    // The first `limit` pending ordinals, in order: nothing pending is passed over.
    method LoadPendingTargets(limit: nat) returns (chunk: seq<Ordinal>)
      ensures |chunk| <= limit
      ensures forall k, l :: 0 <= k < l < |chunk| ==> chunk[k] < chunk[l]
      ensures forall k :: 0 <= k < |chunk| ==> chunk[k] < |targets| && targets[chunk[k]].status.Pending?
      ensures forall i :: 0 <= i < |targets| && targets[i].status.Pending? ==>
                i in chunk || (|chunk| == limit && forall k :: 0 <= k < |chunk| ==> chunk[k] < i)
    {
      chunk := [];
      var i := 0;
      while i < |targets| && |chunk| < limit
        invariant 0 <= i <= |targets| && |chunk| <= limit
        invariant forall k, l :: 0 <= k < l < |chunk| ==> chunk[k] < chunk[l]
        invariant forall k :: 0 <= k < |chunk| ==> chunk[k] < i && targets[chunk[k]].status.Pending?
        invariant forall j :: 0 <= j < i && targets[j].status.Pending? ==> j in chunk
      {
        if targets[i].status.Pending? {
          chunk := chunk + [i];
        }
        i := i + 1;
      }
    }

    // A running batch ends exactly when nothing is pending, with its revision advanced and its counts
    // adding up, COMPLETED only if nothing failed; the checkpoint is the last ordinal before the first
    // pending target.
    method Refresh()
      modifies `checkpoint, `succeeded, `failed, `status, `revision
      ensures Contents() == RefreshProgress(old(Contents()))
      ensures old(status).Running? ==>
                && (!status.Running? <==> forall i :: 0 <= i < |targets| ==> !targets[i].status.Pending?)
                && revision == old(revision) + (if status.Running? then 0 else 1)
                && succeeded == Count(targets, Succeeded) && failed == Count(targets, Failed)
                && succeeded + failed + Count(targets, Pending) == |targets|
                && (status.Completed? <==> forall i :: 0 <= i < |targets| ==> targets[i].status.Succeeded?)
                && -1 <= checkpoint < |targets| && (forall i :: 0 <= i <= checkpoint ==> !targets[i].status.Pending?)
                && (checkpoint + 1 < |targets| ==> targets[checkpoint + 1].status.Pending?)
    {
      CountsSum(targets);
      FirstPendingExact(targets, 0);
      if status == Running {
        var first: int := FirstPending(targets, 0);
        var failures := Count(targets, Failed);
        checkpoint, succeeded, failed := first - 1, Count(targets, Succeeded), failures;
        if first == |targets| {
          status := if failures == 0 then Completed else CompletedWithErrors;
          revision := revision + 1;
        }
      }
    }

    // recordAttempt counts the attempt and changes nothing else.
    method RecordAttempt(ghost start: Book, ghost ms: seq<Mutation>, i: Ordinal)
      requires Sequential(start, ms, Contents(), i) && i < |targets|
      modifies `targets
      ensures Sequential(start, ms, Contents(), i) && targets[i].attempts == old(targets[i].attempts) + 1
    {
      AttemptIsSequential(start, ms, Contents(), i);
      targets := targets[i := targets[i].(attempts := targets[i].attempts + 1)];
    }

    // The child's prepare creates it once.
    method PrepareTarget(ghost start: Book, ghost ms: seq<Mutation>, i: Ordinal)
      requires Sequential(start, ms, Contents(), i) && i < |targets|
      modifies `children
      ensures Sequential(start, ms, Contents(), i)
      ensures children == if old(children[i]).Absent? then old(children)[i := Child.Prepared] else old(children)
    {
      if children[i].Absent? {
        PrepareIsSequential(start, ms, Contents(), i);
        children := children[i := Child.Prepared];
      }
    }

    // The owner's transaction of the child's apply; an applied child is not asked for again.
    method CommitTarget(ghost start: Book, ghost ms: seq<Mutation>, i: Ordinal) returns (ok: bool)
      requires Sequential(start, ms, Contents(), i) && i < |targets|
      modifies `book
      ensures Sequential(start, ms, Contents(), i)
      ensures ok <==> Accepts(start, ms, i)
      ensures ok ==> OwnerHas(start, ms, book, i)
    {
      ghost var before := Contents();
      CommitIsSequential(start, ms, before, 0, i);
      OwnerAnswers(start, ms, book, i);
      ok := true;
      if !children[i].Applied? {
        var (after, reply) := Mutate(book, Request(targets[i], i));
        ok, book := reply.Ok?, after;
      }
      SameMeaning(start, ms, CommitChild(before, 0, i), Contents(), i);
    }

    // The evidence transaction of the child's apply.
    method CompleteTarget(ghost start: Book, ghost ms: seq<Mutation>, i: Ordinal)
      requires Sequential(start, ms, Contents(), i) && i < |targets| && OwnerHas(start, ms, book, i)
      modifies `children
      ensures Sequential(start, ms, Contents(), i) && AnswerFits(start, ms, Contents(), i, true)
    {
      CompleteIsSequential(start, ms, Contents(), i);
      children := children[i := Child.Applied];
    }

    method RecordResult(ghost start: Book, ghost ms: seq<Mutation>, i: Ordinal, ok: bool)
      requires Sequential(start, ms, Contents(), i) && AnswerFits(start, ms, Contents(), i, ok)
      modifies `targets
      ensures Sequential(start, ms, Contents(), i + 1)
      ensures Contents() == Record(old(Contents()), i, ok)
    {
      RecordIsSequential(start, ms, Contents(), i, ok);
      if targets[i].status.Pending? {
        targets := targets[i := targets[i].(status := if ok then Succeeded else Failed)];
      }
    }

    // One target; the process may die before, between or after its five transactions, in particular
    // between the owner's commit and the child's evidence.
    method RunTarget(ghost start: Book, ghost ms: seq<Mutation>, i: Ordinal, budget: nat)
      returns (left: nat, alive: bool, ghost reached: Ordinal)
      requires Sequential(start, ms, Contents(), i) && i < |targets|
      modifies `book, `targets, `children
      ensures Sequential(start, ms, Contents(), reached)
      ensures if alive then left <= budget <= left + 5 && reached == i + 1 else budget < 5 && reached == i
    {
      left, alive, reached := budget, false, i;
      if left == 0 {
        return;
      }
      RecordAttempt(start, ms, i);
      left := left - 1;
      if left == 0 {
        return;
      }
      PrepareTarget(start, ms, i);
      left := left - 1;
      if left == 0 {
        return;
      }
      var ok := CommitTarget(start, ms, i);
      left := left - 1;
      if left == 0 {
        return;
      }
      if ok {
        CompleteTarget(start, ms, i);
        left := left - 1;
        if left == 0 {
          return;
        }
      }
      RecordResult(start, ms, i, ok);
      left, alive, reached := left - 1, true, i + 1;
    }

    method RunChunk(ghost start: Book, ghost ms: seq<Mutation>, chunk: seq<Ordinal>, ghost first: Ordinal, budget: nat)
      returns (left: nat, alive: bool, ghost reached: Ordinal)
      requires Sequential(start, ms, Contents(), first) && first + |chunk| <= |ms|
      requires forall j :: 0 <= j < |chunk| ==> chunk[j] == first + j
      modifies `book, `targets, `children
      ensures Sequential(start, ms, Contents(), reached)
      ensures if alive then left <= budget <= left + 5 * |chunk| && reached == first + |chunk| else budget < 5 * |chunk|
    {
      left, alive, reached := budget, true, first;
      var k := 0;
      while k < |chunk|
        invariant 0 <= k <= |chunk| && reached == first + k
        invariant Sequential(start, ms, Contents(), reached) && left <= budget <= left + 5 * k && alive
      {
        left, alive, reached := RunTarget(start, ms, chunk[k], left);
        if !alive {
          return;
        }
        k := k + 1;
      }
    }

    // The chunk loop of an execution that may die anywhere: what it leaves is always the sequential
    // execution so far, and when it finishes, the whole of it.
    method RunPendingTargets(ghost start: Book, ghost ms: seq<Mutation>, chunkSize: nat, budget: nat) returns (finished: bool)
      requires chunkSize > 0 && status == Running && Sequential(start, ms, Contents(), FirstPending(targets, 0))
      modifies this
      ensures Sequential(start, ms, Contents(), FirstPending(targets, 0))
      ensures finished ==> FirstPending(targets, 0) == |targets| && book == ApplyAll(start, ms)
      ensures budget >= 5 * |old(targets)| ==> finished
    {
      var left: nat := budget;
      ghost var total := |targets|;
      FirstPendingExact(targets, 0);
      while true
        invariant |targets| == total && Sequential(start, ms, Contents(), FirstPending(targets, 0))
        invariant budget >= 5 * total ==> left >= 5 * (total - FirstPending(targets, 0))
        decreases total - FirstPending(targets, 0)
      {
        var chunk := LoadPendingTargets(chunkSize);
        ghost var first := FirstPending(targets, 0);
        DecidedBelow(start, ms, Contents(), first);
        ChunkIsConsecutive(targets, chunk, chunkSize, first);
        if chunk == [] {
          break;
        }
        var alive;
        ghost var reached;
        left, alive, reached := RunChunk(start, ms, chunk, first, left);
        if !alive {
          FirstPendingIs(start, ms, Contents(), reached);
          return false;
        }
        ghost var before := Contents();
        Refresh();
        SameMeaning(start, ms, before, Contents(), reached);
      }
      assert ms[..|ms|] == ms;
      finished := true;
    }
  }
}
