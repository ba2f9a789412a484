/** Exactly-once effects and replies of the inbox over all runs. */
module InboxSafety {
  import opened Wrappers
  import opened Economy
  import opened Inbox

  // ----- Counting -----

  function Replies(outbox: seq<OutRow>, id: MsgId): nat {
    if outbox == [] then 0
    else Replies(outbox[..|outbox| - 1], id) + if outbox[|outbox| - 1].cause == id then 1 else 0
  }

  // Handler runs for a message that were answered at all.
  function Handles(handled: seq<Attempt>, id: MsgId): nat {
    if handled == [] then 0
    else Handles(handled[..|handled| - 1], id) + if handled[|handled| - 1].id == id then 1 else 0
  }

  // Handler runs for a message that had their effect.
  function Effects(handled: seq<Attempt>, id: MsgId): nat {
    if handled == [] then 0
    else
      var last := handled[|handled| - 1];
      Effects(handled[..|handled| - 1], id) + if last.id == id && !last.answer.Friendly? then 1 else 0
  }

  lemma RepliesAppend(outbox: seq<OutRow>, row: OutRow, id: MsgId)
    ensures Replies(outbox + [row], id) == Replies(outbox, id) + if row.cause == id then 1 else 0
  {
    assert (outbox + [row])[..|outbox|] == outbox;
  }

  lemma HandlesAppend(handled: seq<Attempt>, a: Attempt, id: MsgId)
    ensures Handles(handled + [a], id) == Handles(handled, id) + if a.id == id then 1 else 0
    ensures Effects(handled + [a], id) == Effects(handled, id) + if a.id == id && !a.answer.Friendly? then 1 else 0
  {
    assert (handled + [a])[..|handled|] == handled;
  }

  lemma {:induction false} RepliesPositive(outbox: seq<OutRow>, id: MsgId)
    ensures Replies(outbox, id) > 0 <==> exists r :: r in outbox && r.cause == id
  {
    if outbox != [] {
      RepliesPositive(outbox[..|outbox| - 1], id);
      assert outbox == outbox[..|outbox| - 1] + [outbox[|outbox| - 1]];
    }
  }

  lemma {:induction false} NoReplyNoKey(outbox: seq<OutRow>, id: MsgId, key: OutKey)
    requires Replies(outbox, id) == 0 && key.id == id
    requires forall r :: r in outbox ==> r.key.id == r.cause
    ensures FindOut(outbox, key) == None
  {
    RepliesPositive(outbox, id);
    FindOutNone(outbox, key);
  }

  lemma {:induction false} FindOutNone(outbox: seq<OutRow>, key: OutKey)
    requires forall r :: r in outbox ==> r.key != key
    ensures FindOut(outbox, key) == None
  {
    if outbox != [] {
      FindOutNone(outbox[1..], key);
    }
  }

  lemma {:induction false} AttemptHandled(handled: seq<Attempt>, a: Attempt)
    requires a in handled
    ensures Handles(handled, a.id) >= 1
    ensures !a.answer.Friendly? ==> Effects(handled, a.id) >= 1
    ensures a.answer.Friendly? ==> Handles(handled, a.id) >= 1 + Effects(handled, a.id)
  {
    var front, last := handled[..|handled| - 1], handled[|handled| - 1];
    EffectsAreHandles(front, a.id);
    if last != a {
      assert a in front;
      AttemptHandled(front, a);
    }
  }

  lemma {:induction false} EffectsAreHandles(handled: seq<Attempt>, id: MsgId)
    ensures Effects(handled, id) <= Handles(handled, id)
  {
    if handled != [] {
      EffectsAreHandles(handled[..|handled| - 1], id);
    }
  }

  // ----- Invariant -----

  function LedgerRow(rows: seq<Row>, id: MsgId, content: Content): Option<Row>
    requires content.Credit?
  {
    Find(rows, ScopeOf(content.account, content.amount), Message(id))
  }

  // The effect an answer speaks of has really happened.
  ghost predicate AnswerSound(s: State, id: MsgId, answer: Answer) {
    && id in s.inbox
    && Attempt(id, answer) in s.handled
    && var content := s.inbox[id].content;
       match answer
       case Credited(balance) =>
         && content.Credit?
         && LedgerRow(s.book.rows, id, content).Some?
         && LedgerRow(s.book.rows, id, content).value.balanceAfter == balance
       case Bumped => content.Bump?
       case Ignored => content.Freeform?
       case Friendly(_) => true
  }

  ghost predicate RowFromMessage(s: State, row: Row) {
    row.key.Message? ==>
      && row.key.id in s.inbox
      && s.inbox[row.key.id].content.Credit?
      && row.account == s.inbox[row.key.id].content.account
      && row.delta == s.inbox[row.key.id].content.amount
      && row.audit == row.key.id
      && Effects(s.handled, row.key.id) >= 1
  }

  ghost predicate RowsFromMessages(s: State) {
    forall i :: 0 <= i < |s.book.rows| ==> RowFromMessage(s, s.book.rows[i])
  }

  ghost predicate WorkSound(s: State, work: Work) {
    match work
    case Claimed(id) => id in s.inbox
    case Answered(id, answer) => AnswerSound(s, id, answer)
  }

  ghost predicate WorkersSound(s: State) {
    forall w :: w in s.workers ==> WorkSound(s, s.workers[w])
  }

  ghost predicate ProcessedSound(s: State) {
    forall id :: id in s.inbox && s.inbox[id].status.Processed? ==> AnswerSound(s, id, s.inbox[id].status.answer)
  }

  ghost predicate RepliesSound(s: State) {
    && (forall r :: r in s.outbox ==>
          && r.key.id == r.cause && r.cause in s.inbox && s.inbox[r.cause].status.Processed?
          && Draft(r.key, r.text) in Drafts(r.cause, s.inbox[r.cause].status.answer))
    && (forall id :: id in s.inbox ==>
          Replies(s.outbox, id) == if s.inbox[id].status.Processed? then |Drafts(id, s.inbox[id].status.answer)| else 0)
  }

  function Claimants(workers: map<WorkerId, Work>, id: MsgId): set<WorkerId> {
    set w | w in workers && workers[w] == Claimed(id)
  }

  // Every claim pays for at most one handler run.
  ghost predicate AttemptsSound(s: State) {
    && (forall a :: a in s.handled ==> a.id in s.inbox)
    && (forall id :: id in s.inbox ==>
          |Claimants(s.workers, id)| + Handles(s.handled, id) <= s.inbox[id].attempts)
  }

  ghost predicate Inv(opening: map<Account, nat>, s: State) {
    && Balanced(opening, s.book)
    && RowsFromMessages(s)
    && WorkersSound(s)
    && ProcessedSound(s)
    && RepliesSound(s)
    && AttemptsSound(s)
  }

  // ----- Nothing recorded is rewritten -----

  ghost predicate Evolves(s: State, t: State) {
    && (forall id :: id in s.inbox ==>
          && id in t.inbox
          && t.inbox[id].content == s.inbox[id].content
          && s.inbox[id].attempts <= t.inbox[id].attempts
          && (s.inbox[id].status.Processed? ==> t.inbox[id].status == s.inbox[id].status))
    && s.book.rows <= t.book.rows
    && s.handled <= t.handled
    && s.outbox <= t.outbox
  }

  lemma {:induction false} InsertGrows(outbox: seq<OutRow>, drafts: seq<Draft>, id: MsgId, n: nat)
    ensures InsertDrafts(outbox, drafts, id, n).Some? ==> outbox <= InsertDrafts(outbox, drafts, id, n).value
    decreases |drafts|
  {
    if drafts != [] {
      InsertGrows(outbox, drafts[1..], id, n + 1);
      InsertGrows(outbox + [OutRow(drafts[0].key, drafts[0].text, id, n)], drafts[1..], id, n + 1);
    }
  }

  lemma ClaimEvolves(s: State, w: WorkerId, id: MsgId, content: Content, leaseMs: nat)
    ensures Evolves(s, ClaimIncoming(s, w, id, content, leaseMs).0)
  {
  }

  lemma HandleEvolves(s: State, w: WorkerId)
    ensures Evolves(s, Handle(s, w).0)
  {
  }

  lemma CompleteEvolves(s: State, w: WorkerId)
    ensures Evolves(s, Complete(s, w).0)
  {
    if w in s.workers && s.workers[w].Answered? {
      InsertGrows(s.outbox, Drafts(s.workers[w].id, s.workers[w].answer), s.workers[w].id, 0);
    }
  }

  lemma StepEvolves(s: State, e: Event)
    ensures Evolves(s, Next(s, e))
  {
    match e
    case DoClaim(w, id, content, leaseMs) => ClaimEvolves(s, w, id, content, leaseMs);
    case DoHandle(w) => HandleEvolves(s, w);
    case DoComplete(w) => CompleteEvolves(s, w);
    case _ =>
  }

  lemma {:induction false} RunEvolves(s: State, es: seq<Event>)
    ensures Evolves(s, Run(s, es))
    decreases |es|
  {
    if es != [] {
      StepEvolves(s, es[0]);
      RunEvolves(Next(s, es[0]), es[1..]);
    }
  }

  lemma AnswersStable(s: State, t: State)
    requires Evolves(s, t)
    ensures forall id, answer :: AnswerSound(s, id, answer) ==> AnswerSound(t, id, answer)
  {
    forall id, answer | AnswerSound(s, id, answer) ensures AnswerSound(t, id, answer) {
      if answer.Credited? {
        FindPrefix(s.book.rows, t.book.rows, ScopeOf(s.inbox[id].content.account, s.inbox[id].content.amount), Message(id));
      }
    }
  }

  lemma {:induction false} EffectsGrow(a: seq<Attempt>, b: seq<Attempt>, id: MsgId)
    requires a <= b
    ensures Effects(a, id) <= Effects(b, id)
    decreases |b|
  {
    if a != b {
      assert a <= b[..|b| - 1];
      EffectsGrow(a, b[..|b| - 1], id);
    }
  }

  // ----- Ledger rows -----

  lemma RowsStable(s: State, t: State)
    requires Evolves(s, t) && RowsFromMessages(s)
    requires forall i :: |s.book.rows| <= i < |t.book.rows| ==> RowFromMessage(t, t.book.rows[i])
    ensures RowsFromMessages(t)
  {
    forall id: MsgId ensures Effects(s.handled, id) <= Effects(t.handled, id) {
      EffectsGrow(s.handled, t.handled, id);
    }
    forall i | 0 <= i < |t.book.rows| ensures RowFromMessage(t, t.book.rows[i]) {
      if i < |s.book.rows| {
        assert RowFromMessage(s, s.book.rows[i]);
      }
    }
  }

  lemma HandleKeepsRows(opening: map<Account, nat>, s: State, w: WorkerId)
    requires Balanced(opening, s.book) && RowsFromMessages(s)
    ensures Balanced(opening, Handle(s, w).0.book) && RowsFromMessages(Handle(s, w).0)
  {
    var t := Handle(s, w).0;
    HandleEvolves(s, w);
    if t != s && s.inbox[s.workers[w].id].content.Credit? {
      var id := s.workers[w].id;
      MutateKeepsBalanced(opening, s.book, CreditRequest(id, s.inbox[id].content));
      HandlesAppend(s.handled, t.handled[|s.handled|], id);
    }
    RowsStable(s, t);
  }

  lemma InterveneKeepsRows(opening: map<Account, nat>, s: State, m: Mutation)
    requires Balanced(opening, s.book) && RowsFromMessages(s) && m.key.Gameplay?
    ensures var t := s.(book := Apply(s.book, m)); Balanced(opening, t.book) && RowsFromMessages(t)
  {
    MutateKeepsBalanced(opening, s.book, m);
    RowsStable(s, s.(book := Apply(s.book, m)));
  }

  lemma StepKeepsRows(opening: map<Account, nat>, s: State, e: Event)
    requires Balanced(opening, s.book) && RowsFromMessages(s)
    ensures Balanced(opening, Next(s, e).book) && RowsFromMessages(Next(s, e))
  {
    match e
    case DoHandle(w) => HandleKeepsRows(opening, s, w);
    case Intervene(account, delta, key) => InterveneKeepsRows(opening, s, Mutation(account, delta, Gameplay(key), 0));
    case _ =>
      StepEvolves(s, e);
      RowsStable(s, Next(s, e));
  }

  // ----- Answers -----

  // The answer a handler run produces describes its own effect, or the original one it repeated.
  lemma HandleAnswerIsSound(s: State, w: WorkerId)
    requires Handle(s, w).1.Handled?
    ensures var t := Handle(s, w).0; w in t.workers && WorkSound(t, t.workers[w])
  {
    var id := s.workers[w].id;
    var content := s.inbox[id].content;
    if content.Credit? {
      var m := CreditRequest(id, content);
      if Mutate(s.book, m).1.Ok? && Apply(s.book, m) != s.book {
        FindAppend(s.book.rows, NewRow(s.book, m), ScopeOf(m.account, m.delta), m.key);
      }
    }
  }

  lemma WorkersStable(s: State, t: State)
    requires Evolves(s, t) && WorkersSound(s)
    requires forall w :: w in t.workers ==> (w in s.workers && t.workers[w] == s.workers[w]) || WorkSound(t, t.workers[w])
    ensures WorkersSound(t)
  {
    AnswersStable(s, t);
    forall w | w in t.workers ensures WorkSound(t, t.workers[w]) {
      if w in s.workers && t.workers[w] == s.workers[w] {
        assert WorkSound(s, s.workers[w]);
      }
    }
  }

  lemma WorkersFrame(s: State, e: Event)
    requires !e.DoHandle?
    ensures forall w :: w in Next(s, e).workers ==>
              || (w in s.workers && Next(s, e).workers[w] == s.workers[w])
              || WorkSound(Next(s, e), Next(s, e).workers[w])
  {
  }

  lemma StepKeepsWorkers(s: State, e: Event)
    requires WorkersSound(s)
    ensures WorkersSound(Next(s, e))
  {
    StepEvolves(s, e);
    if e.DoHandle? {
      if Handle(s, e.w).1.Handled? {
        HandleAnswerIsSound(s, e.w);
        assert Next(s, e) == Handle(s, e.w).0;
      }
    } else {
      WorkersFrame(s, e);
    }
    WorkersStable(s, Next(s, e));
  }

  lemma ProcessedOnlyByComplete(s: State, e: Event, id: MsgId)
    requires id in Next(s, e).inbox && Next(s, e).inbox[id].status.Processed?
    ensures || (id in s.inbox && Next(s, e).inbox[id].status == s.inbox[id].status)
            || (&& e.DoComplete? && e.w in s.workers
                && s.workers[e.w] == Answered(id, Next(s, e).inbox[id].status.answer))
  {
  }

  lemma StepKeepsProcessed(s: State, e: Event)
    requires WorkersSound(s) && ProcessedSound(s)
    ensures ProcessedSound(Next(s, e))
  {
    var t := Next(s, e);
    StepEvolves(s, e);
    AnswersStable(s, t);
    forall id | id in t.inbox && t.inbox[id].status.Processed? ensures AnswerSound(t, id, t.inbox[id].status.answer) {
      ProcessedOnlyByComplete(s, e, id);
      if !(id in s.inbox && t.inbox[id].status == s.inbox[id].status) {
        assert WorkSound(s, s.workers[e.w]);
      }
    }
  }

  // ----- Replies -----

  lemma {:induction false} InsertFresh(outbox: seq<OutRow>, answer: Answer, id: MsgId)
    requires Replies(outbox, id) == 0
    requires forall r :: r in outbox ==> r.key.id == r.cause
    ensures var rows := InsertDrafts(outbox, Drafts(id, answer), id, 0);
            && rows.Some?
            && (if Drafts(id, answer) == [] then rows.value == outbox
                else rows.value == outbox + [OutRow(Drafts(id, answer)[0].key, Drafts(id, answer)[0].text, id, 0)])
  {
    var drafts := Drafts(id, answer);
    if drafts != [] {
      NoReplyNoKey(outbox, id, drafts[0].key);
      assert drafts[1..] == [];
    }
  }

  lemma CountsAfterReply(outbox: seq<OutRow>, row: OutRow)
    ensures forall x: MsgId :: Replies(outbox + [row], x) == Replies(outbox, x) + if x == row.cause then 1 else 0
  {
    forall x: MsgId ensures Replies(outbox + [row], x) == Replies(outbox, x) + if x == row.cause then 1 else 0 {
      RepliesAppend(outbox, row, x);
    }
  }

  lemma CompleteKeepsReplies(s: State, w: WorkerId)
    requires RepliesSound(s)
    ensures RepliesSound(Complete(s, w).0)
  {
    if Complete(s, w).1.Completed? {
      var id, answer := s.workers[w].id, s.workers[w].answer;
      InsertFresh(s.outbox, answer, id);
      if Drafts(id, answer) != [] {
        CountsAfterReply(s.outbox, OutRow(Drafts(id, answer)[0].key, Drafts(id, answer)[0].text, id, 0));
      }
    }
  }

  lemma ClaimKeepsReplies(s: State, w: WorkerId, id: MsgId, content: Content, leaseMs: nat)
    requires RepliesSound(s)
    ensures RepliesSound(ClaimIncoming(s, w, id, content, leaseMs).0)
  {
    if id !in s.inbox {
      RepliesPositive(s.outbox, id);
    }
  }

  lemma FailKeepsReplies(s: State, id: MsgId)
    requires RepliesSound(s)
    ensures RepliesSound(FailIncoming(s, id))
  {
  }

  lemma StepKeepsReplies(s: State, e: Event)
    requires RepliesSound(s)
    ensures RepliesSound(Next(s, e))
  {
    match e
    case DoComplete(w) => CompleteKeepsReplies(s, w);
    case DoClaim(w, id, content, leaseMs) => ClaimKeepsReplies(s, w, id, content, leaseMs);
    case Throw(w) =>
      if w in s.workers {
        FailKeepsReplies(s, s.workers[w].id);
        SameReplies(FailIncoming(s, s.workers[w].id), Next(s, e));
      }
    case _ => SameReplies(s, Next(s, e));
  }

  lemma SameReplies(s: State, t: State)
    requires RepliesSound(s) && t.inbox == s.inbox && t.outbox == s.outbox
    ensures RepliesSound(t)
  {
  }

  // ----- Claims pay for handler runs -----

  lemma ClaimantsWithout(workers: map<WorkerId, Work>, w: WorkerId, id: MsgId)
    ensures |Claimants(workers - {w}, id)| <= |Claimants(workers, id)|
  {
    assert Claimants(workers - {w}, id) == Claimants(workers, id) - {w};
    OneWorker(Claimants(workers, id), w);
  }

  lemma ClaimantsWith(workers: map<WorkerId, Work>, w: WorkerId, work: Work, id: MsgId)
    ensures |Claimants(workers[w := work], id)| <= |Claimants(workers, id)| + (if work == Claimed(id) then 1 else 0)
    ensures work != Claimed(id) && w in workers && workers[w] == Claimed(id) ==>
              |Claimants(workers[w := work], id)| == |Claimants(workers, id)| - 1
  {
    assert Claimants(workers[w := work], id) ==
           if work == Claimed(id) then Claimants(workers, id) + {w} else Claimants(workers, id) - {w};
    OneWorker(Claimants(workers, id), w);
  }

  lemma OneWorker(a: set<WorkerId>, w: WorkerId)
    ensures |a + {w}| <= |a| + 1 && |a - {w}| <= |a|
    ensures w in a ==> |a - {w}| == |a| - 1
  {
    if w in a {
      assert a + {w} == a;
    } else {
      assert a - {w} == a;
    }
  }

  lemma AnsweringKeepsAttempts(s: State, w: WorkerId, answer: Answer)
    requires AttemptsSound(s) && w in s.workers && s.workers[w].Claimed? && s.workers[w].id in s.inbox
    ensures AttemptsSound(Answering(s, w, s.workers[w].id, answer))
  {
    var id := s.workers[w].id;
    var t := Answering(s, w, id, answer);
    forall x | x in t.inbox ensures |Claimants(t.workers, x)| + Handles(t.handled, x) <= t.inbox[x].attempts {
      HandlesAppend(s.handled, Attempt(id, answer), x);
      ClaimantsWith(s.workers, w, Answered(id, answer), x);
    }
  }

  lemma LeaveKeepsAttempts(s: State, t: State, w: WorkerId)
    requires AttemptsSound(s) && t.workers == s.workers - {w} && t.handled == s.handled
    requires t.inbox.Keys == s.inbox.Keys && forall id :: id in s.inbox ==> t.inbox[id].attempts == s.inbox[id].attempts
    ensures AttemptsSound(t)
  {
    forall x | x in t.inbox ensures |Claimants(t.workers, x)| + Handles(t.handled, x) <= t.inbox[x].attempts {
      ClaimantsWithout(s.workers, w, x);
      assert x in s.inbox;
    }
  }

  lemma {:induction false} NoAttemptNoHandle(handled: seq<Attempt>, id: MsgId)
    requires forall a :: a in handled ==> a.id != id
    ensures Handles(handled, id) == 0
  {
    if handled != [] {
      NoAttemptNoHandle(handled[..|handled| - 1], id);
    }
  }

  lemma ClaimKeepsAttempts(s: State, w: WorkerId, id: MsgId, content: Content, leaseMs: nat)
    requires AttemptsSound(s) && WorkersSound(s)
    ensures AttemptsSound(ClaimIncoming(s, w, id, content, leaseMs).0)
  {
    var t := ClaimIncoming(s, w, id, content, leaseMs).0;
    if t != s {
      ClaimShape(s, w, id, content, leaseMs);
      forall x | x in t.inbox ensures |Claimants(t.workers, x)| + Handles(t.handled, x) <= t.inbox[x].attempts {
        ClaimantsWith(s.workers, w, Claimed(id), x);
        if x !in s.inbox {
          NoAttemptNoHandle(s.handled, x);
          NoClaimant(s, x);
        }
      }
    }
  }

  lemma ClaimShape(s: State, w: WorkerId, id: MsgId, content: Content, leaseMs: nat)
    requires ClaimIncoming(s, w, id, content, leaseMs).0 != s
    ensures var t := ClaimIncoming(s, w, id, content, leaseMs).0;
            && t.workers == s.workers[w := Claimed(id)] && t.handled == s.handled
            && t.inbox.Keys == s.inbox.Keys + {id}
            && (forall x :: x in s.inbox ==> t.inbox[x].attempts == s.inbox[x].attempts + if x == id then 1 else 0)
            && (id !in s.inbox ==> t.inbox[id].attempts == 1)
  {
  }

  lemma NoClaimant(s: State, id: MsgId)
    requires WorkersSound(s) && id !in s.inbox
    ensures Claimants(s.workers, id) == {}
  {
    forall w | w in s.workers ensures s.workers[w] != Claimed(id) {
      assert WorkSound(s, s.workers[w]);
    }
  }

  lemma CompleteLeaves(s: State, w: WorkerId)
    requires AttemptsSound(s) && w in s.workers && s.workers[w].Answered?
    ensures AttemptsSound(Complete(s, w).0)
  {
    LeaveKeepsAttempts(s, Complete(s, w).0, w);
  }

  lemma StepKeepsAttempts(s: State, e: Event)
    requires AttemptsSound(s) && WorkersSound(s)
    ensures AttemptsSound(Next(s, e))
  {
    match e
    case DoClaim(w, id, content, leaseMs) => ClaimKeepsAttempts(s, w, id, content, leaseMs);
    case DoHandle(w) =>
      if Handle(s, w).1.Handled? {
        var t := Handle(s, w).0;
        AnsweringKeepsAttempts(s, w, t.workers[w].answer);
      }
    case DoLimit(w) =>
      if Limit(s, w).1.Handled? {
        AnsweringKeepsAttempts(s, w, Friendly(RateLimited));
      }
    case DoComplete(w) =>
      if w in s.workers && s.workers[w].Answered? {
        CompleteLeaves(s, w);
      }
    case Throw(w) =>
      if w in s.workers {
        LeaveKeepsAttempts(s, Next(s, e), w);
      }
    case Crash(w) => LeaveKeepsAttempts(s, Next(s, e), w);
    case _ =>
  }

  // ----- The invariant along every run -----

  lemma StepKeepsInv(opening: map<Account, nat>, s: State, e: Event)
    requires Inv(opening, s)
    ensures Inv(opening, Next(s, e))
  {
    StepKeepsRows(opening, s, e);
    StepKeepsWorkers(s, e);
    StepKeepsProcessed(s, e);
    StepKeepsReplies(s, e);
    StepKeepsAttempts(s, e);
  }

  lemma {:induction false} RunKeepsInv(opening: map<Account, nat>, s: State, es: seq<Event>)
    requires Inv(opening, s)
    ensures Inv(opening, Run(s, es))
    decreases |es|
  {
    if es != [] {
      StepKeepsInv(opening, s, es[0]);
      RunKeepsInv(opening, Next(s, es[0]), es[1..]);
    }
  }

  ghost predicate Reachable(opening: map<Account, nat>, s: State) {
    && (forall a :: a in opening ==> opening[a] <= BIGINT_MAX)
    && exists es :: s == Run(Initial(opening), es)
  }

  lemma ReachableInv(opening: map<Account, nat>, s: State)
    requires Reachable(opening, s)
    ensures Inv(opening, s)
  {
    var es :| s == Run(Initial(opening), es);
    RunKeepsInv(opening, Initial(opening), es);
  }

  // ----- Main results -----

  // However often a message is delivered, claimed, abandoned and reclaimed, it has at most one
  // ledger row and at most one reply.
  lemma EffectAtMostOnce(opening: map<Account, nat>, s: State, id: MsgId)
    requires Reachable(opening, s)
    ensures forall i, j :: 0 <= i < j < |s.book.rows| ==>
              !(s.book.rows[i].key == Message(id) && s.book.rows[j].key == Message(id))
    ensures Replies(s.outbox, id) <= 1
  {
    ReachableInv(opening, s);
    forall i, j | 0 <= i < j < |s.book.rows| && s.book.rows[i].key == Message(id)
      ensures s.book.rows[j].key != Message(id)
    {
      assert RowFromMessage(s, s.book.rows[i]) && RowFromMessage(s, s.book.rows[j]);
      assert RowAt(opening, s.book.rows, i) && RowAt(opening, s.book.rows, j);
    }
    if id !in s.inbox {
      RepliesPositive(s.outbox, id);
    }
  }

  // Row i is the message's own credit and left the given balance.
  ghost predicate CreditedBy(opening: map<Account, nat>, s: State, id: MsgId, balance: nat, i: nat) {
    && i < |s.book.rows|
    && s.book.rows[i].key == Message(id)
    && balance == Balance(opening, s.book.rows[i].account) + Sum(s.book.rows[..i + 1], s.book.rows[i].account)
  }

  // A message processed by a crediting handler has exactly one ledger row and exactly one reply,
  // and the reply reports the balance of that original credit.
  lemma ProcessedExactlyOnce(opening: map<Account, nat>, s: State, id: MsgId)
    requires Reachable(opening, s) && id in s.inbox
    requires s.inbox[id].status.Processed? && s.inbox[id].status.answer.Credited?
    ensures exists i :: CreditedBy(opening, s, id, s.inbox[id].status.answer.balance, i)
    ensures Replies(s.outbox, id) == 1
    ensures forall r :: r in s.outbox && r.cause == id ==> r.text == BalanceText(s.inbox[id].status.answer.balance)
  {
    ReachableInv(opening, s);
    var content := s.inbox[id].content;
    var row := LedgerRow(s.book.rows, id, content).value;
    FindExact(s.book.rows, ScopeOf(content.account, content.amount), Message(id));
    var i :| 0 <= i < |s.book.rows| && s.book.rows[i] == row;
    assert RowAt(opening, s.book.rows, i);
    assert CreditedBy(opening, s, id, s.inbox[id].status.answer.balance, i);
  }

  // PROCESSED is final: no later step changes the result, and a duplicate only replays it.
  lemma ProcessedIsFinal(s: State, es: seq<Event>, id: MsgId, w: WorkerId, content: Content, leaseMs: nat)
    requires id in s.inbox && s.inbox[id].status.Processed?
    ensures var t := Run(s, es);
            && id in t.inbox && t.inbox[id].status == s.inbox[id].status
            && (w !in t.workers ==>
                  ClaimIncoming(t, w, id, content, leaseMs) ==
                    (t, if content == s.inbox[id].content then Replay(s.inbox[id].status.answer) else FingerprintDrift))
  {
    RunEvolves(s, es);
  }

  // The handler had its effect at most once per claim; so a message that was claimed only once and
  // is processed had it exactly once, key or no key, and an error answer then means no effect.
  lemma OneClaimOneEffect(opening: map<Account, nat>, s: State, id: MsgId)
    requires Reachable(opening, s) && id in s.inbox
    ensures Effects(s.handled, id) <= s.inbox[id].attempts
    ensures s.inbox[id].attempts == 1 && s.inbox[id].status.Processed? ==>
              && Effects(s.handled, id) == (if s.inbox[id].status.answer.Friendly? then 0 else 1)
              && (s.inbox[id].status.answer.Friendly? ==> forall row :: row in s.book.rows ==> row.key != Message(id))
  {
    ReachableInv(opening, s);
    EffectsAreHandles(s.handled, id);
    if s.inbox[id].status.Processed? {
      AttemptHandled(s.handled, Attempt(id, s.inbox[id].status.answer));
      if s.inbox[id].status.answer.Friendly? && s.inbox[id].attempts == 1 {
        forall i | 0 <= i < |s.book.rows| ensures s.book.rows[i].key != Message(id) {
          assert RowFromMessage(s, s.book.rows[i]);
        }
      }
    }
  }
}
