/** Recovery of an interrupted message, and the two runs that show what the inbox does not promise. */
module InboxRuns {
  import opened Wrappers
  import opened Economy
  import opened Inbox
  import opened InboxSafety
  import opened InboxExact

  // One uninterrupted delivery: claim, handler, completion.
  function Deliver(s: State, w: WorkerId, id: MsgId, content: Content, leaseMs: nat): State {
    Next(Next(Next(s, DoClaim(w, id, content, leaseMs)), DoHandle(w)), DoComplete(w))
  }

  // The message is processed after one more attempt; a credit already in the ledger is answered with its
  // original balance and not repeated, whatever row the delivery adds is the message's only one.
  ghost predicate Delivered(s: State, t: State, id: MsgId) {
    && id in s.inbox && id in t.inbox && t.inbox[id].status.Processed?
    && t.inbox[id].content == s.inbox[id].content && t.inbox[id].attempts == s.inbox[id].attempts + 1
    && (forall i :: 0 <= i < |s.book.rows| && s.book.rows[i].key == Message(id) ==>
          t.book == s.book && t.inbox[id].status.answer == Credited(s.book.rows[i].balanceAfter))
    && (forall i, j :: 0 <= i < j < |t.book.rows| ==> !(t.book.rows[i].key == Message(id) && t.book.rows[j].key == Message(id)))
  }

  lemma RedeliveryAt(opening: map<Account, nat>, s: State, id: MsgId, w: WorkerId, leaseMs: nat)
    requires Inv(opening, s) && id in s.inbox && Grants(s, w, id, s.inbox[id].content, leaseMs)
    ensures Delivered(s, Deliver(s, w, id, s.inbox[id].content, leaseMs), id)
  {
    var content := s.inbox[id].content;
    var s1 := Next(s, DoClaim(w, id, content, leaseMs));
    StepKeepsInv(opening, s, DoClaim(w, id, content, leaseMs));
    assert s1.workers[w] == Claimed(id) && s1.book == s.book && s1.inbox[id].status.Processing?;
    HandleThenComplete(opening, s1, id, w);
    var s2 := Next(s1, DoHandle(w));
    StepKeepsInv(opening, s1, DoHandle(w));
    forall i | 0 <= i < |s.book.rows| && s.book.rows[i].key == Message(id)
      ensures s2.book == s.book && s2.workers[w] == Answered(id, Credited(s.book.rows[i].balanceAfter))
    {
      CreditedBefore(opening, s1, id, w, i);
    }
    OneRowEach(opening, s2, id);
  }

  lemma CreditedBefore(opening: map<Account, nat>, s: State, id: MsgId, w: WorkerId, i: nat)
    requires Inv(opening, s) && id in s.inbox && w in s.workers && s.workers[w] == Claimed(id)
    requires i < |s.book.rows| && s.book.rows[i].key == Message(id)
    ensures var t := Next(s, DoHandle(w));
            t.book == s.book && w in t.workers && t.workers[w] == Answered(id, Credited(s.book.rows[i].balanceAfter))
  {
    assert RowFromMessage(s, s.book.rows[i]) && RowAt(opening, s.book.rows, i);
    FindUnique(s.book.rows, i);
    assert SameRequest(s.book.rows[i], CreditRequest(id, s.inbox[id].content));
  }

  lemma OneRowEach(opening: map<Account, nat>, s: State, id: MsgId)
    requires Inv(opening, s)
    ensures forall i, j :: 0 <= i < j < |s.book.rows| ==> !(s.book.rows[i].key == Message(id) && s.book.rows[j].key == Message(id))
  {
    forall i, j | 0 <= i < j < |s.book.rows| && s.book.rows[i].key == Message(id) ensures s.book.rows[j].key != Message(id) {
      assert RowFromMessage(s, s.book.rows[i]) && RowFromMessage(s, s.book.rows[j]);
      assert RowAt(opening, s.book.rows, i) && RowAt(opening, s.book.rows, j);
    }
  }

  // Whatever happened before, a message whose last attempt failed or outlived its lease is
  // processed by one more uninterrupted delivery; a credit already in the ledger is not repeated.
  lemma RedeliveryConverges(opening: map<Account, nat>, s: State, id: MsgId, w: WorkerId, leaseMs: nat)
    requires Reachable(opening, s) && id in s.inbox && w !in s.workers
    requires s.inbox[id].status.Failed? || (s.inbox[id].status.Processing? && s.now >= s.inbox[id].startedAt + leaseMs)
    ensures Delivered(s, Deliver(s, w, id, s.inbox[id].content, leaseMs), id)
  {
    ReachableInv(opening, s);
    RedeliveryAt(opening, s, id, w, leaseMs);
  }

  // A handler that throws gives its message back at once: at the same time and for every lease any idle
  // worker, its own included, is granted it, and that delivery processes it without a second credit.
  lemma ThrownIsRedelivered(opening: map<Account, nat>, s: State, w: WorkerId, id: MsgId, v: WorkerId, leaseMs: nat)
    requires Reachable(opening, s) && w in s.workers && s.workers[w].id == id
    requires id in s.inbox && s.inbox[id].status.Processing? && (v == w || v !in s.workers)
    ensures var t := Next(s, Throw(w));
            && t.now == s.now && t.book == s.book && t.outbox == s.outbox
            && Grants(t, v, id, s.inbox[id].content, leaseMs)
            && id in t.inbox && t.inbox[id].attempts == s.inbox[id].attempts
            && Delivered(t, Deliver(t, v, id, s.inbox[id].content, leaseMs), id)
  {
    ReachableInv(opening, s);
    StepKeepsInv(opening, s, Throw(w));
    RedeliveryAt(opening, Next(s, Throw(w)), id, v, leaseMs);
  }

  // A crash, in contrast, keeps the message from everybody until its lease is over.
  lemma CrashedWaitsForLease(s: State, w: WorkerId, id: MsgId, v: WorkerId, ms: nat, leaseMs: nat)
    requires id in s.inbox && s.inbox[id].status.Processing? && v !in s.workers - {w}
    ensures var t := Next(Next(s, Crash(w)), Tick(ms));
            Grants(t, v, id, s.inbox[id].content, leaseMs) <==> s.now + ms >= s.inbox[id].startedAt + leaseMs
  {
  }

  // ----- What a processed message was answered -----

  // Exactly one reply with the credited balance, or one with the error, or none, and it names its message.
  ghost predicate RepliedAs(s: State, id: MsgId, answer: Answer) {
    match answer
    case Credited(balance) =>
      Replies(s.outbox, id) == 1 && forall r :: r in s.outbox && r.cause == id ==> r.key == ReplyKey(id) && r.text == BalanceText(balance)
    case Friendly(code) =>
      Replies(s.outbox, id) == 1 && forall r :: r in s.outbox && r.cause == id ==> r.key == ErrorKey(id, code) && r.text == ErrorText(code)
    case _ => Replies(s.outbox, id) == 0
  }

  lemma ProcessedIsAnswered(opening: map<Account, nat>, s: State, id: MsgId)
    requires Reachable(opening, s) && id in s.inbox && s.inbox[id].status.Processed?
    ensures RepliedAs(s, id, s.inbox[id].status.answer)
  {
    ReachableInv(opening, s);
    RepliesOf(s, id);
  }

  lemma RepliesOf(s: State, id: MsgId)
    requires RepliesSound(s) && id in s.inbox && s.inbox[id].status.Processed?
    ensures RepliedAs(s, id, s.inbox[id].status.answer)
  {
  }

  // A message that admission refuses is answered with that error, moves no balance and reaches no handler.
  lemma LimitedIsAnswered(opening: map<Account, nat>, s: State, w: WorkerId)
    requires Reachable(opening, s) && w in s.workers && s.workers[w].Claimed? && !Admitted(s.handled, s.workers[w].id)
    requires s.workers[w].id in s.inbox && s.inbox[s.workers[w].id].status.Processing?
    ensures var t := Next(Next(s, DoLimit(w)), DoComplete(w));
            var id := s.workers[w].id;
            && t.book == s.book && t.loose == s.loose && Effects(t.handled, id) == Effects(s.handled, id)
            && id in t.inbox && t.inbox[id].status == Processed(Friendly(RateLimited))
            && RepliedAs(t, id, Friendly(RateLimited))
  {
    ReachableInv(opening, s);
    LimitAnswers(s, w);
    CompleteAnswered(Next(s, DoLimit(w)), s.workers[w].id, w);
    RepliesOf(Next(Next(s, DoLimit(w)), DoComplete(w)), s.workers[w].id);
  }

  lemma LimitAnswers(s: State, w: WorkerId)
    requires RepliesSound(s) && w in s.workers && s.workers[w].Claimed? && !Admitted(s.handled, s.workers[w].id) && s.workers[w].id in s.inbox
    ensures var t := Next(s, DoLimit(w));
            && w in t.workers && t.workers[w] == Answered(s.workers[w].id, Friendly(RateLimited))
            && t.inbox == s.inbox && t.book == s.book && t.loose == s.loose && RepliesSound(t)
            && Effects(t.handled, s.workers[w].id) == Effects(s.handled, s.workers[w].id)
  {
    HandlesAppend(s.handled, Attempt(s.workers[w].id, Friendly(RateLimited)), s.workers[w].id);
    SameReplies(s, Next(s, DoLimit(w)));
  }

  lemma HandleThenComplete(opening: map<Account, nat>, s: State, id: MsgId, w: WorkerId)
    requires Inv(opening, s) && id in s.inbox && w in s.workers && s.workers[w] == Claimed(id)
    requires s.inbox[id].status.Processing?
    ensures var s1 := Next(s, DoHandle(w));
            var t := Next(s1, DoComplete(w));
            && w in s1.workers && s1.workers[w].Answered?
            && t.inbox == s.inbox[id := s.inbox[id].(status := Processed(s1.workers[w].answer))]
            && t.book == s1.book
  {
    var s1 := Next(s, DoHandle(w));
    StepKeepsReplies(s, DoHandle(w));
    HandleAnswers(s, id, w);
    CompleteAnswered(s1, id, w);
  }

  lemma HandleAnswers(s: State, id: MsgId, w: WorkerId)
    requires id in s.inbox && w in s.workers && s.workers[w] == Claimed(id)
    ensures var t := Next(s, DoHandle(w));
            w in t.workers && t.workers[w].Answered? && t.workers[w].id == id && t.inbox == s.inbox
  {
  }

  lemma CompleteAnswered(s: State, id: MsgId, w: WorkerId)
    requires RepliesSound(s) && id in s.inbox && s.inbox[id].status.Processing?
    requires w in s.workers && s.workers[w].Answered? && s.workers[w].id == id
    ensures var t := Next(s, DoComplete(w));
            && t.inbox == s.inbox[id := s.inbox[id].(status := Processed(s.workers[w].answer))]
            && t.book == s.book && t.loose == s.loose && t.handled == s.handled && RepliesSound(t)
  {
    StepKeepsReplies(s, DoComplete(w));
    InsertFresh(s.outbox, s.workers[w].answer, id);
  }

  // ----- The run in which an unkeyed effect doubles -----

  const COIN := Wallet(1, 1)
  const LEASE_MS := 30_000

  lemma Unfold3(s: State, a: Event, b: Event, c: Event, rest: seq<Event>)
    ensures Run(s, [a, b, c] + rest) == Run(Next(Next(Next(s, a), b), c), rest)
  {
    assert ([a, b, c] + rest)[1..] == [b, c] + rest && ([b, c] + rest)[1..] == [c] + rest && ([c] + rest)[1..] == rest;
    assert Run(s, [a, b, c] + rest) == Run(Next(s, a), [b, c] + rest);
    assert Run(Next(s, a), [b, c] + rest) == Run(Next(Next(s, a), b), [c] + rest);
  }

  lemma Unfold1(s: State, a: Event)
    ensures Run(s, [a]) == Next(s, a)
  {
    assert [a][1..] == [];
  }

  // The worker's process dies between the upsert's commit and the inbox completion.
  const DOUBLE_BUMP := [DoClaim(1, 0, Bump(COIN), LEASE_MS), DoHandle(1), Crash(1)]
                       + ([Tick(LEASE_MS), DoClaim(2, 0, Bump(COIN), LEASE_MS), DoHandle(2)] + [DoComplete(2)])

  const BUMPED := Attempt(0, Bumped)

  function AfterCrash(): State {
    Initial(map[]).(inbox := map[0 := InboxRow(Bump(COIN), Processing, 1, 0)], loose := map[COIN := 13], handled := [BUMPED])
  }

  function AfterSecond(): State {
    Initial(map[]).(inbox := map[0 := InboxRow(Bump(COIN), Processing, 2, LEASE_MS)], loose := map[COIN := 26],
                    handled := [BUMPED, BUMPED], workers := map[2 := Answered(0, Bumped)], now := LEASE_MS)
  }

  lemma FirstBump()
    ensures Next(Next(Next(Initial(map[]), DOUBLE_BUMP[0]), DOUBLE_BUMP[1]), DOUBLE_BUMP[2]) == AfterCrash()
  {
  }

  lemma SecondBump()
    ensures Next(Next(Next(AfterCrash(), DOUBLE_BUMP[3]), DOUBLE_BUMP[4]), DOUBLE_BUMP[5]) == AfterSecond()
  {
  }

  lemma UnkeyedEffectDoubles()
    ensures var t := Run(Initial(map[]), DOUBLE_BUMP);
            && 0 in t.inbox && t.inbox[0] == InboxRow(Bump(COIN), Processed(Bumped), 2, LEASE_MS)
            && t.loose == map[COIN := 26]
            && Effects(t.handled, 0) == 2
  {
    Unfold3(Initial(map[]), DOUBLE_BUMP[0], DOUBLE_BUMP[1], DOUBLE_BUMP[2], DOUBLE_BUMP[3..]);
    FirstBump();
    Unfold3(AfterCrash(), DOUBLE_BUMP[3], DOUBLE_BUMP[4], DOUBLE_BUMP[5], [DoComplete(2)]);
    assert DOUBLE_BUMP[3..] == [DOUBLE_BUMP[3], DOUBLE_BUMP[4], DOUBLE_BUMP[5]] + [DoComplete(2)];
    SecondBump();
    Unfold1(AfterSecond(), DoComplete(2));
    assert [BUMPED, BUMPED][..1] == [BUMPED] && [BUMPED][..0] == [];
    assert Effects([BUMPED], 0) == 1;
  }

  // ----- The run in which an error reply stands beside an effect -----

  // Worker 1 outlives its lease; worker 2 answers "balance overflow"; the balance then drops and
  // worker 1, still alive, commits the credit that nobody will report.
  const LATE_CREDIT := [DoClaim(1, 0, Credit(COIN, 10), LEASE_MS), Tick(LEASE_MS), DoClaim(2, 0, Credit(COIN, 10), LEASE_MS)]
                       + ([DoHandle(2), DoComplete(2), Intervene(COIN, -20, 5)] + [DoHandle(1)])

  const SPENT := Row(WalletDebit, Gameplay(5), COIN, -20, 0, BIGINT_MAX - 20)
  const LATE := Row(WalletCredit, Message(0), COIN, 10, 0, BIGINT_MAX - 10)

  function Overflowed(): Answer { Friendly(ErrorCode.Economy(BalanceOverflow)) }

  lemma ErrorReplyBesideEffect()
    ensures var t := Run(Initial(map[COIN := BIGINT_MAX]), LATE_CREDIT);
            && 0 in t.inbox && t.inbox[0].status == Processed(Overflowed()) && t.inbox[0].attempts == 2
            && t.outbox == [OutRow(ErrorKey(0, ErrorCode.Economy(BalanceOverflow)), ErrorText(ErrorCode.Economy(BalanceOverflow)), 0, 0)]
            && t.book.rows == [SPENT, LATE]
  {
    var s := Initial(map[COIN := BIGINT_MAX]);
    var row := InboxRow(Credit(COIN, 10), Processing, 2, LEASE_MS);
    var s3 := s.(inbox := map[0 := row], workers := map[1 := Claimed(0), 2 := Claimed(0)], now := LEASE_MS);
    var out := OutRow(ErrorKey(0, ErrorCode.Economy(BalanceOverflow)), ErrorText(ErrorCode.Economy(BalanceOverflow)), 0, 0);
    var s6 := s3.(inbox := map[0 := row.(status := Processed(Overflowed()))], workers := map[1 := Claimed(0)],
                  outbox := [out], handled := [Attempt(0, Overflowed())],
                  book := Book(map[COIN := BIGINT_MAX - 20], [SPENT]));
    Unfold3(s, LATE_CREDIT[0], LATE_CREDIT[1], LATE_CREDIT[2], LATE_CREDIT[3..]);
    LateClaims(s, s3);
    assert LATE_CREDIT[3..] == [LATE_CREDIT[3], LATE_CREDIT[4], LATE_CREDIT[5]] + [DoHandle(1)];
    Unfold3(s3, LATE_CREDIT[3], LATE_CREDIT[4], LATE_CREDIT[5], [DoHandle(1)]);
    LateRefusal(s3, s6);
    Unfold1(s6, DoHandle(1));
    LateEffect(s6);
  }

  lemma LateClaims(s: State, s3: State)
    requires s == Initial(map[COIN := BIGINT_MAX])
    requires s3 == s.(inbox := map[0 := InboxRow(Credit(COIN, 10), Processing, 2, LEASE_MS)],
                      workers := map[1 := Claimed(0), 2 := Claimed(0)], now := LEASE_MS)
    ensures Next(Next(Next(s, LATE_CREDIT[0]), LATE_CREDIT[1]), LATE_CREDIT[2]) == s3
  {
  }

  lemma LateRefusal(s: State, t: State)
    requires s.inbox == map[0 := InboxRow(Credit(COIN, 10), Processing, 2, LEASE_MS)]
    requires s.workers == map[1 := Claimed(0), 2 := Claimed(0)] && s.outbox == [] && s.handled == []
    requires s.book == Book(map[COIN := BIGINT_MAX], [])
    requires t == s.(inbox := map[0 := InboxRow(Credit(COIN, 10), Processed(Overflowed()), 2, LEASE_MS)],
                     workers := map[1 := Claimed(0)], handled := [Attempt(0, Overflowed())],
                     outbox := [OutRow(ErrorKey(0, ErrorCode.Economy(BalanceOverflow)), ErrorText(ErrorCode.Economy(BalanceOverflow)), 0, 0)],
                     book := Book(map[COIN := BIGINT_MAX - 20], [SPENT]))
    ensures Next(Next(Next(s, DoHandle(2)), DoComplete(2)), Intervene(COIN, -20, 5)) == t
  {
    var s1 := s.(workers := map[1 := Claimed(0), 2 := Answered(0, Overflowed())], handled := [Attempt(0, Overflowed())]);
    assert Next(s, DoHandle(2)) == s1;
    InsertFresh(s1.outbox, Overflowed(), 0);
    var s2 := t.(book := s.book);
    assert Next(s1, DoComplete(2)) == s2;
  }

  lemma LateEffect(s: State)
    requires s.workers == map[1 := Claimed(0)] && 0 in s.inbox && s.inbox[0].content == Credit(COIN, 10)
    requires s.book == Book(map[COIN := BIGINT_MAX - 20], [SPENT])
    ensures var t := Next(s, DoHandle(1)); t.book.rows == [SPENT, LATE] && t.inbox == s.inbox && t.outbox == s.outbox
  {
    assert [SPENT][1..] == [] && Find([SPENT], WalletCredit, Message(0)) == None;
    assert Mutate(s.book, CreditRequest(0, Credit(COIN, 10))).0.rows == [SPENT] + [LATE];
  }
}
