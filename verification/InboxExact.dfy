/** Exactly when the inbox keeps what it does not promise: a single effect of a handler without an
  * idempotency key, and no effect behind an error reply.
  */
module InboxExact {
  import opened Wrappers
  import opened Economy
  import opened Inbox
  import opened InboxSafety

  // ----- Handlers without a key -----

  // The worker has had the unkeyed effect and not yet marked the message.
  predicate Bumping(s: State, w: WorkerId, id: MsgId) {
    w in s.workers && s.workers[w] == Answered(id, Bumped)
  }

  // The tables or a live worker show that the effect has happened.
  ghost predicate Visible(s: State, id: MsgId) {
    Done(s, id) || exists w :: Bumping(s, w, id)
  }

  // An effect loses its trace: its worker dies, fails the message, or finds it no longer PROCESSING.
  predicate Abandons(s: State, e: Event, id: MsgId) {
    || ((e.Crash? || e.Throw?) && Bumping(s, e.w, id))
    || (e.DoComplete? && Bumping(s, e.w, id) && !(id in s.inbox && s.inbox[id].status.Processing?))
  }

  // A claimant reaches the handler after an abandoned effect, beside a worker that has had it, or after
  // the message was processed.
  ghost predicate BumpsAgain(s: State, e: Event, id: MsgId, abandoned: bool) {
    Handling(s, e, id) && (abandoned || Visible(s, id))
  }

  ghost predicate EverBumpsAgain(s: State, es: seq<Event>, id: MsgId, abandoned: bool)
    decreases |es|
  {
    es != [] && (BumpsAgain(s, es[0], id, abandoned) || EverBumpsAgain(Next(s, es[0]), es[1..], id, abandoned || Abandons(s, es[0], id)))
  }

  // Every effect is visible or was abandoned.
  ghost predicate EffectKnown(s: State, id: MsgId, abandoned: bool) {
    Effects(s.handled, id) > 0 <==> abandoned || Visible(s, id)
  }

  lemma EffectsStep(s: State, e: Event, id: MsgId)
    requires id in s.inbox ==> s.inbox[id].content.Bump?
    ensures var more := e.DoHandle? && Handle(s, e.w).1.Handled? && s.workers[e.w].id == id;
            Effects(Next(s, e).handled, id) == Effects(s.handled, id) + if more then 1 else 0
  {
    if e.DoHandle? && Handle(s, e.w).1.Handled? {
      var a := Handle(s, e.w).0.handled[|s.handled|];
      HandlesAppend(s.handled, a, id);
    } else if e.DoLimit? && Limit(s, e.w).1.Handled? {
      HandlesAppend(s.handled, Attempt(s.workers[e.w].id, Friendly(RateLimited)), id);
    }
  }

  // The event runs the handler of the message for a claimant.
  predicate Handling(s: State, e: Event, id: MsgId) {
    e.DoHandle? && e.w in s.workers && s.workers[e.w] == Claimed(id) && id in s.inbox
  }

  lemma BumpingStep(s: State, e: Event, w: WorkerId, id: MsgId)
    requires id in s.inbox ==> s.inbox[id].content.Bump?
    ensures Bumping(Next(s, e), w, id) <==>
              || (Bumping(s, w, id) && !((e.Crash? || e.Throw? || e.DoComplete?) && e.w == w))
              || (Handling(s, e, id) && e.w == w)
  {
  }

  predicate Done(s: State, id: MsgId) { id in s.inbox && s.inbox[id].status == Processed(Bumped) }

  lemma DoneStep(s: State, e: Event, id: MsgId)
    ensures Done(Next(s, e), id) <==>
              Done(s, id) || (e.DoComplete? && Bumping(s, e.w, id) && id in s.inbox && s.inbox[id].status.Processing?)
  {
    if e.DoComplete? && Bumping(s, e.w, id) {
      assert InsertDrafts(s.outbox, Drafts(id, Bumped), id, 0) == Some(s.outbox);
    }
  }

  lemma VisibleStep(s: State, e: Event, id: MsgId)
    requires id in s.inbox ==> s.inbox[id].content.Bump?
    ensures Visible(Next(s, e), id) ==> Visible(s, id) || Handling(s, e, id)
    ensures Visible(s, id) ==> Visible(Next(s, e), id) || Abandons(s, e, id)
    ensures Handling(s, e, id) ==> Visible(Next(s, e), id)
  {
    var t := Next(s, e);
    DoneStep(s, e, id);
    forall w: WorkerId
      ensures Bumping(t, w, id) <==>
                || (Bumping(s, w, id) && !((e.Crash? || e.Throw? || e.DoComplete?) && e.w == w))
                || (Handling(s, e, id) && e.w == w)
    {
      BumpingStep(s, e, w, id);
    }
    if Handling(s, e, id) {
      assert Bumping(t, e.w, id);
    }
    if exists w :: Bumping(s, w, id) {
      var w :| Bumping(s, w, id);
      assert Bumping(t, w, id) || ((e.Crash? || e.Throw? || e.DoComplete?) && e.w == w);
    }
  }

  lemma KnownStep(s: State, e: Event, id: MsgId, abandoned: bool)
    requires EffectKnown(s, id, abandoned)
    requires id in s.inbox ==> s.inbox[id].content.Bump?
    ensures EffectKnown(Next(s, e), id, abandoned || Abandons(s, e, id))
    ensures Effects(Next(s, e).handled, id) == Effects(s.handled, id)
            || (Effects(Next(s, e).handled, id) == Effects(s.handled, id) + 1 && Handling(s, e, id))
    ensures BumpsAgain(s, e, id, abandoned) ==> Effects(Next(s, e).handled, id) == Effects(s.handled, id) + 1
  {
    VisibleStep(s, e, id);
    EffectsStep(s, e, id);
  }

  // Over whole runs: the unkeyed effect happens at most once if and only if no claimant reaches the
  // handler after an abandoned effect, beside a worker that has had it, or after completion.
  lemma {:induction false} UnkeyedOnceIff(s: State, es: seq<Event>, id: MsgId, abandoned: bool)
    requires EffectKnown(s, id, abandoned) && Effects(s.handled, id) <= 1
    requires id in Run(s, es).inbox ==> Run(s, es).inbox[id].content.Bump?
    ensures Effects(Run(s, es).handled, id) <= 1 <==> !EverBumpsAgain(s, es, id, abandoned)
    decreases |es|
  {
    RunEvolves(s, es);
    if es != [] {
      var t := Next(s, es[0]);
      KnownStep(s, es[0], id, abandoned);
      if BumpsAgain(s, es[0], id, abandoned) {
        RunEvolves(t, es[1..]);
        EffectsGrow(t.handled, Run(t, es[1..]).handled, id);
      } else {
        UnkeyedOnceIff(t, es[1..], id, abandoned || Abandons(s, es[0], id));
      }
    }
  }

  // ----- Claims that do not overlap -----

  // When a claim is granted: a new message, or the same content with a failed or outlived attempt.
  predicate Grants(s: State, w: WorkerId, id: MsgId, content: Content, leaseMs: nat) {
    && w !in s.workers
    && (id in s.inbox ==>
          && s.inbox[id].content == content
          && (s.inbox[id].status.Failed? || (s.inbox[id].status.Processing? && s.now >= s.inbox[id].startedAt + leaseMs)))
  }

  predicate Holds(s: State, w: WorkerId, id: MsgId) {
    w in s.workers && s.workers[w].id == id
  }

  // No claim of the message is granted while another worker still holds it.
  ghost predicate FreeClaim(s: State, e: Event, id: MsgId) {
    e.DoClaim? && e.id == id && Grants(s, e.w, id, e.content, e.leaseMs) ==> forall v :: !Holds(s, v, id)
  }

  ghost predicate FreeClaims(s: State, es: seq<Event>, id: MsgId)
    decreases |es|
  {
    es == [] || (FreeClaim(s, es[0], id) && FreeClaims(Next(s, es[0]), es[1..], id))
  }

  // The message has at most one holder, and only while it is PROCESSING.
  ghost predicate Alone(s: State, id: MsgId) {
    && (forall v, w :: Holds(s, v, id) && Holds(s, w, id) ==> v == w)
    && (forall w :: Holds(s, w, id) ==> id in s.inbox && s.inbox[id].status.Processing?)
  }

  predicate Leaves(e: Event, w: WorkerId) {
    (e.DoComplete? || e.Throw? || e.Crash?) && e.w == w
  }

  lemma HolderStep(s: State, e: Event, w: WorkerId, id: MsgId)
    requires Holds(Next(s, e), w, id)
    ensures Holds(s, w, id) || (e.DoClaim? && e.w == w && e.id == id && Grants(s, w, id, e.content, e.leaseMs))
    ensures Holds(s, w, id) && Leaves(e, w) ==> e.DoComplete? && s.workers[w].Claimed?
  {
  }

  lemma ProcessingStep(s: State, e: Event, id: MsgId)
    requires id in s.inbox && s.inbox[id].status.Processing?
    ensures id in Next(s, e).inbox
    ensures Next(s, e).inbox[id].status.Processing? || (Holds(s, e.w, id) && Leaves(e, e.w) && !Holds(Next(s, e), e.w, id))
  {
  }

  lemma AloneStep(s: State, e: Event, id: MsgId)
    requires Alone(s, id) && FreeClaim(s, e, id)
    ensures Alone(Next(s, e), id)
  {
    var t := Next(s, e);
    forall w | Holds(t, w, id) ensures id in t.inbox && t.inbox[id].status.Processing? {
      HolderStep(s, e, w, id);
      if Holds(s, w, id) {
        ProcessingStep(s, e, id);
      }
    }
    forall v, w | Holds(t, v, id) && Holds(t, w, id) ensures v == w {
      HolderStep(s, e, v, id);
      HolderStep(s, e, w, id);
    }
  }

  // No worker dies or fails the message between the unkeyed effect and the completion.
  predicate KeepsEffect(s: State, e: Event, id: MsgId) {
    !((e.Crash? || e.Throw?) && Bumping(s, e.w, id))
  }

  predicate KeepsEffects(s: State, es: seq<Event>, id: MsgId)
    decreases |es|
  {
    es == [] || (KeepsEffect(s, es[0], id) && KeepsEffects(Next(s, es[0]), es[1..], id))
  }

  // A lone claimant that reaches the handler finds no trace of an effect and no error answer.
  lemma LoneHandler(s: State, e: Event, id: MsgId)
    requires Alone(s, id) && Handling(s, e, id)
    ensures !Visible(s, id) && !ErrorHeld(s, id)
  {
    assert Holds(s, e.w, id);
    forall w: WorkerId ensures !Bumping(s, w, id) && !HoldsError(s, w, id) {
      assert Holds(s, w, id) ==> w == e.w;
    }
  }

  lemma LoneKeeps(s: State, e: Event, id: MsgId)
    requires Alone(s, id) && KeepsEffect(s, e, id)
    ensures !Abandons(s, e, id)
  {
    if e.DoComplete? {
      assert Bumping(s, e.w, id) ==> Holds(s, e.w, id);
    }
  }

  lemma {:induction false} AloneNeverAgain(s: State, es: seq<Event>, id: MsgId)
    requires Alone(s, id) && FreeClaims(s, es, id) && KeepsEffects(s, es, id)
    ensures !EverBumpsAgain(s, es, id, false)
    decreases |es|
  {
    if es != [] {
      AloneStep(s, es[0], id);
      LoneKeeps(s, es[0], id);
      if Handling(s, es[0], id) {
        LoneHandler(s, es[0], id);
      }
      AloneNeverAgain(Next(s, es[0]), es[1..], id);
    }
  }

  lemma {:induction false} KnownRun(s: State, es: seq<Event>, id: MsgId)
    requires Alone(s, id) && FreeClaims(s, es, id) && KeepsEffects(s, es, id) && EffectKnown(s, id, false)
    requires id in Run(s, es).inbox ==> Run(s, es).inbox[id].content.Bump?
    ensures EffectKnown(Run(s, es), id, false)
    decreases |es|
  {
    if es != [] {
      RunEvolves(s, es);
      AloneStep(s, es[0], id);
      LoneKeeps(s, es[0], id);
      KnownStep(s, es[0], id, false);
      KnownRun(Next(s, es[0]), es[1..], id);
    }
  }

  // Without a crash or failure between the unkeyed commit and the completion, and without a reclaim of
  // a live claimant, the effect happens at most once, and exactly once when the message is processed.
  lemma UndisturbedEffectOnce(opening: map<Account, nat>, es: seq<Event>, id: MsgId)
    requires var t := Run(Initial(opening), es); id in t.inbox && t.inbox[id].content.Bump?
    requires FreeClaims(Initial(opening), es, id) && KeepsEffects(Initial(opening), es, id)
    ensures var t := Run(Initial(opening), es);
            && Effects(t.handled, id) <= 1
            && (t.inbox[id].status == Processed(Bumped) ==> Effects(t.handled, id) == 1)
  {
    var s := Initial(opening);
    AloneNeverAgain(s, es, id);
    UnkeyedOnceIff(s, es, id, false);
    KnownRun(s, es, id);
  }

  // ----- The unkeyed balance -----

  // The unkeyed effects on an account, over all messages.
  function Bumps(handled: seq<Attempt>, inbox: map<MsgId, InboxRow>, account: Account): nat {
    if handled == [] then 0
    else
      var last := handled[|handled| - 1];
      Bumps(handled[..|handled| - 1], inbox, account)
      + if last.answer.Bumped? && last.id in inbox && inbox[last.id].content == Bump(account) then 1 else 0
  }

  lemma {:induction false} BumpsStable(handled: seq<Attempt>, a: map<MsgId, InboxRow>, b: map<MsgId, InboxRow>, account: Account)
    requires forall x :: x in handled ==> x.id in a && x.id in b && a[x.id].content == b[x.id].content
    ensures Bumps(handled, a, account) == Bumps(handled, b, account)
  {
    if handled != [] {
      assert handled[|handled| - 1] in handled;
      BumpsStable(handled[..|handled| - 1], a, b, account);
    }
  }

  lemma BumpsAppend(handled: seq<Attempt>, x: Attempt, inbox: map<MsgId, InboxRow>, account: Account)
    ensures Bumps(handled + [x], inbox, account)
            == Bumps(handled, inbox, account) + if x.answer.Bumped? && x.id in inbox && inbox[x.id].content == Bump(account) then 1 else 0
  {
    assert (handled + [x])[..|handled|] == handled;
  }

  ghost predicate LooseSound(s: State, account: Account) {
    && (forall x :: x in s.handled ==> x.id in s.inbox && (x.answer.Bumped? <==> s.inbox[x.id].content.Bump? && !x.answer.Friendly?))
    && Balance(s.loose, account) == BUMP_AMOUNT * Bumps(s.handled, s.inbox, account)
  }

  // The history grows by the answer of the worker that ran, and only a bump moves an unkeyed balance.
  ghost predicate Grows(s: State, t: State, x: Attempt) {
    && t.inbox == s.inbox && t.handled == s.handled + [x] && x.id in s.inbox
    && (x.answer.Bumped? <==> s.inbox[x.id].content.Bump? && !x.answer.Friendly?)
    && t.loose == match s.inbox[x.id].content
                  case Bump(account) => if x.answer.Bumped? then s.loose[account := Balance(s.loose, account) + BUMP_AMOUNT] else s.loose
                  case _ => s.loose
  }

  lemma AnswerStep(s: State, e: Event)
    ensures var t := Next(s, e);
            || (t.handled == s.handled && t.loose == s.loose)
            || (exists x: Attempt :: Grows(s, t, x))
  {
    var t := Next(s, e);
    if t.handled != s.handled {
      if e.DoHandle? {
        assert Grows(s, t, Attempt(s.workers[e.w].id, t.workers[e.w].answer));
      } else {
        assert Grows(s, t, Attempt(s.workers[e.w].id, Friendly(RateLimited)));
      }
    }
  }

  lemma LooseGrows(s: State, t: State, x: Attempt, account: Account)
    requires LooseSound(s, account) && Grows(s, t, x)
    ensures LooseSound(t, account)
  {
    BumpsAppend(s.handled, x, s.inbox, account);
  }

  lemma LooseStep(s: State, e: Event, account: Account)
    requires LooseSound(s, account)
    ensures LooseSound(Next(s, e), account)
  {
    var t := Next(s, e);
    AnswerStep(s, e);
    if t.handled == s.handled && t.loose == s.loose {
      StepEvolves(s, e);
      BumpsStable(s.handled, s.inbox, t.inbox, account);
    } else {
      var x :| Grows(s, t, x);
      LooseGrows(s, t, x, account);
    }
  }

  lemma {:induction false} LooseRun(s: State, es: seq<Event>, account: Account)
    requires LooseSound(s, account)
    ensures LooseSound(Run(s, es), account)
    decreases |es|
  {
    if es != [] {
      LooseStep(s, es[0], account);
      LooseRun(Next(s, es[0]), es[1..], account);
    }
  }

  lemma {:induction false} BumpsAreEffects(handled: seq<Attempt>, inbox: map<MsgId, InboxRow>, id: MsgId, account: Account)
    requires id in inbox && inbox[id].content == Bump(account)
    requires forall x :: x in handled ==> x.id in inbox && (x.answer.Bumped? <==> inbox[x.id].content.Bump? && !x.answer.Friendly?)
    requires forall x :: x in handled && inbox[x.id].content == Bump(account) ==> x.id == id
    ensures Bumps(handled, inbox, account) == Effects(handled, id)
  {
    if handled != [] {
      assert handled[|handled| - 1] in handled;
      BumpsAreEffects(handled[..|handled| - 1], inbox, id, account);
    }
  }

  // In every run an unkeyed balance is thirteen times the number of unkeyed effects on it; if only one
  // message bumps the account, thirteen times the effects of that message.
  lemma LooseIsBumps(opening: map<Account, nat>, es: seq<Event>, account: Account, id: MsgId)
    ensures var t := Run(Initial(opening), es);
            && Balance(t.loose, account) == BUMP_AMOUNT * Bumps(t.handled, t.inbox, account)
            && (id in t.inbox && (forall x :: x in t.inbox && t.inbox[x].content == Bump(account) <==> x == id) ==>
                  Balance(t.loose, account) == BUMP_AMOUNT * Effects(t.handled, id))
  {
    LooseRun(Initial(opening), es, account);
    var t := Run(Initial(opening), es);
    if id in t.inbox && forall x :: x in t.inbox && t.inbox[x].content == Bump(account) <==> x == id {
      BumpsAreEffects(t.handled, t.inbox, id, account);
    }
  }

  // ----- No effect behind an error reply -----

  ghost predicate HasRow(rows: seq<Row>, id: MsgId) {
    exists k :: 0 <= k < |rows| && rows[k].key == Message(id)
  }

  // An error answer for the message is recorded, or in the hands of a live worker.
  ghost predicate ErrorHeld(s: State, id: MsgId) {
    ErrorDone(s, id) || exists w :: HoldsError(s, w, id)
  }

  // A claimant of the message reaches the owner while an error answer is held or recorded, and the
  // owner's guard lets its credit through.
  ghost predicate CreditsBesideError(s: State, e: Event, id: MsgId) {
    && Handling(s, e, id) && s.inbox[id].content.Credit?
    && ErrorHeld(s, id) && Fits(s.book, CreditRequest(id, s.inbox[id].content))
  }

  ghost predicate EverCreditsBesideError(s: State, es: seq<Event>, id: MsgId)
    decreases |es|
  {
    es != [] && (CreditsBesideError(s, es[0], id) || EverCreditsBesideError(Next(s, es[0]), es[1..], id))
  }

  ghost predicate ErrorSound(s: State, id: MsgId, beside: bool) {
    && (HasRow(s.book.rows, id) && ErrorHeld(s, id) ==> beside)
    && (beside ==> HasRow(s.book.rows, id))
  }

  lemma {:induction false} EffectMeansAdmitted(handled: seq<Attempt>, id: MsgId)
    requires Effects(handled, id) > 0
    ensures Admitted(handled, id)
  {
    var front, last := handled[..|handled| - 1], handled[|handled| - 1];
    if last.id == id && !last.answer.Friendly? {
      assert last in handled;
    } else {
      EffectMeansAdmitted(front, id);
      var a :| a in front && a.id == id && a.answer != Friendly(RateLimited);
      assert a in handled;
    }
  }

  // The owner's answer about a message with a row is its original credit; without one, its guard decides.
  lemma CreditOutcome(opening: map<Account, nat>, s: State, id: MsgId)
    requires Inv(opening, s) && id in s.inbox && s.inbox[id].content.Credit?
    ensures var m := CreditRequest(id, s.inbox[id].content);
            var (book, reply) := Mutate(s.book, m);
            && (reply.Ok? <==> HasRow(s.book.rows, id) || Fits(s.book, m))
            && (HasRow(book.rows, id) <==> reply.Ok?)
            && (HasRow(s.book.rows, id) || !reply.Ok? ==> book == s.book)
  {
    var m := CreditRequest(id, s.inbox[id].content);
    if HasRow(s.book.rows, id) {
      var k :| 0 <= k < |s.book.rows| && s.book.rows[k].key == Message(id);
      assert RowFromMessage(s, s.book.rows[k]) && RowAt(opening, s.book.rows, k);
      FindUnique(s.book.rows, k);
    } else {
      FreshCommits(s.book, m);
      if Fits(s.book, m) {
        assert Mutate(s.book, m).0.rows[|s.book.rows|].key == Message(id);
      }
    }
  }

  // Only a handler run for the message or a foreign mutation extends the ledger.
  lemma BookFrame(s: State, e: Event)
    ensures !e.DoHandle? && !e.Intervene? ==> Next(s, e).book == s.book
    ensures e.DoHandle? && !(exists id :: Handling(s, e, id) && s.inbox[id].content.Credit?) ==> Next(s, e).book == s.book
  {
    if e.DoHandle? && e.w in s.workers && s.workers[e.w].Claimed? && s.workers[e.w].id in s.inbox {
      assert Handling(s, e, s.workers[e.w].id);
    }
  }

  lemma OtherRows(opening: map<Account, nat>, s: State, x: MsgId, id: MsgId)
    requires Inv(opening, s) && x in s.inbox && s.inbox[x].content.Credit? && x != id
    ensures HasRow(Mutate(s.book, CreditRequest(x, s.inbox[x].content)).0.rows, id) <==> HasRow(s.book.rows, id)
  {
    CreditOutcome(opening, s, x);
    AppendRow(s.book, CreditRequest(x, s.inbox[x].content), id);
  }

  lemma AppendRow(b: Book, m: Mutation, id: MsgId)
    requires m.key != Message(id)
    ensures HasRow(Mutate(b, m).0.rows, id) <==> HasRow(b.rows, id)
  {
    var t := Mutate(b, m).0;
    if t != b {
      assert t.rows == b.rows + [NewRow(b, m)];
      if HasRow(b.rows, id) {
        var k :| 0 <= k < |b.rows| && b.rows[k].key == Message(id);
        assert t.rows[k].key == Message(id);
      }
    }
  }

  // Rows of a message appear only by its own handler.
  lemma RowStep(opening: map<Account, nat>, s: State, e: Event, id: MsgId)
    requires Inv(opening, s)
    ensures HasRow(s.book.rows, id) ==> HasRow(Next(s, e).book.rows, id)
    ensures HasRow(Next(s, e).book.rows, id) && !HasRow(s.book.rows, id) ==>
              Handling(s, e, id) && s.inbox[id].content.Credit? && Fits(s.book, CreditRequest(id, s.inbox[id].content))
  {
    BookFrame(s, e);
    if e.Intervene? {
      AppendRow(s.book, Mutation(e.account, e.delta, Gameplay(e.key), 0), id);
    } else if e.DoHandle? && exists x :: Handling(s, e, x) && s.inbox[x].content.Credit? {
      var x :| Handling(s, e, x) && s.inbox[x].content.Credit?;
      if x == id {
        CreditOutcome(opening, s, id);
      } else {
        OtherRows(opening, s, x, id);
      }
    }
  }

  predicate HoldsError(s: State, w: WorkerId, id: MsgId) {
    w in s.workers && s.workers[w].id == id && s.workers[w].Answered? && s.workers[w].answer.Friendly?
  }

  predicate ErrorDone(s: State, id: MsgId) {
    id in s.inbox && s.inbox[id].status.Processed? && s.inbox[id].status.answer.Friendly?
  }

  lemma HoldsErrorStep(s: State, e: Event, w: WorkerId, id: MsgId)
    requires HoldsError(Next(s, e), w, id) && !HoldsError(s, w, id)
    ensures (e.DoHandle? || e.DoLimit?) && e.w == w && w in s.workers && s.workers[w] == Claimed(id) && id in s.inbox
    ensures e.DoHandle? ==> s.inbox[id].content.Credit? && !Mutate(s.book, CreditRequest(id, s.inbox[id].content)).1.Ok?
    ensures e.DoLimit? ==> !Admitted(s.handled, id) && Next(s, e).book == s.book
  {
  }

  lemma ErrorDoneStep(s: State, e: Event, id: MsgId)
    requires ErrorDone(Next(s, e), id) && !ErrorDone(s, id)
    ensures e.DoComplete? && HoldsError(s, e.w, id)
  {
    ProcessedOnlyByComplete(s, e, id);
  }

  lemma NotAdmittedNoRow(s: State, id: MsgId)
    requires RowsFromMessages(s) && !Admitted(s.handled, id)
    ensures !HasRow(s.book.rows, id)
  {
    if HasRow(s.book.rows, id) {
      var k :| 0 <= k < |s.book.rows| && s.book.rows[k].key == Message(id);
      assert RowFromMessage(s, s.book.rows[k]);
      EffectMeansAdmitted(s.handled, id);
    }
  }

  // A new error answer is only given while the message has no row.
  lemma ErrorStep(opening: map<Account, nat>, s: State, e: Event, id: MsgId)
    requires Inv(opening, s) && ErrorHeld(Next(s, e), id) && !ErrorHeld(s, id)
    ensures !HasRow(Next(s, e).book.rows, id)
  {
    var t := Next(s, e);
    if ErrorDone(t, id) {
      ErrorDoneStep(s, e, id);
    } else {
      var w :| HoldsError(t, w, id);
      HoldsErrorStep(s, e, w, id);
      RowStep(opening, s, e, id);
      if e.DoHandle? {
        CreditOutcome(opening, s, id);
      } else {
        NotAdmittedNoRow(s, id);
      }
    }
  }

  lemma BesideStep(opening: map<Account, nat>, s: State, e: Event, id: MsgId, beside: bool)
    requires Inv(opening, s) && ErrorSound(s, id, beside)
    ensures ErrorSound(Next(s, e), id, beside || CreditsBesideError(s, e, id))
  {
    RowStep(opening, s, e, id);
    if ErrorHeld(Next(s, e), id) && !ErrorHeld(s, id) {
      ErrorStep(opening, s, e, id);
    }
    if CreditsBesideError(s, e, id) {
      CreditOutcome(opening, s, id);
    }
  }

  lemma {:induction false} BesideRun(opening: map<Account, nat>, s: State, es: seq<Event>, id: MsgId, beside: bool)
    requires Inv(opening, s) && ErrorSound(s, id, beside)
    ensures ErrorSound(Run(s, es), id, beside || EverCreditsBesideError(s, es, id))
    decreases |es|
  {
    if es != [] {
      BesideStep(opening, s, es[0], id, beside);
      StepKeepsInv(opening, s, es[0]);
      BesideRun(opening, Next(s, es[0]), es[1..], id, beside || CreditsBesideError(s, es[0], id));
    }
  }

  // Over whole runs: a message answered by an error has a ledger row if and only if some claimant of it
  // got its credit past the owner's guard while the error answer was held or recorded.
  lemma ErrorBesideEffectIff(opening: map<Account, nat>, es: seq<Event>, id: MsgId)
    requires forall a :: a in opening ==> opening[a] <= BIGINT_MAX
    requires var t := Run(Initial(opening), es); id in t.inbox && t.inbox[id].status.Processed? && t.inbox[id].status.answer.Friendly?
    ensures HasRow(Run(Initial(opening), es).book.rows, id) <==> EverCreditsBesideError(Initial(opening), es, id)
  {
    BesideRun(opening, Initial(opening), es, id, false);
  }

  lemma {:induction false} AloneNeverBeside(s: State, es: seq<Event>, id: MsgId)
    requires Alone(s, id) && FreeClaims(s, es, id)
    ensures !EverCreditsBesideError(s, es, id)
    decreases |es|
  {
    if es != [] {
      AloneStep(s, es[0], id);
      if Handling(s, es[0], id) {
        LoneHandler(s, es[0], id);
      }
      AloneNeverBeside(Next(s, es[0]), es[1..], id);
    }
  }

  // Without a reclaim of a live claimant an error reply means that nothing was credited.
  lemma UndisturbedErrorMeansNoRow(opening: map<Account, nat>, es: seq<Event>, id: MsgId)
    requires forall a :: a in opening ==> opening[a] <= BIGINT_MAX
    requires var t := Run(Initial(opening), es); id in t.inbox && t.inbox[id].status.Processed? && t.inbox[id].status.answer.Friendly?
    requires FreeClaims(Initial(opening), es, id)
    ensures !HasRow(Run(Initial(opening), es).book.rows, id)
  {
    AloneNeverBeside(Initial(opening), es, id);
    ErrorBesideEffectIff(opening, es, id);
  }
}
