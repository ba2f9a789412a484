/** The message inbox: claims with a lease but no lease token, handlers with and without an
  * idempotency key, completion together with the replies, for any number of concurrent workers
  * that may crash, throw or outlive their lease.
  */
module Inbox {
  import opened Wrappers
  import opened Economy

  type MsgId = nat
  type WorkerId = nat

  // ----- Data model -----

  // What a message asks for: a keyed wallet credit, the unkeyed upsert, or nothing (a scene).
  datatype Content = Credit(account: Account, amount: nat) | Bump(account: Account) | Freeform

  datatype ErrorCode = Economy(cause: EconomyError) | RateLimited

  datatype Text = BalanceText(balance: nat) | ErrorText(code: ErrorCode)

  datatype OutKey = ReplyKey(id: MsgId) | ErrorKey(id: MsgId, code: ErrorCode)

  datatype Draft = Draft(key: OutKey, text: Text)

  datatype OutRow = OutRow(key: OutKey, text: Text, cause: MsgId, sequenceNo: nat)

  // A handler's answer: done (with the balance it credited, if any) or a friendly error.
  datatype Answer = Credited(balance: nat) | Bumped | Ignored | Friendly(code: ErrorCode)

  datatype Status = Processing | Processed(answer: Answer) | Failed

  datatype InboxRow = InboxRow(content: Content, status: Status, attempts: nat, startedAt: nat)

  datatype Work = Claimed(id: MsgId) | Answered(id: MsgId, answer: Answer)

  // History of handler runs that got as far as an answer.
  datatype Attempt = Attempt(id: MsgId, answer: Answer)

  datatype State = State(
    inbox: map<MsgId, InboxRow>,
    book: Book,
    loose: map<Account, nat>,
    outbox: seq<OutRow>,
    workers: map<WorkerId, Work>,
    handled: seq<Attempt>,
    now: nat)

  datatype Outcome =
    | Claim | Replay(answer: Answer) | InFlight | FingerprintDrift
    | Handled | AlreadyAdmitted | Completed | NotProcessing | SemanticDrift | Gone | NoSuchWorker

  const BUMP_AMOUNT := 13

  // ----- Claim -----

  function ClaimIncoming(s: State, w: WorkerId, id: MsgId, content: Content, leaseMs: nat): (State, Outcome) {
    if w in s.workers then (s, NoSuchWorker)
    else if id !in s.inbox then
      (s.(inbox := s.inbox[id := InboxRow(content, Processing, 1, s.now)], workers := s.workers[w := Claimed(id)]), Claim)
    else
      var row := s.inbox[id];
      if row.content != content then (s, FingerprintDrift)
      else if row.status.Processed? then (s, Replay(row.status.answer))
      else if row.status.Processing? && s.now < row.startedAt + leaseMs then (s, InFlight)
      else
        (s.(inbox := s.inbox[id := row.(status := Processing, attempts := row.attempts + 1, startedAt := s.now)],
            workers := s.workers[w := Claimed(id)]),
         Claim)
  }

  // ----- Handlers -----

  function CreditRequest(id: MsgId, content: Content): Mutation
    requires content.Credit?
  {
    Mutation(content.account, content.amount, Message(id), id)
  }

  // The routed handler: its own transaction, answered before the inbox row is touched again.
  function Handle(s: State, w: WorkerId): (State, Outcome) {
    if !(w in s.workers && s.workers[w].Claimed? && s.workers[w].id in s.inbox) then (s, NoSuchWorker)
    else
      var id := s.workers[w].id;
      match s.inbox[id].content
      case Freeform => (Answering(s, w, id, Ignored), Handled)
      case Bump(account) =>
        var t := s.(loose := s.loose[account := Balance(s.loose, account) + BUMP_AMOUNT]);
        (Answering(t, w, id, Bumped), Handled)
      case Credit(_, _) =>
        var (book, reply) := Mutate(s.book, CreditRequest(id, s.inbox[id].content));
        var answer := if reply.Ok? then Credited(reply.balance) else Friendly(ErrorCode.Economy(reply.error));
        (Answering(s.(book := book), w, id, answer), Handled)
  }

  function Answering(s: State, w: WorkerId, id: MsgId, answer: Answer): State {
    s.(workers := s.workers[w := Answered(id, answer)], handled := s.handled + [Attempt(id, answer)])
  }

  // A handler run shows that the message was admitted; its charges then admit it for ever.
  predicate Admitted(handled: seq<Attempt>, id: MsgId) {
    exists a :: a in handled && a.id == id && a.answer != Friendly(RateLimited)
  }

  // Admission refused the message: the handler is skipped for a friendly error.
  function Limit(s: State, w: WorkerId): (State, Outcome) {
    if !(w in s.workers && s.workers[w].Claimed? && s.workers[w].id in s.inbox) then (s, NoSuchWorker)
    else if Admitted(s.handled, s.workers[w].id) then (s, AlreadyAdmitted)
    else (Answering(s, w, s.workers[w].id, Friendly(RateLimited)), Handled)
  }

  // ----- Completion -----

  function Drafts(id: MsgId, answer: Answer): seq<Draft> {
    match answer
    case Credited(balance) => [Draft(ReplyKey(id), BalanceText(balance))]
    case Friendly(code) => [Draft(ErrorKey(id, code), ErrorText(code))]
    case _ => []
  }

  function FindOut(outbox: seq<OutRow>, key: OutKey): Option<OutRow> {
    if outbox == [] then None
    else if outbox[0].key == key then Some(outbox[0])
    else FindOut(outbox[1..], key)
  }

  // Insert the drafts one by one; an existing key is accepted only with the same meaning.
  function InsertDrafts(outbox: seq<OutRow>, drafts: seq<Draft>, id: MsgId, sequenceNo: nat): Option<seq<OutRow>>
    decreases |drafts|
  {
    if drafts == [] then Some(outbox)
    else
      var existing := FindOut(outbox, drafts[0].key);
      if existing.None? then
        InsertDrafts(outbox + [OutRow(drafts[0].key, drafts[0].text, id, sequenceNo)], drafts[1..], id, sequenceNo + 1)
      else if existing.value.text == drafts[0].text && existing.value.cause == id then
        InsertDrafts(outbox, drafts[1..], id, sequenceNo + 1)
      else None
  }

  function SetStatus(s: State, id: MsgId, status: Status): State
    requires id in s.inbox
  {
    s.(inbox := s.inbox[id := s.inbox[id].(status := status)])
  }

  // Marks FAILED only what is still PROCESSING.
  function FailIncoming(s: State, id: MsgId): State {
    if id in s.inbox && s.inbox[id].status.Processing? then SetStatus(s, id, Failed) else s
  }

  function Complete(s: State, w: WorkerId): (State, Outcome) {
    if !(w in s.workers && s.workers[w].Answered?) then (s, NoSuchWorker)
    else
      var id, answer := s.workers[w].id, s.workers[w].answer;
      var t := s.(workers := s.workers - {w});
      if !(id in s.inbox && s.inbox[id].status.Processing?) then (FailIncoming(t, id), NotProcessing)
      else
        var rows := InsertDrafts(s.outbox, Drafts(id, answer), id, 0);
        if rows.None? then (FailIncoming(t, id), SemanticDrift)
        else (SetStatus(t.(outbox := rows.value), id, Processed(answer)), Completed)
  }

  // ----- Runs -----

  datatype Event =
    | DoClaim(w: WorkerId, id: MsgId, content: Content, leaseMs: nat)
    | DoHandle(w: WorkerId)
    | DoLimit(w: WorkerId)
    | DoComplete(w: WorkerId)
    | Throw(w: WorkerId)
    | Crash(w: WorkerId)
    | Tick(ms: nat)
    | Intervene(account: Account, delta: int, key: nat)

  function Step(s: State, e: Event): (State, Outcome) {
    match e
    case DoClaim(w, id, content, leaseMs) => ClaimIncoming(s, w, id, content, leaseMs)
    case DoHandle(w) => Handle(s, w)
    case DoLimit(w) => Limit(s, w)
    case DoComplete(w) => Complete(s, w)
    case Throw(w) =>
      if w in s.workers then (FailIncoming(s.(workers := s.workers - {w}), s.workers[w].id), Gone) else (s, NoSuchWorker)
    case Crash(w) => (s.(workers := s.workers - {w}), Gone)
    case Tick(ms) => (s.(now := s.now + ms), Gone)
    case Intervene(account, delta, key) =>
      (s.(book := Apply(s.book, Mutation(account, delta, Gameplay(key), 0))), Gone)
  }

  function Next(s: State, e: Event): State { Step(s, e).0 }

  function Run(s: State, es: seq<Event>): State
    decreases |es|
  {
    if es == [] then s else Run(Next(s, es[0]), es[1..])
  }

  function Initial(opening: map<Account, nat>): State {
    State(map[], Book(opening, []), map[], [], map[], [], 0)
  }
}
