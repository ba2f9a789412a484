/** The inbox and outbox tables as the repository updates them in place. */
module InboxTables {
  import opened Wrappers
  import opened Economy
  import opened Inbox
  import opened InboxSafety
  import opened InboxExact

  function AttemptsOf(inbox: map<MsgId, InboxRow>, id: MsgId): nat {
    if id in inbox then inbox[id].attempts else 0
  }

  lemma ClaimOutcome(opening: map<Account, nat>, s: State, w: WorkerId, id: MsgId, content: Content, leaseMs: nat)
    requires Inv(opening, s)
    ensures var (t, outcome) := ClaimIncoming(s, w, id, content, leaseMs);
            && Inv(opening, t)
            && (outcome.Replay? ==> Replies(s.outbox, id) == |Drafts(id, outcome.answer)|)
  {
    StepKeepsInv(opening, s, DoClaim(w, id, content, leaseMs));
  }

  lemma CompleteOutcome(opening: map<Account, nat>, s: State, w: WorkerId)
    requires Inv(opening, s) && w in s.workers && s.workers[w].Answered?
    ensures var (t, outcome) := Complete(s, w);
            var id, answer := s.workers[w].id, s.workers[w].answer;
            && Inv(opening, t)
            && (outcome.Completed? <==> id in s.inbox && s.inbox[id].status.Processing?)
            && (outcome.Completed? ==>
                  id in t.inbox && t.inbox[id].status == Processed(answer) && Replies(t.outbox, id) == |Drafts(id, answer)|)
  {
    StepKeepsInv(opening, s, DoComplete(w));
    var id, answer := s.workers[w].id, s.workers[w].answer;
    if id in s.inbox && s.inbox[id].status.Processing? {
      InsertFresh(s.outbox, answer, id);
    }
  }

  class InboxStore {
    var inbox: map<MsgId, InboxRow>
    var outbox: seq<OutRow>
    var now: nat

    constructor ()
      ensures inbox == map[] && outbox == [] && now == 0
    {
      inbox, outbox, now := map[], [], 0;
    }

    // The inbox table as it stands in a protocol state, whatever the rest of that state is.
    ghost predicate Shows(s: State)
      reads this
    {
      inbox == s.inbox && outbox == s.outbox && now == s.now
    }

    // A claim keeps the protocol invariant; it is granted exactly to a new message or to the same
    // content after a failed or outlived attempt, costs one attempt, and otherwise writes nothing. A
    // replay has its reply in the outbox.
    method Claim(ghost opening: map<Account, nat>, ghost s: State, ghost w: WorkerId, id: MsgId, content: Content, leaseMs: nat)
      returns (outcome: Outcome)
      requires Shows(s) && w !in s.workers
      modifies `inbox
      ensures var (t, expected) := ClaimIncoming(s, w, id, content, leaseMs); Shows(t) && outcome == expected
      ensures Inv(opening, s) ==> Inv(opening, ClaimIncoming(s, w, id, content, leaseMs).0)
      ensures outcome.Claim? <==> Grants(s, w, id, content, leaseMs)
      ensures outcome.Claim? ==> inbox == old(inbox)[id := InboxRow(content, Processing, AttemptsOf(old(inbox), id) + 1, now)]
      ensures !outcome.Claim? ==> inbox == old(inbox)
      ensures outcome.Replay? && Inv(opening, s) ==> Replies(outbox, id) == |Drafts(id, outcome.answer)|
    {
      if Inv(opening, s) {
        ClaimOutcome(opening, s, w, id, content, leaseMs);
      }
      if id !in inbox {
        inbox := inbox[id := InboxRow(content, Processing, 1, now)];
        return Outcome.Claim;
      }
      var row := inbox[id];
      if row.content != content {
        return FingerprintDrift;
      }
      if row.status.Processed? {
        return Replay(row.status.answer);
      }
      var activeLease := row.status.Processing? && now - row.startedAt < leaseMs;
      if activeLease {
        return InFlight;
      }
      inbox := inbox[id := InboxRow(row.content, Processing, row.attempts + 1, now)];
      outcome := Outcome.Claim;
    }

    // A message that is still PROCESSING becomes FAILED, ready to be claimed again; anything else stays.
    method Fail(id: MsgId)
      modifies `inbox
      ensures forall s: State :: old(Shows(s)) ==> Shows(FailIncoming(s, id))
      ensures id in old(inbox) && old(inbox)[id].status.Processing? ==> inbox == old(inbox)[id := old(inbox)[id].(status := Failed)]
      ensures !(id in old(inbox) && old(inbox)[id].status.Processing?) ==> inbox == old(inbox)
    {
      if id in inbox && inbox[id].status.Processing? {
        inbox := inbox[id := inbox[id].(status := Failed)];
      }
    }

    // One transaction: the status check, every reply, then PROCESSED; a conflict rolls all back.
    // In a state of the protocol no reply can conflict, so a PROCESSING message is always completed.
    method CompleteIncoming(ghost opening: map<Account, nat>, ghost s: State, ghost w: WorkerId, id: MsgId, answer: Answer)
      returns (outcome: Outcome)
      requires Shows(s) && w in s.workers && s.workers[w] == Answered(id, answer)
      modifies `inbox, `outbox
      ensures var (t, expected) := Complete(s, w); Shows(t) && outcome == expected
      ensures Inv(opening, s) ==>
                && Inv(opening, Complete(s, w).0)
                && (outcome.Completed? <==> id in old(inbox) && old(inbox)[id].status.Processing?)
                && (outcome.Completed? ==>
                      id in inbox && inbox[id].status == Processed(answer) && Replies(outbox, id) == |Drafts(id, answer)|)
    {
      if Inv(opening, s) {
        CompleteOutcome(opening, s, w);
      }
      if id !in inbox || !inbox[id].status.Processing? {
        return NotProcessing;
      }
      var drafts := Drafts(id, answer);
      var rows := outbox;
      var i := 0;
      while i < |drafts|
        invariant 0 <= i <= |drafts|
        invariant InsertDrafts(rows, drafts[i..], id, i) == InsertDrafts(outbox, drafts, id, 0)
        invariant outbox == old(outbox) && inbox == old(inbox)
      {
        assert drafts[i..][1..] == drafts[i + 1..];
        var existing := FindOut(rows, drafts[i].key);
        if existing == None {
          rows := rows + [OutRow(drafts[i].key, drafts[i].text, id, i)];
        } else if existing.value.text != drafts[i].text || existing.value.cause != id {
          Fail(id);
          return SemanticDrift;
        }
        i := i + 1;
      }
      outbox := rows;
      inbox := inbox[id := inbox[id].(status := Processed(answer))];
      outcome := Completed;
    }
  }
}
