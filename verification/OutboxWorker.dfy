/** The delivery worker's loops over the outbox table, and exactly-once delivery when nothing fails. */
module OutboxWorker {
  import opened Wrappers
  import opened Outbox
  import opened OutboxSafety

  // ----- Exactly once when nothing fails, crashes or expires -----

  predicate SmoothStep(s: State, e: Event) {
    && !e.DoMarkFailed? && !e.Crash?
    && (e.DoClaim? ==> forall i :: 0 <= i < |s.rows| ==>
          Expire(s.rows[i], s.now, e.staleAfterMs, e.channels) == s.rows[i])
  }

  predicate SmoothRun(s: State, o: Options, es: seq<Event>)
    decreases |es|
  {
    es == [] || (SmoothStep(s, es[0]) && SmoothRun(Next(s, o, es[0]), o, es[1..]))
  }

  ghost predicate RowTidy(s: State, i: RowId)
    requires i < |s.rows|
  {
    match s.rows[i].status
    case Pending => s.rows[i].attempts == 0 && Accepted(s.sent, i) == 0
    case Sending =>
      && s.rows[i].attempts == 1
      && ((Delivery(i, 1) in s.unsent && Accepted(s.sent, i) == 0) || (Delivery(i, 1) in s.unmarked && Accepted(s.sent, i) == 1))
    case Sent => s.rows[i].attempts == 1 && Accepted(s.sent, i) == 1
    case _ => false
  }

  ghost predicate HolderTidy(s: State, d: Delivery) {
    d.row < |s.rows| && s.rows[d.row].status.Sending? && d.attempt == 1
  }

  ghost predicate Tidy(s: State) {
    && s.unsent !! s.unmarked
    && (forall k :: 0 <= k < |s.sent| ==> s.sent[k] < |s.rows|)
    && (forall d :: d in Holders(s) ==> HolderTidy(s, d))
    && (forall i :: 0 <= i < |s.rows| ==> RowTidy(s, i))
  }

  // A row that no lease expiry touched can only have been claimed from PENDING.
  lemma PendingWasClaimed(s: State, o: Options, e: Event, i: RowId)
    requires i < |s.rows| && RowTidy(s, i) && e.DoClaim?
    requires Expire(s.rows[i], s.now, e.staleAfterMs, e.channels) == s.rows[i]
    requires i in ClaimedIds(s, o, e.limit, e.staleAfterMs, e.channels)
    ensures s.rows[i].status.Pending?
  {
    CandidatesEligible(Prepared(s.rows, s.now, e.staleAfterMs, o.maxAttempts, e.channels), 0, e.limit, s.now,
                       o.maxAttempts, e.channels);
  }

  lemma TakenRowTidy(s: State, o: Options, e: Event, i: RowId)
    requires i < |s.rows| && RowTidy(s, i) && e.DoClaim?
    requires Expire(s.rows[i], s.now, e.staleAfterMs, e.channels) == s.rows[i]
    requires i in ClaimedIds(s, o, e.limit, e.staleAfterMs, e.channels)
    ensures s.rows[i].status.Pending? && RowTidy(Claim(s, o, e.limit, e.staleAfterMs, e.channels), i)
  {
    PendingWasClaimed(s, o, e, i);
    var t := Claim(s, o, e.limit, e.staleAfterMs, e.channels);
    ClaimRow(s, o, e.limit, e.staleAfterMs, e.channels, i);
    ClaimUnsentOf(s, o, e.limit, e.staleAfterMs, e.channels, i);
    FreshIsTidy(s, t, i);
  }

  lemma FreshIsTidy(s: State, t: State, i: RowId)
    requires i < |s.rows| && i < |t.rows| && RowTidy(s, i) && s.rows[i].status.Pending? && t.sent == s.sent
    requires t.rows[i].status.Sending? && t.rows[i].attempts == 1
    requires UnsentOf(t, i) == UnsentOf(s, i) + {Delivery(i, 1)}
    ensures RowTidy(t, i)
  {
    assert Delivery(i, 1) in UnsentOf(t, i);
  }

  lemma OtherRowTidy(s: State, o: Options, e: Event, i: RowId)
    requires i < |s.rows| && RowTidy(s, i) && e.DoClaim? && o.maxAttempts >= 1
    requires Expire(s.rows[i], s.now, e.staleAfterMs, e.channels) == s.rows[i]
    requires i !in ClaimedIds(s, o, e.limit, e.staleAfterMs, e.channels)
    ensures var t := Claim(s, o, e.limit, e.staleAfterMs, e.channels); t.rows[i] == s.rows[i] && RowTidy(t, i)
  {
    ClaimRow(s, o, e.limit, e.staleAfterMs, e.channels, i);
  }

  lemma ClaimRowTidy(s: State, o: Options, e: Event, i: RowId)
    requires Tidy(s) && e.DoClaim? && SmoothStep(s, e) && o.maxAttempts >= 1 && i < |s.rows|
    ensures var t := Claim(s, o, e.limit, e.staleAfterMs, e.channels);
            && RowTidy(t, i)
            && (if i in ClaimedIds(s, o, e.limit, e.staleAfterMs, e.channels)
                then s.rows[i].status.Pending? && t.rows[i].status.Sending? else t.rows[i] == s.rows[i])
  {
    assert RowTidy(s, i) && Expire(s.rows[i], s.now, e.staleAfterMs, e.channels) == s.rows[i];
    if i in ClaimedIds(s, o, e.limit, e.staleAfterMs, e.channels) {
      TakenRowTidy(s, o, e, i);
      ClaimRow(s, o, e.limit, e.staleAfterMs, e.channels, i);
    } else {
      OtherRowTidy(s, o, e, i);
    }
  }

  lemma ClaimHolderTidy(s: State, o: Options, e: Event, d: Delivery)
    requires Tidy(s) && e.DoClaim? && SmoothStep(s, e) && o.maxAttempts >= 1
    requires d in Holders(Claim(s, o, e.limit, e.staleAfterMs, e.channels))
    ensures HolderTidy(Claim(s, o, e.limit, e.staleAfterMs, e.channels), d)
    ensures d !in s.unsent ==> d in s.unmarked || d !in Holders(s)
    ensures d !in Holders(s) ==> d.row < |s.rows| && s.rows[d.row].status.Pending?
  {
    if d in Holders(s) {
      assert HolderTidy(s, d);
    } else {
      ClaimUnsent(s, o, e.limit, e.staleAfterMs, e.channels, d);
      assert RowTidy(s, d.row);
    }
    ClaimRowTidy(s, o, e, d.row);
  }

  lemma ClaimKeepsTidy(s: State, o: Options, e: Event)
    requires Tidy(s) && e.DoClaim? && SmoothStep(s, e) && o.maxAttempts >= 1
    ensures Tidy(Claim(s, o, e.limit, e.staleAfterMs, e.channels))
  {
    var t := Claim(s, o, e.limit, e.staleAfterMs, e.channels);
    forall d | d in Holders(t) ensures HolderTidy(t, d) {
      ClaimHolderTidy(s, o, e, d);
    }
    forall d | d in t.unsent ensures d !in t.unmarked {
      ClaimUnsent(s, o, e.limit, e.staleAfterMs, e.channels, d);
      if d in t.unmarked {
        assert HolderTidy(s, d);
        ClaimRowTidy(s, o, e, d.row);
      }
    }
    forall i | 0 <= i < |t.rows| ensures RowTidy(t, i) {
      ClaimRowTidy(s, o, e, i);
    }
  }

  lemma DeliverKeepsTidy(s: State, o: Options, d: Delivery)
    requires Tidy(s) && d in s.unsent
    ensures Tidy(Next(s, o, Deliver(d)))
  {
    var t := Next(s, o, Deliver(d));
    assert HolderTidy(s, d);
    forall i | 0 <= i < |s.rows| ensures RowTidy(t, i) {
      assert RowTidy(s, i);
      AcceptedAppend(s.sent, d.row, i);
    }
    forall x | x in Holders(t) ensures HolderTidy(t, x) {
      assert HolderTidy(s, x);
    }
  }

  lemma MarkKeepsTidy(s: State, o: Options, d: Delivery)
    requires Tidy(s) && d in s.unmarked
    ensures Tidy(Next(s, o, DoMarkSent(d)))
  {
    var t := Next(s, o, DoMarkSent(d));
    assert HolderTidy(s, d);
    forall i | 0 <= i < |s.rows| ensures RowTidy(t, i) {
      assert RowTidy(s, i);
    }
    forall x | x in Holders(t) ensures HolderTidy(t, x) {
      assert HolderTidy(s, x);
    }
  }

  lemma StepKeepsTidy(s: State, o: Options, e: Event)
    requires Tidy(s) && SmoothStep(s, e) && o.maxAttempts >= 1
    ensures Tidy(Next(s, o, e))
  {
    var t := Next(s, o, e);
    match e
    case DoClaim(_, _, _) => ClaimKeepsTidy(s, o, e);
    case Deliver(d) =>
      if d in s.unsent {
        DeliverKeepsTidy(s, o, d);
      }
    case DoMarkSent(d) =>
      if d in s.unmarked {
        MarkKeepsTidy(s, o, d);
      }
    case Insert(channel) =>
      NotAccepted(s.sent, |s.rows|);
      forall i | 0 <= i < |t.rows| ensures RowTidy(t, i) {
        assert i < |s.rows| ==> RowTidy(s, i);
      }
      forall x | x in Holders(t) ensures HolderTidy(t, x) {
        assert HolderTidy(s, x);
      }
    case Tick(_) =>
      forall i | 0 <= i < |t.rows| ensures RowTidy(t, i) {
        assert RowTidy(s, i);
      }
      forall x | x in Holders(t) ensures HolderTidy(t, x) {
        assert HolderTidy(s, x);
      }
  }

  lemma {:induction false} RunKeepsTidy(s: State, o: Options, es: seq<Event>)
    requires Tidy(s) && SmoothRun(s, o, es) && o.maxAttempts >= 1
    ensures Tidy(Run(s, o, es))
    decreases |es|
  {
    if es != [] {
      StepKeepsTidy(s, o, es[0]);
      RunKeepsTidy(Next(s, o, es[0]), o, es[1..]);
    }
  }

  // When no delivery fails, no worker crashes and no lease expires, every row is accepted by the
  // adapter at most once, nothing is ever FAILED or DEAD, and a SENT row was accepted exactly once.
  lemma SmoothRunsDeliverOnce(o: Options, es: seq<Event>, i: RowId)
    requires o.maxAttempts >= 1 && SmoothRun(INITIAL, o, es) && i < |Run(INITIAL, o, es).rows|
    ensures var t := Run(INITIAL, o, es);
            && Accepted(t.sent, i) <= 1
            && t.rows[i].status in {Pending, Sending, Sent}
            && (t.rows[i].status.Sent? ==> Accepted(t.sent, i) == 1)
            && (Holders(t) == {} && !t.rows[i].status.Pending? ==> t.rows[i].status.Sent?)
  {
    RunKeepsTidy(INITIAL, o, es);
    assert RowTidy(Run(INITIAL, o, es), i);
  }

  // ----- The loops -----

  function SentRow(row: Row): Row {
    row.(status := Sent, startedAt := None, nextAttemptAt := None)
  }

  function FailedRow(row: Row, o: Options, now: nat): Row {
    row.(status := if row.attempts >= o.maxAttempts then Dead else Failed,
         nextAttemptAt := RetryAt(o, row.attempts, now), startedAt := None)
  }

  // What the adapters accept of the first k claimed rows, in the order of their delivery.
  function Kept(ids: seq<RowId>, k: nat, rejected: set<RowId>): seq<RowId>
    requires k <= |ids|
  {
    if k == 0 then [] else Kept(ids, k - 1, rejected) + if ids[k - 1] in rejected then [] else [ids[k - 1]]
  }

  function SentIds(rows: seq<Row>): set<RowId> {
    set i | 0 <= i < |rows| && rows[i].status.Sent?
  }

  lemma {:induction false} SentIdsBounded(rows: seq<Row>)
    ensures |SentIds(rows)| <= |rows|
  {
    if rows != [] {
      var front := rows[..|rows| - 1];
      SentIdsBounded(front);
      assert SentIds(rows) == SentIds(front) + if rows[|rows| - 1].status.Sent? then {|rows| - 1} else {};
    }
  }

  lemma ProperSubset(a: set<RowId>, b: set<RowId>)
    requires a < b
    ensures |a| < |b|
  {
    assert b == a + (b - a);
  }

  class Worker {
    const options: Options
    var rows: seq<Row>
    var sent: seq<RowId>
    var now: nat

    constructor (options: Options, rows: seq<Row>, now: nat)
      ensures this.options == options && this.rows == rows && sent == [] && this.now == now
    {
      this.options, this.rows, sent, this.now := options, rows, [], now;
    }

    method ClaimOutbox(limit: nat, staleAfterMs: nat, channels: Option<set<nat>>) returns (ids: seq<RowId>)
      modifies `rows
      ensures var s := State(old(rows), {}, {}, old(sent), now);
              ids == ClaimedIds(s, options, limit, staleAfterMs, channels)
              && rows == Claim(s, options, limit, staleAfterMs, channels).rows
    {
      rows := Prepared(rows, now, staleAfterMs, options.maxAttempts, channels);
      ids := Candidates(rows, 0, limit, now, options.maxAttempts, channels);
      rows := TakeAll(rows, ids, now);
    }

    // Hands one claimed row to its adapter and marks it by the adapter's answer.
    method DeliverOne(id: RowId, rejected: set<RowId>) returns (accepted: bool)
      requires id < |rows|
      modifies `rows, `sent
      ensures accepted == (id !in rejected)
      ensures sent == if accepted then old(sent) + [id] else old(sent)
      ensures rows == if accepted then MarkSent(old(rows), id)
                      else MarkFailed(old(rows), id, RetryAt(options, old(rows)[id].attempts, now), options.maxAttempts)
    {
      accepted := id !in rejected;
      if accepted {
        sent := sent + [id];
        rows := MarkSent(rows, id);
      } else {
        rows := MarkFailed(rows, id, RetryAt(options, rows[id].attempts, now), options.maxAttempts);
      }
    }

    // The rows after the first k marks, one after the other.
    function MarkFirst(before: seq<Row>, ids: seq<RowId>, k: nat, rejected: set<RowId>): (after: seq<Row>)
      requires k <= |ids| && forall j :: 0 <= j < |ids| ==> ids[j] < |before|
      reads `now
      ensures |after| == |before|
    {
      if k == 0 then before
      else
        var rest, id := MarkFirst(before, ids, k - 1, rejected), ids[k - 1];
        if id in rejected then MarkFailed(rest, id, RetryAt(options, rest[id].attempts, now), options.maxAttempts)
        else MarkSent(rest, id)
    }

    // The delivery loop: each claimed row is handed over and marked, in claim order.
    method DeliverAll(ids: seq<RowId>, rejected: set<RowId>) returns (delivered: nat, failed: nat)
      requires Ascending(ids) && forall k :: 0 <= k < |ids| ==> ids[k] < |rows| && rows[ids[k]].status.Sending?
      modifies `rows, `sent
      ensures delivered + failed == |ids|
      ensures sent == old(sent) + Kept(ids, |ids|, rejected)
      ensures Marked(old(rows), rows, ids, rejected)
    {
      delivered, failed := 0, 0;
      for k := 0 to |ids|
        invariant delivered + failed == k
        invariant sent == old(sent) + Kept(ids, k, rejected)
        invariant rows == MarkFirst(old(rows), ids, k, rejected)
      {
        var accepted := DeliverOne(ids[k], rejected);
        if accepted {
          delivered := delivered + 1;
        } else {
          failed := failed + 1;
        }
      }
      FirstMarked(old(rows), ids, |ids|, rejected);
      assert ids[..|ids|] == ids;
    }

    lemma {:induction false} FirstMarked(before: seq<Row>, ids: seq<RowId>, k: nat, rejected: set<RowId>)
      requires Ascending(ids) && forall j :: 0 <= j < |ids| ==> ids[j] < |before| && before[ids[j]].status.Sending?
      requires k <= |ids|
      ensures Marked(before, MarkFirst(before, ids, k, rejected), ids[..k], rejected)
    {
      if k > 0 {
        FirstMarked(before, ids, k - 1, rejected);
        MarkedOneMore(before, MarkFirst(before, ids, k - 1, rejected), ids[..k - 1], ids[k - 1], rejected);
        assert ids[..k - 1] + [ids[k - 1]] == ids[..k];
      }
    }

    lemma MarkedOneMore(before: seq<Row>, after: seq<Row>, ids: seq<RowId>, id: RowId, rejected: set<RowId>)
      requires Marked(before, after, ids, rejected)
      requires id < |before| && before[id].status.Sending? && id !in ids
      ensures Marked(before,
                     if id in rejected then MarkFailed(after, id, RetryAt(options, after[id].attempts, now), options.maxAttempts)
                     else MarkSent(after, id),
                     ids + [id], rejected)
    {
    }

    ghost predicate Marked(before: seq<Row>, after: seq<Row>, ids: seq<RowId>, rejected: set<RowId>)
      reads `now
    {
      && |after| == |before|
      && forall i :: 0 <= i < |after| ==>
           after[i] == if i !in ids then before[i]
                       else if i in rejected then FailedRow(before[i], options, now) else SentRow(before[i])
    }

    // One pass of the worker: every claimed message is delivered and marked, or marked failed with
    // its backoff; the adapter refuses exactly the rows in rejected.
    method RunOnce(batchSize: nat, staleAfterMs: nat, channels: Option<set<nat>>, rejected: set<RowId>)
      returns (claimed: nat, delivered: nat, failed: nat)
      modifies `rows, `sent
      ensures var s := State(old(rows), {}, {}, old(sent), now);
              var ids := ClaimedIds(s, options, batchSize, staleAfterMs, channels);
              && claimed == |ids| == delivered + failed
              && sent == old(sent) + Kept(ids, |ids|, rejected)
              && Marked(Claim(s, options, batchSize, staleAfterMs, channels).rows, rows, ids, rejected)
    {
      ghost var prepared := Prepared(rows, now, staleAfterMs, options.maxAttempts, channels);
      var ids := ClaimOutbox(batchSize, staleAfterMs, channels);
      CandidatesEligible(prepared, 0, batchSize, now, options.maxAttempts, channels);
      CandidatesAscending(prepared, 0, batchSize, now, options.maxAttempts, channels);
      assert forall k :: 0 <= k < |ids| ==> ids[k] in ids;
      delivered, failed := DeliverAll(ids, rejected);
      claimed := |ids|;
    }

    // Claim and mark sent until a claim comes back empty: it always does, and then every row that
    // could be claimed has been sent with exactly one more attempt, and no other row moved.
    method Drain(limit: nat, staleAfterMs: nat) returns (claimedTotal: nat)
      requires limit > 0
      modifies `rows, `sent
      ensures var prepared := Prepared(old(rows), now, staleAfterMs, options.maxAttempts, None);
              && |rows| == |prepared|
              && (forall i :: 0 <= i < |rows| ==>
                    rows[i] == if Eligible(prepared[i], now, options.maxAttempts, None)
                               then SentRow(Taken(prepared[i], now)) else prepared[i])
              && claimedTotal == Attempts(rows, 0) - Attempts(old(rows), 0)
    {
      ghost var prepared := Prepared(rows, now, staleAfterMs, options.maxAttempts, None);
      claimedTotal := 0;
      SameAttempts(prepared, rows, 0);
      while true
        invariant |rows| == |prepared|
        invariant Drained(prepared, Prepared(rows, now, staleAfterMs, options.maxAttempts, None))
        invariant claimedTotal == Attempts(rows, 0) - Attempts(old(rows), 0)
        decreases |rows| - |SentIds(rows)|
      {
        var claimed := DrainOnce(old(rows), prepared, limit, staleAfterMs);
        if claimed == 0 {
          break;
        }
        claimedTotal := claimedTotal + claimed;
      }
    }

    // One round of the drain loop: an empty claim leaves nothing eligible, any other marks at least
    // one more row SENT.
    method DrainOnce(ghost first: seq<Row>, ghost prepared: seq<Row>, limit: nat, staleAfterMs: nat) returns (claimed: nat)
      requires limit > 0 && prepared == Prepared(first, now, staleAfterMs, options.maxAttempts, None)
      requires |rows| == |prepared| && Drained(prepared, Prepared(rows, now, staleAfterMs, options.maxAttempts, None))
      modifies `rows, `sent
      ensures |rows| == |prepared| && Drained(prepared, rows)
      ensures Prepared(rows, now, staleAfterMs, options.maxAttempts, None) == rows
      ensures claimed == Attempts(rows, 0) - Attempts(old(rows), 0)
      ensures claimed == 0 ==> forall i :: 0 <= i < |rows| ==> !Eligible(rows[i], now, options.maxAttempts, None)
      ensures claimed > 0 ==> |SentIds(old(rows))| < |SentIds(rows)| <= |rows|
    {
      ghost var before := State(rows, {}, {}, sent, now);
      ghost var mid := Prepared(rows, now, staleAfterMs, options.maxAttempts, None);
      var ids := ClaimOutbox(limit, staleAfterMs, None);
      ghost var taken := rows;
      ClaimUsesAttempts(before, options, limit, staleAfterMs, None);
      CandidatesEligible(mid, 0, limit, now, options.maxAttempts, None);
      CandidatesAscending(mid, 0, limit, now, options.maxAttempts, None);
      assert forall k :: 0 <= k < |ids| ==> ids[k] in ids;
      var delivered, failed := DeliverAll(ids, {});
      claimed := delivered + failed;
      SameAttempts(taken, rows, 0);
      DrainedOnce(prepared, mid, taken, ids);
      PrepareTwice(first, prepared, staleAfterMs);
      if claimed == 0 {
        NothingEligible(mid, limit);
        assert rows == mid;
      } else {
        PreparedKeepsSent(old(rows), staleAfterMs);
        assert ids[0] in ids;
        MoreSent(SentIds(old(rows)), mid, ids);
      }
    }

    lemma PreparedKeepsSent(before: seq<Row>, staleAfterMs: nat)
      ensures SentIds(before) <= SentIds(Prepared(before, now, staleAfterMs, options.maxAttempts, None))
    {
      var mid := Prepared(before, now, staleAfterMs, options.maxAttempts, None);
      assert forall i :: i in SentIds(before) ==> mid[i] == before[i];
    }

    lemma MoreSent(before: set<RowId>, mid: seq<Row>, ids: seq<RowId>)
      requires before <= SentIds(mid) && ids != [] && ids[0] < |mid| && !mid[ids[0]].status.Sent?
      requires Marked(TakeAll(mid, ids, now), rows, ids, {})
      ensures |before| < |SentIds(rows)| <= |rows|
    {
      assert ids[0] in ids;
      assert before <= SentIds(rows) && ids[0] in SentIds(rows) - before;
      ProperSubset(before, SentIds(rows));
      SentIdsBounded(rows);
    }

    lemma NothingEligible(mid: seq<Row>, limit: nat)
      requires limit > 0 && Candidates(mid, 0, limit, now, options.maxAttempts, None) == []
      ensures forall i :: 0 <= i < |mid| ==> !Eligible(mid[i], now, options.maxAttempts, None)
    {
      forall i | 0 <= i < |mid| && Eligible(mid[i], now, options.maxAttempts, None) ensures false {
        CandidatesComplete(mid, 0, limit, now, options.maxAttempts, None, i);
      }
    }

    // Claiming and sending some eligible rows is one more part of the drain.
    lemma DrainedOnce(prepared: seq<Row>, mid: seq<Row>, taken: seq<Row>, ids: seq<RowId>)
      requires Drained(prepared, mid) && taken == TakeAll(mid, ids, now) && |rows| == |taken|
      requires forall x :: x in ids ==> x < |mid| && Eligible(mid[x], now, options.maxAttempts, None)
      requires Marked(taken, rows, ids, {})
      ensures Drained(prepared, rows)
    {
    }

    // Expiring and burying again at the same moment changes nothing more.
    lemma PrepareTwice(before: seq<Row>, prepared: seq<Row>, staleAfterMs: nat)
      requires prepared == Prepared(before, now, staleAfterMs, options.maxAttempts, None)
      requires Drained(prepared, rows)
      ensures Prepared(rows, now, staleAfterMs, options.maxAttempts, None) == rows
    {
    }

    ghost predicate Drained(before: seq<Row>, after: seq<Row>)
      reads `now
    {
      && |after| == |before|
      && forall i :: 0 <= i < |after| ==>
           || after[i] == before[i]
           || (Eligible(before[i], now, options.maxAttempts, None) && after[i] == SentRow(Taken(before[i], now)))
    }
  }
}
