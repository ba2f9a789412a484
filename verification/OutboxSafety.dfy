/** Bounded attempts, termination, delivery counts and claim exclusivity of the outbox over all runs. */
module OutboxSafety {
  import opened Wrappers
  import opened Outbox

  function Accepted(sent: seq<RowId>, id: RowId): nat {
    if sent == [] then 0
    else Accepted(sent[..|sent| - 1], id) + if sent[|sent| - 1] == id then 1 else 0
  }

  lemma AcceptedAppend(sent: seq<RowId>, x: RowId, id: RowId)
    ensures Accepted(sent + [x], id) == Accepted(sent, id) + if x == id then 1 else 0
  {
    assert (sent + [x])[..|sent|] == sent;
  }

  function UnsentOf(s: State, id: RowId): set<Delivery> {
    set d | d in s.unsent && d.row == id
  }

  function Holders(s: State): set<Delivery> { s.unsent + s.unmarked }

  // ----- Invariant -----

  ghost predicate RowInv(s: State, o: Options, i: RowId)
    requires i < |s.rows|
  {
    && s.rows[i].attempts <= o.maxAttempts
    && (s.rows[i].status.Dead? ==> s.rows[i].attempts == o.maxAttempts)
    && (s.rows[i].status.Sent? ==> Accepted(s.sent, i) >= 1)
    && Accepted(s.sent, i) + |UnsentOf(s, i)| <= s.rows[i].attempts
  }

  ghost predicate Inv(s: State, o: Options) {
    && (forall i :: 0 <= i < |s.rows| ==> RowInv(s, o, i))
    && (forall d :: d in s.unsent + s.unmarked ==> d.row < |s.rows| && 1 <= d.attempt <= s.rows[d.row].attempts)
    && (forall d :: d in s.unmarked ==> Accepted(s.sent, d.row) >= 1)
    && (forall k :: 0 <= k < |s.sent| ==> s.sent[k] < |s.rows|)
  }

  lemma {:induction false} NotAccepted(sent: seq<RowId>, id: RowId)
    requires forall k :: 0 <= k < |sent| ==> sent[k] < id
    ensures Accepted(sent, id) == 0
  {
    if sent != [] {
      NotAccepted(sent[..|sent| - 1], id);
    }
  }

  // What a claim does to one row: taken with one more attempt, or only expired or buried.
  lemma ClaimRow(s: State, o: Options, limit: nat, staleAfterMs: nat, channels: Option<set<nat>>, i: nat)
    requires i < |s.rows|
    ensures var t := Claim(s, o, limit, staleAfterMs, channels);
            var ids := ClaimedIds(s, o, limit, staleAfterMs, channels);
            && |t.rows| == |s.rows|
            && (if i in ids then
                  && s.rows[i].attempts < o.maxAttempts
                  && t.rows[i].status == Sending && t.rows[i].attempts == s.rows[i].attempts + 1
                  && (s.rows[i].status in {Pending, Failed} || (s.rows[i].status == Sending
                       && s.rows[i].startedAt.Some? && s.rows[i].startedAt.value + staleAfterMs <= s.now))
                else t.rows[i] == Prepared(s.rows, s.now, staleAfterMs, o.maxAttempts, channels)[i])
  {
    CandidatesEligible(Prepared(s.rows, s.now, staleAfterMs, o.maxAttempts, channels), 0, limit, s.now, o.maxAttempts, channels);
  }

  lemma ClaimUnsent(s: State, o: Options, limit: nat, staleAfterMs: nat, channels: Option<set<nat>>, d: Delivery)
    requires d in Claim(s, o, limit, staleAfterMs, channels).unsent
    ensures d in s.unsent || (d.row < |s.rows| && d.row in ClaimedIds(s, o, limit, staleAfterMs, channels)
                              && d.attempt == s.rows[d.row].attempts + 1)
  {
    if d.row < |s.rows| {
      ClaimRow(s, o, limit, staleAfterMs, channels, d.row);
    }
  }

  lemma ClaimUnsentOf(s: State, o: Options, limit: nat, staleAfterMs: nat, channels: Option<set<nat>>, i: nat)
    requires i < |s.rows|
    ensures var t := Claim(s, o, limit, staleAfterMs, channels);
            UnsentOf(t, i) == if i in ClaimedIds(s, o, limit, staleAfterMs, channels)
                              then UnsentOf(s, i) + {Delivery(i, s.rows[i].attempts + 1)} else UnsentOf(s, i)
  {
    var t := Claim(s, o, limit, staleAfterMs, channels);
    ClaimRow(s, o, limit, staleAfterMs, channels, i);
    forall d | d in UnsentOf(t, i) && d !in UnsentOf(s, i) ensures d == Delivery(i, s.rows[i].attempts + 1) {
      ClaimUnsent(s, o, limit, staleAfterMs, channels, d);
    }
    if i in ClaimedIds(s, o, limit, staleAfterMs, channels) {
      assert Delivery(i, t.rows[i].attempts) in t.unsent;
    }
    if i !in ClaimedIds(s, o, limit, staleAfterMs, channels) {
      forall d | d in UnsentOf(t, i) ensures d in s.unsent {
        ClaimUnsent(s, o, limit, staleAfterMs, channels, d);
      }
    }
  }

  lemma OneMore(a: set<Delivery>, d: Delivery)
    ensures |a + {d}| <= |a| + 1
    ensures d in a ==> |a - {d}| == |a| - 1
    ensures |a - {d}| <= |a|
  {
    if d in a {
      assert a + {d} == a;
    } else {
      assert a - {d} == a;
    }
  }

  lemma ClaimKeepsRow(s: State, o: Options, limit: nat, staleAfterMs: nat, channels: Option<set<nat>>, i: nat)
    requires i < |s.rows| && RowInv(s, o, i)
    ensures RowInv(Claim(s, o, limit, staleAfterMs, channels), o, i)
    ensures s.rows[i].attempts <= Claim(s, o, limit, staleAfterMs, channels).rows[i].attempts
  {
    ClaimRow(s, o, limit, staleAfterMs, channels, i);
    ClaimUnsentOf(s, o, limit, staleAfterMs, channels, i);
    OneMore(UnsentOf(s, i), Delivery(i, s.rows[i].attempts + 1));
  }

  lemma ClaimKeepsInv(s: State, o: Options, limit: nat, staleAfterMs: nat, channels: Option<set<nat>>)
    requires Inv(s, o)
    ensures Inv(Claim(s, o, limit, staleAfterMs, channels), o)
  {
    var t := Claim(s, o, limit, staleAfterMs, channels);
    forall i | 0 <= i < |t.rows| ensures RowInv(t, o, i) && s.rows[i].attempts <= t.rows[i].attempts {
      ClaimKeepsRow(s, o, limit, staleAfterMs, channels, i);
    }
    forall d | d in t.unsent + t.unmarked ensures d.row < |t.rows| && 1 <= d.attempt <= t.rows[d.row].attempts {
      if d in t.unsent {
        ClaimUnsent(s, o, limit, staleAfterMs, channels, d);
      }
      ClaimRow(s, o, limit, staleAfterMs, channels, d.row);
    }
  }

  lemma LeaveKeepsInv(s: State, o: Options, d: Delivery)
    requires Inv(s, o)
    ensures Inv(s.(unsent := s.unsent - {d}, unmarked := s.unmarked - {d}), o)
  {
    var t := s.(unsent := s.unsent - {d}, unmarked := s.unmarked - {d});
    forall i | 0 <= i < |s.rows| ensures RowInv(t, o, i) {
      assert RowInv(s, o, i);
      assert UnsentOf(t, i) == UnsentOf(s, i) - {d};
      OneMore(UnsentOf(s, i), d);
    }
  }

  lemma DeliverCounts(s: State, o: Options, d: Delivery, i: RowId)
    requires Inv(s, o) && d in s.unsent && i < |s.rows|
    ensures var t := Next(s, o, Deliver(d));
            && Accepted(t.sent, i) == Accepted(s.sent, i) + (if i == d.row then 1 else 0)
            && Accepted(t.sent, i) + |UnsentOf(t, i)| <= t.rows[i].attempts
  {
    var t := Next(s, o, Deliver(d));
    AcceptedAppend(s.sent, d.row, i);
    assert RowInv(s, o, i);
    assert UnsentOf(t, i) == UnsentOf(s, i) - {d};
    OneMore(UnsentOf(s, i), d);
    if i == d.row {
      assert d in UnsentOf(s, i);
    }
  }

  lemma DeliverKeepsInv(s: State, o: Options, d: Delivery)
    requires Inv(s, o) && d in s.unsent
    ensures Inv(Next(s, o, Deliver(d)), o)
  {
    var t := Next(s, o, Deliver(d));
    assert t.rows == s.rows && t.unsent + t.unmarked == s.unsent + s.unmarked;
    forall i | 0 <= i < |s.rows| ensures RowInv(t, o, i) {
      assert RowInv(s, o, i);
      DeliverCounts(s, o, d, i);
    }
    forall x | x in t.unmarked ensures Accepted(t.sent, x.row) >= 1 {
      DeliverCounts(s, o, d, x.row);
    }
  }

  // Marking changes the status of at most one SENDING row.
  lemma MarkKeepsInv(s: State, o: Options, rows: seq<Row>, id: RowId)
    requires Inv(s, o) && id < |s.rows|
    requires |rows| == |s.rows| && (forall i :: 0 <= i < |rows| && i != id ==> rows[i] == s.rows[i])
    requires rows[id].attempts == s.rows[id].attempts
    requires rows[id].status.Dead? ==> rows[id].attempts == o.maxAttempts
    requires rows[id].status.Sent? ==> Accepted(s.sent, id) >= 1
    ensures Inv(s.(rows := rows), o)
  {
    forall i | 0 <= i < |rows| ensures RowInv(s.(rows := rows), o, i) {
      assert RowInv(s, o, i) && UnsentOf(s.(rows := rows), i) == UnsentOf(s, i);
    }
  }

  lemma DeadOnlyAtLimit(s: State, o: Options, d: Delivery)
    requires Inv(s, o) && d in s.unsent + s.unmarked
    ensures var rows := MarkFailed(s.rows, d.row, RetryAt(o, d.attempt, s.now), o.maxAttempts);
            && d.row < |rows| && rows[d.row].attempts == s.rows[d.row].attempts
            && (rows[d.row].status.Dead? ==> rows[d.row].attempts == o.maxAttempts)
            && (rows[d.row].status.Sent? ==> s.rows[d.row].status.Sent?)
  {
    assert RowInv(s, o, d.row);
  }

  lemma MarkSentRow(s: State, o: Options, d: Delivery)
    requires Inv(s, o) && d in s.unmarked
    ensures var rows := MarkSent(s.rows, d.row);
            && d.row < |rows| && rows[d.row].attempts == s.rows[d.row].attempts
            && (rows[d.row].status.Dead? ==> rows[d.row].attempts == o.maxAttempts)
            && Accepted(s.sent, d.row) >= 1
  {
    assert RowInv(s, o, d.row);
  }

  lemma InsertKeepsInv(s: State, o: Options, channel: nat)
    requires Inv(s, o)
    ensures Inv(Next(s, o, Insert(channel)), o)
  {
    var t := Next(s, o, Insert(channel));
    forall i | 0 <= i < |t.rows| ensures RowInv(t, o, i) {
      assert UnsentOf(t, i) == UnsentOf(s, i);
      if i == |s.rows| {
        NotAccepted(s.sent, i);
        assert UnsentOf(s, i) == {};
      } else {
        assert RowInv(s, o, i);
      }
    }
    assert Holders(t) == Holders(s);
  }

  lemma StepKeepsInv(s: State, o: Options, e: Event)
    requires Inv(s, o)
    ensures Inv(Next(s, o, e), o)
  {
    match e
    case Insert(channel) => InsertKeepsInv(s, o, channel);
    case DoClaim(limit, staleAfterMs, channels) => ClaimKeepsInv(s, o, limit, staleAfterMs, channels);
    case Deliver(d) =>
      if d in s.unsent {
        DeliverKeepsInv(s, o, d);
      }
    case DoMarkSent(d) =>
      if d in s.unmarked {
        MarkSentRow(s, o, d);
        MarkKeepsInv(s, o, MarkSent(s.rows, d.row), d.row);
        var t := s.(rows := MarkSent(s.rows, d.row));
        LeaveUnmarkedKeepsInv(t, o, d);
      }
    case DoMarkFailed(d) =>
      if d in s.unsent + s.unmarked {
        DeadOnlyAtLimit(s, o, d);
        assert RowInv(s, o, d.row);
        var rows := MarkFailed(s.rows, d.row, RetryAt(o, d.attempt, s.now), o.maxAttempts);
        MarkKeepsInv(s, o, rows, d.row);
        LeaveKeepsInv(s.(rows := rows), o, d);
      }
    case Crash(d) => LeaveKeepsInv(s, o, d);
    case Tick(ms) => TickKeepsInv(s, o, s.(now := s.now + ms));
  }

  lemma TickKeepsInv(s: State, o: Options, t: State)
    requires Inv(s, o) && t == s.(now := t.now)
    ensures Inv(t, o)
  {
    forall i | 0 <= i < |t.rows| ensures RowInv(t, o, i) {
      assert RowInv(s, o, i) && UnsentOf(t, i) == UnsentOf(s, i);
    }
  }

  lemma LeaveUnmarkedKeepsInv(s: State, o: Options, d: Delivery)
    requires Inv(s, o)
    ensures Inv(s.(unmarked := s.unmarked - {d}), o)
  {
    forall i | 0 <= i < |s.rows| ensures RowInv(s.(unmarked := s.unmarked - {d}), o, i) {
      assert RowInv(s, o, i) && UnsentOf(s.(unmarked := s.unmarked - {d}), i) == UnsentOf(s, i);
    }
  }

  lemma {:induction false} RunKeepsInv(s: State, o: Options, es: seq<Event>)
    requires Inv(s, o)
    ensures Inv(Run(s, o, es), o)
    decreases |es|
  {
    if es != [] {
      StepKeepsInv(s, o, es[0]);
      RunKeepsInv(Next(s, o, es[0]), o, es[1..]);
    }
  }

  // ----- Main results -----

  // In every run: no row is attempted or accepted by the adapter more often than the limit, a row
  // is DEAD only with its attempts at the limit, and a SENT row was accepted at least once.
  lemma BoundedDelivery(o: Options, es: seq<Event>, i: RowId)
    requires i < |Run(INITIAL, o, es).rows|
    ensures var t := Run(INITIAL, o, es);
            && Accepted(t.sent, i) <= t.rows[i].attempts <= o.maxAttempts
            && (t.rows[i].status.Dead? ==> t.rows[i].attempts == o.maxAttempts)
            && (t.rows[i].status.Sent? ==> Accepted(t.sent, i) >= 1)
  {
    RunKeepsInv(INITIAL, o, es);
    assert RowInv(Run(INITIAL, o, es), o, i);
  }

  // ----- Termination: every claim uses up attempts -----

  function Attempts(rows: seq<Row>, i: nat): nat
    decreases |rows| - i
  {
    if i >= |rows| then 0 else rows[i].attempts + Attempts(rows, i + 1)
  }

  function Remaining(rows: seq<Row>, maxAttempts: nat): int {
    |rows| * maxAttempts - Attempts(rows, 0)
  }

  lemma {:induction false} TakeSum(rows: seq<Row>, i: nat, limit: nat, before: seq<RowId>, now: nat, maxAttempts: nat,
                                   channels: Option<set<nat>>)
    requires i <= |rows| && forall x :: x in before ==> x < i
    ensures var ids := Candidates(rows, i, limit, now, maxAttempts, channels);
            Attempts(TakeAll(rows, before + ids, now), i) == Attempts(rows, i) + |ids|
    decreases |rows| - i
  {
    var ids := Candidates(rows, i, limit, now, maxAttempts, channels);
    var taken := TakeAll(rows, before + ids, now);
    CandidatesEligible(rows, i, limit, now, maxAttempts, channels);
    if i < |rows| {
      if limit > 0 && Eligible(rows[i], now, maxAttempts, channels) {
        var rest := Candidates(rows, i + 1, limit - 1, now, maxAttempts, channels);
        TakeSum(rows, i + 1, limit - 1, before + [i], now, maxAttempts, channels);
        assert before + ids == (before + [i]) + rest;
        assert i in before + ids;
      } else if limit > 0 {
        TakeSum(rows, i + 1, limit, before, now, maxAttempts, channels);
        CandidatesEligible(rows, i + 1, limit, now, maxAttempts, channels);
      } else {
        TakeSum(rows, i + 1, 0, before, now, maxAttempts, channels);
      }
    }
  }

  lemma {:induction false} SameAttempts(a: seq<Row>, b: seq<Row>, i: nat)
    requires |a| == |b| && forall k :: 0 <= k < |a| ==> a[k].attempts == b[k].attempts
    ensures Attempts(a, i) == Attempts(b, i)
    decreases |a| - i
  {
    if i < |a| {
      SameAttempts(a, b, i + 1);
    }
  }

  lemma {:induction false} AttemptsBounded(rows: seq<Row>, i: nat, maxAttempts: nat)
    requires i <= |rows| && forall k :: 0 <= k < |rows| ==> rows[k].attempts <= maxAttempts
    ensures Attempts(rows, i) <= (|rows| - i) * maxAttempts
    decreases |rows| - i
  {
    if i < |rows| {
      AttemptsBounded(rows, i + 1, maxAttempts);
      assert (|rows| - i) * maxAttempts == (|rows| - (i + 1)) * maxAttempts + maxAttempts;
    }
  }

  // The attempts left over all rows fall by exactly one per claimed message.
  lemma ClaimUsesAttempts(s: State, o: Options, limit: nat, staleAfterMs: nat, channels: Option<set<nat>>)
    ensures Remaining(Claim(s, o, limit, staleAfterMs, channels).rows, o.maxAttempts)
            == Remaining(s.rows, o.maxAttempts) - |ClaimedIds(s, o, limit, staleAfterMs, channels)|
  {
    var rows := Prepared(s.rows, s.now, staleAfterMs, o.maxAttempts, channels);
    SameAttempts(rows, s.rows, 0);
    TakeSum(rows, 0, limit, [], s.now, o.maxAttempts, channels);
    var ids := ClaimedIds(s, o, limit, staleAfterMs, channels);
    assert [] + ids == ids;
  }

  // How many messages a run claims in total.
  function Claims(s: State, o: Options, es: seq<Event>): nat
    decreases |es|
  {
    if es == [] then 0
    else
      (if es[0].DoClaim? then |ClaimedIds(s, o, es[0].limit, es[0].staleAfterMs, es[0].channels)| else 0)
      + Claims(Next(s, o, es[0]), o, es[1..])
  }

  lemma {:induction false} AttemptsAppend(rows: seq<Row>, row: Row, i: nat)
    requires i <= |rows|
    ensures Attempts(rows + [row], i) == Attempts(rows, i) + row.attempts
    decreases |rows| - i
  {
    if i < |rows| {
      AttemptsAppend(rows, row, i + 1);
    } else {
      assert Attempts(rows + [row], i + 1) == 0;
    }
  }

  lemma {:induction false} ClaimsAreAttempts(s: State, o: Options, es: seq<Event>)
    ensures Attempts(Run(s, o, es).rows, 0) == Attempts(s.rows, 0) + Claims(s, o, es)
    decreases |es|
  {
    if es != [] {
      var t := Next(s, o, es[0]);
      ClaimsAreAttempts(t, o, es[1..]);
      match es[0]
      case Insert(channel) => AttemptsAppend(s.rows, Row(channel, Pending, 0, Some(s.now), None), 0);
      case DoClaim(limit, staleAfterMs, channels) =>
        ClaimUsesAttempts(s, o, limit, staleAfterMs, channels);
        assert |t.rows| == |s.rows|;
      case _ => SameAttempts(t.rows, s.rows, 0);
    }
  }

  // However workers interleave, fail and crash, they claim at most limit messages per row in all.
  lemma ClaimsAreBounded(o: Options, es: seq<Event>)
    ensures Claims(INITIAL, o, es) <= |Run(INITIAL, o, es).rows| * o.maxAttempts
  {
    ClaimsAreAttempts(INITIAL, o, es);
    RunKeepsInv(INITIAL, o, es);
    var t := Run(INITIAL, o, es);
    forall i | 0 <= i < |t.rows| ensures t.rows[i].attempts <= o.maxAttempts {
      assert RowInv(t, o, i);
    }
    AttemptsBounded(t.rows, 0, o.maxAttempts);
  }

  // Its lease, if it has one, and its backoff are over.
  predicate Due(row: Row, now: nat, staleAfterMs: nat) {
    && (row.status.Sending? ==> row.startedAt.Some? && row.startedAt.value + staleAfterMs <= now)
    && (row.status in {Pending, Failed} ==> row.nextAttemptAt.None? || row.nextAttemptAt.value <= now)
  }

  lemma DueRowIsEligible(row: Row, o: Options, now: nat, staleAfterMs: nat)
    requires Due(row, now, staleAfterMs)
    ensures var prepared := Bury(Expire(row, now, staleAfterMs, None), o.maxAttempts, None);
            Eligible(prepared, now, o.maxAttempts, None) || prepared.status in {Sent, Dead}
  {
  }

  // An empty claim that had room, with all leases and backoffs over, means nothing is left to do.
  lemma EmptyClaimMeansDone(s: State, o: Options, limit: nat, staleAfterMs: nat, i: RowId)
    requires ClaimedIds(s, o, limit, staleAfterMs, None) == [] && limit > 0 && i < |s.rows|
    requires Due(s.rows[i], s.now, staleAfterMs)
    ensures Claim(s, o, limit, staleAfterMs, None).rows[i].status in {Sent, Dead}
  {
    var rows := Prepared(s.rows, s.now, staleAfterMs, o.maxAttempts, None);
    DueRowIsEligible(s.rows[i], o, s.now, staleAfterMs);
    if Eligible(rows[i], s.now, o.maxAttempts, None) {
      CandidatesComplete(rows, 0, limit, s.now, o.maxAttempts, None, i);
    }
  }

  // ----- When at most one worker holds a row -----

  ghost predicate OneHolder(s: State) {
    forall c, d :: c in Holders(s) && d in Holders(s) && c.row == d.row ==> c == d
  }

  // A row a claim may take, by its status, backoff and lease age.
  predicate Reclaimable(row: Row, o: Options, now: nat, staleAfterMs: nat, channels: Option<set<nat>>) {
    && OnChannel(channels, row)
    && row.attempts < o.maxAttempts
    && match row.status
       case Pending => row.nextAttemptAt.None? || row.nextAttemptAt.value <= now
       case Failed => row.nextAttemptAt.None? || row.nextAttemptAt.value <= now
       case Sending => row.startedAt.Some? && row.startedAt.value + staleAfterMs <= now
       case _ => false
  }

  // How many such rows stand before row j, from row i on.
  function Ahead(rows: seq<Row>, i: nat, j: nat, o: Options, now: nat, staleAfterMs: nat, channels: Option<set<nat>>): nat
    decreases j - i
  {
    if i >= j || i >= |rows| then 0
    else (if Reclaimable(rows[i], o, now, staleAfterMs, channels) then 1 else 0) + Ahead(rows, i + 1, j, o, now, staleAfterMs, channels)
  }

  lemma ReclaimableIsEligible(row: Row, o: Options, now: nat, staleAfterMs: nat, channels: Option<set<nat>>)
    ensures Eligible(Bury(Expire(row, now, staleAfterMs, channels), o.maxAttempts, channels), now, o.maxAttempts, channels)
            <==> Reclaimable(row, o, now, staleAfterMs, channels)
  {
  }

  lemma {:induction false} CandidatesIff(rows: seq<Row>, i: nat, limit: nat, o: Options, now: nat, staleAfterMs: nat,
                                         channels: Option<set<nat>>, j: nat)
    ensures j in Candidates(Prepared(rows, now, staleAfterMs, o.maxAttempts, channels), i, limit, now, o.maxAttempts, channels)
            <==> i <= j < |rows| && Reclaimable(rows[j], o, now, staleAfterMs, channels)
                 && Ahead(rows, i, j, o, now, staleAfterMs, channels) < limit
    decreases |rows| - i
  {
    var prepared := Prepared(rows, now, staleAfterMs, o.maxAttempts, channels);
    CandidatesEligible(prepared, i, limit, now, o.maxAttempts, channels);
    if i < |rows| {
      ReclaimableIsEligible(rows[i], o, now, staleAfterMs, channels);
      if limit > 0 {
        CandidatesIff(rows, i + 1, limit - 1, o, now, staleAfterMs, channels, j);
      }
      CandidatesIff(rows, i + 1, limit, o, now, staleAfterMs, channels, j);
    }
  }

  // The check a lease cannot make: a row that somebody still holds is not up for a claim, by its own
  // status and lease age or because enough other rows stand before it.
  ghost predicate Released(s: State, o: Options, e: Event) {
    e.DoClaim? ==> forall d :: d in Holders(s) && d.row < |s.rows| ==>
      || !Reclaimable(s.rows[d.row], o, s.now, e.staleAfterMs, e.channels)
      || Ahead(s.rows, 0, d.row, o, s.now, e.staleAfterMs, e.channels) >= e.limit
  }

  lemma ReleasedIff(s: State, o: Options, e: Event)
    requires e.DoClaim?
    ensures Released(s, o, e) <==>
              forall d :: d in Holders(s) ==> d.row !in ClaimedIds(s, o, e.limit, e.staleAfterMs, e.channels)
  {
    forall d | d in Holders(s)
      ensures d.row in ClaimedIds(s, o, e.limit, e.staleAfterMs, e.channels) <==>
                && d.row < |s.rows| && Reclaimable(s.rows[d.row], o, s.now, e.staleAfterMs, e.channels)
                && Ahead(s.rows, 0, d.row, o, s.now, e.staleAfterMs, e.channels) < e.limit
    {
      CandidatesIff(s.rows, 0, e.limit, o, s.now, e.staleAfterMs, e.channels, d.row);
    }
  }

  // A claim takes exactly the first `limit` rows that are pending, failed with their backoff over, or
  // whose lease is over, and that have attempts left, in claim order.
  lemma ClaimTakesFirst(s: State, o: Options, limit: nat, staleAfterMs: nat, channels: Option<set<nat>>, i: RowId)
    ensures Ascending(ClaimedIds(s, o, limit, staleAfterMs, channels))
    ensures i in ClaimedIds(s, o, limit, staleAfterMs, channels) <==>
              i < |s.rows| && Reclaimable(s.rows[i], o, s.now, staleAfterMs, channels)
              && Ahead(s.rows, 0, i, o, s.now, staleAfterMs, channels) < limit
  {
    CandidatesAscending(Prepared(s.rows, s.now, staleAfterMs, o.maxAttempts, channels), 0, limit, s.now, o.maxAttempts, channels);
    CandidatesIff(s.rows, 0, limit, o, s.now, staleAfterMs, channels, i);
  }

  // What a claim does to every row: a claimed one is SENDING from now on with one more attempt; on the claimed
  // channels, one without attempts left is DEAD unless a lease still protects it, and one whose lease is over
  // is FAILED and due; every other row stays.
  ghost predicate ClaimedInto(row: Row, after: Row, claimed: bool, o: Options, now: nat, staleAfterMs: nat, channels: Option<set<nat>>) {
    var expired := row.status.Sending? && row.startedAt.Some? && row.startedAt.value + staleAfterMs <= now;
    var waiting := row.status.Pending? || row.status.Failed? || expired;
    if claimed then
      && after.status.Sending? && after.attempts == row.attempts + 1 && after.startedAt == Some(now) && after.channel == row.channel
    else if OnChannel(channels, row) && waiting && row.attempts >= o.maxAttempts then
      after == Row(row.channel, Dead, row.attempts, None, None)
    else if OnChannel(channels, row) && expired then
      after == Row(row.channel, Failed, row.attempts, Some(now), None)
    else after == row
  }

  lemma ClaimWrites(s: State, o: Options, limit: nat, staleAfterMs: nat, channels: Option<set<nat>>, i: RowId)
    requires i < |s.rows|
    ensures var t := Claim(s, o, limit, staleAfterMs, channels);
            var claimed := Reclaimable(s.rows[i], o, s.now, staleAfterMs, channels) && Ahead(s.rows, 0, i, o, s.now, staleAfterMs, channels) < limit;
            && |t.rows| == |s.rows|
            && ClaimedInto(s.rows[i], t.rows[i], claimed, o, s.now, staleAfterMs, channels)
            && UnsentOf(t, i) == UnsentOf(s, i) + (if claimed then {Delivery(i, s.rows[i].attempts + 1)} else {})
  {
    ClaimTakesFirst(s, o, limit, staleAfterMs, channels, i);
    ClaimRow(s, o, limit, staleAfterMs, channels, i);
    ClaimUnsentOf(s, o, limit, staleAfterMs, channels, i);
  }

  // ----- Backoff -----

  // The wait after a failed attempt: the base at first, doubled per attempt for twenty attempts, never more
  // than the maximum.
  function Delay(o: Options, attempt: nat): nat {
    if attempt <= 1 then Min(o.maxBackoffMs, o.baseBackoffMs)
    else if attempt <= 21 then Min(o.maxBackoffMs, 2 * Delay(o, attempt - 1))
    else Delay(o, attempt - 1)
  }

  lemma DoublesOut(base: nat, power: nat)
    ensures base * (2 * power) == 2 * (base * power)
  {
  }

  lemma {:induction false} DelayIsPower(o: Options, attempt: nat)
    requires attempt >= 1
    ensures Delay(o, attempt) == Min(o.maxBackoffMs, o.baseBackoffMs * Pow2(Min(attempt - 1, 20)))
  {
    if attempt > 1 {
      DelayIsPower(o, attempt - 1);
      if attempt <= 21 {
        assert Pow2(attempt - 1) == 2 * Pow2(attempt - 2);
        DoublesOut(o.baseBackoffMs, Pow2(attempt - 2));
      }
    }
  }

  lemma RetryAfterDelay(o: Options, attempt: nat, now: nat)
    ensures RetryAt(o, attempt, now) == if attempt >= o.maxAttempts then None else Some(now + Delay(o, attempt))
  {
    DelayIsPower(o, if attempt == 0 then 1 else attempt);
    assert Pow2(0) == 1;
  }

  // A delivery that failed below the limit: no claim takes its row before the delay is over, and from then on
  // every claim of its channel that reaches it does. At the limit the row is DEAD and no claim ever takes it.
  lemma FailedRowWaits(s: State, o: Options, d: Delivery, ms: nat, limit: nat, staleAfterMs: nat, channels: Option<set<nat>>)
    requires d in Holders(s) && d.row < |s.rows| && s.rows[d.row].status.Sending?
    ensures var t := Next(s, o, DoMarkFailed(d));
            var u := Next(t, o, Tick(ms));
            var last := d.attempt >= o.maxAttempts || s.rows[d.row].attempts >= o.maxAttempts;
            && |t.rows| == |s.rows| && t.rows[d.row].status == (if last then Dead else Status.Failed)
            && (d.row in ClaimedIds(u, o, limit, staleAfterMs, channels) <==>
                  && !last && ms >= Delay(o, d.attempt) && OnChannel(channels, s.rows[d.row])
                  && Ahead(u.rows, 0, d.row, o, u.now, staleAfterMs, channels) < limit)
  {
    RetryAfterDelay(o, d.attempt, s.now);
    var u := Next(Next(s, o, DoMarkFailed(d)), o, Tick(ms));
    ClaimTakesFirst(u, o, limit, staleAfterMs, channels, d.row);
  }

  // ----- One holder over whole runs -----

  ghost predicate AlwaysOneHolder(s: State, o: Options, es: seq<Event>)
    decreases |es|
  {
    OneHolder(s) && (es == [] || AlwaysOneHolder(Next(s, o, es[0]), o, es[1..]))
  }

  ghost predicate AlwaysReleased(s: State, o: Options, es: seq<Event>)
    decreases |es|
  {
    es == [] || (Released(s, o, es[0]) && AlwaysReleased(Next(s, o, es[0]), o, es[1..]))
  }

  lemma ReleasedKeepsOneHolder(s: State, o: Options, e: Event)
    requires OneHolder(s) && e.DoClaim? && Released(s, o, e)
    ensures OneHolder(Next(s, o, e))
  {
    var t := Next(s, o, e);
    ReleasedIff(s, o, e);
    forall d | d in Holders(t) && d !in Holders(s)
      ensures d.row < |s.rows| && d.row in ClaimedIds(s, o, e.limit, e.staleAfterMs, e.channels)
      ensures d.attempt == s.rows[d.row].attempts + 1
    {
      ClaimUnsent(s, o, e.limit, e.staleAfterMs, e.channels, d);
    }
  }

  lemma ReclaimAddsHolder(s: State, o: Options, limit: nat, staleAfterMs: nat, channels: Option<set<nat>>, d: Delivery)
    requires d in Holders(s) && d.row < |s.rows| && d.row in ClaimedIds(s, o, limit, staleAfterMs, channels)
    ensures var t := Claim(s, o, limit, staleAfterMs, channels);
            d in Holders(t) && Delivery(d.row, s.rows[d.row].attempts + 1) in Holders(t)
  {
    ClaimUnsentOf(s, o, limit, staleAfterMs, channels, d.row);
    assert Delivery(d.row, s.rows[d.row].attempts + 1) in UnsentOf(Claim(s, o, limit, staleAfterMs, channels), d.row);
  }

  lemma HoldersAreBehind(s: State, o: Options)
    requires Inv(s, o)
    ensures forall d :: d in Holders(s) ==> d.row < |s.rows| && d.attempt <= s.rows[d.row].attempts
  {
  }

  lemma UnreleasedBreaksOneHolder(s: State, o: Options, e: Event)
    requires e.DoClaim? && !Released(s, o, e)
    requires forall d :: d in Holders(s) ==> d.row < |s.rows| && d.attempt <= s.rows[d.row].attempts
    ensures !OneHolder(Claim(s, o, e.limit, e.staleAfterMs, e.channels))
  {
    ReleasedIff(s, o, e);
    var d :| d in Holders(s) && d.row in ClaimedIds(s, o, e.limit, e.staleAfterMs, e.channels);
    ReclaimAddsHolder(s, o, e.limit, e.staleAfterMs, e.channels, d);
  }

  lemma StepOneHolder(s: State, o: Options, e: Event)
    requires Inv(s, o) && OneHolder(s)
    ensures OneHolder(Next(s, o, e)) <==> Released(s, o, e)
  {
    if e.DoClaim? {
      if Released(s, o, e) {
        ReleasedKeepsOneHolder(s, o, e);
      } else {
        HoldersAreBehind(s, o);
        UnreleasedBreaksOneHolder(s, o, e);
      }
    } else {
      assert Holders(Next(s, o, e)) <= Holders(s);
    }
  }

  // Over whole runs: at every moment at most one worker holds any row, if and only if no claim
  // ever took a row whose previous holder was still at work.
  lemma {:induction false} OneHolderIffReleased(s: State, o: Options, es: seq<Event>)
    requires Inv(s, o) && OneHolder(s)
    ensures AlwaysOneHolder(s, o, es) <==> AlwaysReleased(s, o, es)
    decreases |es|
  {
    if es != [] {
      StepOneHolder(s, o, es[0]);
      StepKeepsInv(s, o, es[0]);
      if OneHolder(Next(s, o, es[0])) {
        OneHolderIffReleased(Next(s, o, es[0]), o, es[1..]);
      }
    }
  }
}
