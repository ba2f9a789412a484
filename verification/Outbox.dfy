/** The outbox: leased claims with bounded attempts, backoff, dead-lettering, and the delivery worker
  * as a state machine over any number of workers that may crash or outlive their lease.
  */
module Outbox {
  import opened Wrappers

  type RowId = nat

  // ----- Data model -----

  datatype Status = Pending | Sending | Sent | Failed | Dead

  datatype Row = Row(channel: nat, status: Status, attempts: nat, nextAttemptAt: Option<nat>, startedAt: Option<nat>)

  // The worker options; every worker of a deployment shares them.
  datatype Options = Options(maxAttempts: nat, baseBackoffMs: nat, maxBackoffMs: nat)

  // One claimed message in a worker's hands: which row, and the attempt number of the claim.
  datatype Delivery = Delivery(row: RowId, attempt: nat)

  // Rows stand in claim order. unsent: claimed, not yet handed to the adapter; unmarked: accepted
  // by the adapter, not yet marked; sent: everything the adapter ever accepted.
  datatype State = State(rows: seq<Row>, unsent: set<Delivery>, unmarked: set<Delivery>, sent: seq<RowId>, now: nat)

  predicate OnChannel(channels: Option<set<nat>>, row: Row) {
    channels.None? || row.channel in channels.value
  }

  // ----- claimOutbox -----

  function Expire(row: Row, now: nat, staleAfterMs: nat, channels: Option<set<nat>>): Row {
    if row.status.Sending? && row.startedAt.Some? && row.startedAt.value + staleAfterMs <= now && OnChannel(channels, row) then
      row.(status := Failed, nextAttemptAt := Some(now), startedAt := None)
    else row
  }

  function Bury(row: Row, maxAttempts: nat, channels: Option<set<nat>>): Row {
    if row.status in {Pending, Failed} && row.attempts >= maxAttempts && OnChannel(channels, row) then
      row.(status := Dead, nextAttemptAt := None, startedAt := None)
    else row
  }

  function Prepared(rows: seq<Row>, now: nat, staleAfterMs: nat, maxAttempts: nat, channels: Option<set<nat>>): seq<Row> {
    seq(|rows|, i requires 0 <= i < |rows| => Bury(Expire(rows[i], now, staleAfterMs, channels), maxAttempts, channels))
  }

  predicate Eligible(row: Row, now: nat, maxAttempts: nat, channels: Option<set<nat>>) {
    && row.status in {Pending, Failed}
    && row.attempts < maxAttempts
    && (row.nextAttemptAt.None? || row.nextAttemptAt.value <= now)
    && OnChannel(channels, row)
  }

  // The first `limit` eligible rows from index i on, in claim order.
  function Candidates(rows: seq<Row>, i: nat, limit: nat, now: nat, maxAttempts: nat, channels: Option<set<nat>>): (ids: seq<RowId>)
    decreases |rows| - i
  {
    if i >= |rows| || limit == 0 then []
    else if Eligible(rows[i], now, maxAttempts, channels) then
      [i] + Candidates(rows, i + 1, limit - 1, now, maxAttempts, channels)
    else Candidates(rows, i + 1, limit, now, maxAttempts, channels)
  }

  function Taken(row: Row, now: nat): Row {
    row.(status := Sending, attempts := row.attempts + 1, startedAt := Some(now))
  }

  function TakeAll(rows: seq<Row>, ids: seq<RowId>, now: nat): seq<Row> {
    seq(|rows|, i requires 0 <= i < |rows| => if i in ids then Taken(rows[i], now) else rows[i])
  }

  function ClaimedIds(s: State, o: Options, limit: nat, staleAfterMs: nat, channels: Option<set<nat>>): seq<RowId> {
    Candidates(Prepared(s.rows, s.now, staleAfterMs, o.maxAttempts, channels), 0, limit, s.now, o.maxAttempts, channels)
  }

  function Claim(s: State, o: Options, limit: nat, staleAfterMs: nat, channels: Option<set<nat>>): State {
    var rows := Prepared(s.rows, s.now, staleAfterMs, o.maxAttempts, channels);
    var ids := ClaimedIds(s, o, limit, staleAfterMs, channels);
    var taken := TakeAll(rows, ids, s.now);
    s.(rows := taken, unsent := s.unsent + set i | 0 <= i < |taken| && i in ids :: Delivery(i, taken[i].attempts))
  }

  // ----- Marking -----

  function Pow2(n: nat): nat { if n == 0 then 1 else 2 * Pow2(n - 1) }

  function Min(a: nat, b: nat): nat { if a < b then a else b }

  function RetryAt(o: Options, attempts: nat, now: nat): Option<nat> {
    if attempts >= o.maxAttempts then None
    else
      var exponent := Min(if attempts == 0 then 0 else attempts - 1, 20);
      Some(now + Min(o.maxBackoffMs, o.baseBackoffMs * Pow2(exponent)))
  }

  function MarkSent(rows: seq<Row>, id: RowId): seq<Row> {
    if id < |rows| && rows[id].status.Sending? then
      rows[id := rows[id].(status := Sent, startedAt := None, nextAttemptAt := None)]
    else rows
  }

  function MarkFailed(rows: seq<Row>, id: RowId, retryAt: Option<nat>, maxAttempts: nat): seq<Row> {
    if id < |rows| && rows[id].status.Sending? then
      var dead := rows[id].attempts >= maxAttempts;
      rows[id := rows[id].(status := if dead || retryAt.None? then Dead else Failed,
                           nextAttemptAt := if dead then None else retryAt,
                           startedAt := None)]
    else rows
  }

  // ----- Runs -----

  datatype Event =
    | Insert(channel: nat)
    | DoClaim(limit: nat, staleAfterMs: nat, channels: Option<set<nat>>)
    | Deliver(d: Delivery)
    | DoMarkSent(d: Delivery)
    | DoMarkFailed(d: Delivery)
    | Crash(d: Delivery)
    | Tick(ms: nat)

  function Next(s: State, o: Options, e: Event): State {
    match e
    case Insert(channel) => s.(rows := s.rows + [Row(channel, Pending, 0, Some(s.now), None)])
    case DoClaim(limit, staleAfterMs, channels) => Claim(s, o, limit, staleAfterMs, channels)
    case Deliver(d) =>
      if d in s.unsent then s.(unsent := s.unsent - {d}, unmarked := s.unmarked + {d}, sent := s.sent + [d.row]) else s
    case DoMarkSent(d) =>
      if d in s.unmarked then s.(rows := MarkSent(s.rows, d.row), unmarked := s.unmarked - {d}) else s
    case DoMarkFailed(d) =>
      // Also from unmarked: a failing mark after an accepted delivery lands in the same handler.
      if d in s.unsent + s.unmarked then
        s.(rows := MarkFailed(s.rows, d.row, RetryAt(o, d.attempt, s.now), o.maxAttempts),
           unsent := s.unsent - {d}, unmarked := s.unmarked - {d})
      else s
    case Crash(d) => s.(unsent := s.unsent - {d}, unmarked := s.unmarked - {d})
    case Tick(ms) => s.(now := s.now + ms)
  }

  function Run(s: State, o: Options, es: seq<Event>): State
    decreases |es|
  {
    if es == [] then s else Run(Next(s, o, es[0]), o, es[1..])
  }

  const INITIAL := State([], {}, {}, [], 0)

  // ----- Facts about a claim -----

  lemma {:induction false} CandidatesEligible(rows: seq<Row>, i: nat, limit: nat, now: nat, maxAttempts: nat,
                                              channels: Option<set<nat>>)
    ensures var ids := Candidates(rows, i, limit, now, maxAttempts, channels);
            && |ids| <= limit
            && forall x :: x in ids ==> i <= x < |rows| && Eligible(rows[x], now, maxAttempts, channels)
    decreases |rows| - i
  {
    if i < |rows| && limit > 0 {
      CandidatesEligible(rows, i + 1, limit - 1, now, maxAttempts, channels);
      CandidatesEligible(rows, i + 1, limit, now, maxAttempts, channels);
    }
  }

  // No eligible row is passed over: a claim that leaves one out is full of earlier rows.
  lemma {:induction false} CandidatesComplete(rows: seq<Row>, i: nat, limit: nat, now: nat, maxAttempts: nat,
                                              channels: Option<set<nat>>, j: nat)
    requires i <= j < |rows| && Eligible(rows[j], now, maxAttempts, channels)
    ensures var ids := Candidates(rows, i, limit, now, maxAttempts, channels);
            j in ids || (|ids| == limit && forall x :: x in ids ==> x < j)
    decreases |rows| - i
  {
    if limit > 0 && i < j {
      if Eligible(rows[i], now, maxAttempts, channels) {
        CandidatesComplete(rows, i + 1, limit - 1, now, maxAttempts, channels, j);
      } else {
        CandidatesComplete(rows, i + 1, limit, now, maxAttempts, channels, j);
      }
    }
  }

  predicate Ascending(ids: seq<RowId>) {
    forall k, l :: 0 <= k < l < |ids| ==> ids[k] < ids[l]
  }

  // A claim is returned in claim order, each row once.
  lemma {:induction false} CandidatesAscending(rows: seq<Row>, i: nat, limit: nat, now: nat, maxAttempts: nat,
                                               channels: Option<set<nat>>)
    ensures Ascending(Candidates(rows, i, limit, now, maxAttempts, channels))
    decreases |rows| - i
  {
    if i < |rows| && limit > 0 {
      CandidatesAscending(rows, i + 1, limit - 1, now, maxAttempts, channels);
      CandidatesAscending(rows, i + 1, limit, now, maxAttempts, channels);
      CandidatesEligible(rows, i + 1, limit - 1, now, maxAttempts, channels);
      var rest := Candidates(rows, i + 1, limit - 1, now, maxAttempts, channels);
      assert forall k :: 0 <= k < |rest| ==> rest[k] in rest;
    }
  }
}
