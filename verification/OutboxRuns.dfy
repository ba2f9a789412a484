/** Two runs that show what the outbox does not promise. */
module OutboxRuns {
  import opened Wrappers
  import opened Outbox
  import opened OutboxSafety

  const ONCE := Options(1, 0, 0)
  const TWICE := Options(2, 0, 0)
  const STALE_MS := 1000

  function OneRow(status: Status, attempts: nat, next: Option<nat>, started: Option<nat>): seq<Row> {
    [Row(0, status, attempts, next, started)]
  }

  // A claim of a table of one eligible row takes it.
  lemma ClaimOnly(s: State, o: Options, row: Row)
    requires |s.rows| == 1
    requires row == Bury(Expire(s.rows[0], s.now, STALE_MS, None), o.maxAttempts, None)
    requires Eligible(row, s.now, o.maxAttempts, None)
    ensures ClaimedIds(s, o, 10, STALE_MS, None) == [0]
    ensures Claim(s, o, 10, STALE_MS, None) ==
            s.(rows := [Taken(row, s.now)], unsent := s.unsent + {Delivery(0, row.attempts + 1)})
  {
    var rows := Prepared(s.rows, s.now, STALE_MS, o.maxAttempts, None);
    assert rows == [row];
    assert Candidates(rows, 1, 9, s.now, o.maxAttempts, None) == [];
    assert ClaimedIds(s, o, 10, STALE_MS, None) == [0];
    assert TakeAll(rows, [0], s.now) == [Taken(row, s.now)];
    var t := Claim(s, o, 10, STALE_MS, None);
    assert t.rows == [Taken(row, s.now)];
    forall d | d in t.unsent ensures d in s.unsent + {Delivery(0, row.attempts + 1)} {
      ClaimUnsent(s, o, 10, STALE_MS, None, d);
    }
    ClaimUnsentOf(s, o, 10, STALE_MS, None, 0);
    assert Delivery(0, row.attempts + 1) in UnsentOf(t, 0);
  }

  lemma ClaimNothing(s: State, o: Options, row: Row)
    requires |s.rows| == 1
    requires row == Bury(Expire(s.rows[0], s.now, STALE_MS, None), o.maxAttempts, None)
    requires !Eligible(row, s.now, o.maxAttempts, None)
    ensures Claim(s, o, 10, STALE_MS, None) == s.(rows := [row])
  {
    var rows := Prepared(s.rows, s.now, STALE_MS, o.maxAttempts, None);
    assert rows == [row];
    assert Candidates(rows, 1, 10, s.now, o.maxAttempts, None) == [];
    assert ClaimedIds(s, o, 10, STALE_MS, None) == [];
    assert TakeAll(rows, [], s.now) == [row];
    var t := Claim(s, o, 10, STALE_MS, None);
    assert t.unsent == s.unsent;
  }

  // DEAD does not mean undelivered: the adapter accepted the only attempt, the worker died before
  // marking it, and the expired lease found no attempt left.
  lemma DeliveredThenDead()
    ensures var s1 := Next(INITIAL, ONCE, Insert(0));
            var s2 := Next(s1, ONCE, DoClaim(10, STALE_MS, None));
            var s3 := Next(s2, ONCE, Deliver(Delivery(0, 1)));
            var s4 := Next(Next(s3, ONCE, Crash(Delivery(0, 1))), ONCE, Tick(STALE_MS));
            var t := Next(s4, ONCE, DoClaim(10, STALE_MS, None));
            t.rows == OneRow(Dead, 1, None, None) && t.sent == [0]
  {
    var s1 := State(OneRow(Pending, 0, Some(0), None), {}, {}, [], 0);
    assert Next(INITIAL, ONCE, Insert(0)) == s1;
    ClaimOnly(s1, ONCE, s1.rows[0]);
    var s2 := State(OneRow(Sending, 1, Some(0), Some(0)), {Delivery(0, 1)}, {}, [], 0);
    assert Next(s1, ONCE, DoClaim(10, STALE_MS, None)) == s2;
    var s4 := s2.(unsent := {}, sent := [0], now := STALE_MS);
    assert Next(Next(Next(s2, ONCE, Deliver(Delivery(0, 1))), ONCE, Crash(Delivery(0, 1))), ONCE, Tick(STALE_MS)) == s4;
    ClaimNothing(s4, ONCE, Row(0, Dead, 1, None, None));
  }

  // A worker that outlives its lease shares the row with the worker that reclaimed it, and both
  // deliver the message.
  lemma TwoHoldersDeliverTwice()
    ensures var s1 := Next(INITIAL, TWICE, Insert(0));
            var s2 := Next(s1, TWICE, DoClaim(10, STALE_MS, None));
            var s3 := Next(s2, TWICE, Tick(STALE_MS));
            var s4 := Next(s3, TWICE, DoClaim(10, STALE_MS, None));
            var t := Next(Next(s4, TWICE, Deliver(Delivery(0, 1))), TWICE, Deliver(Delivery(0, 2)));
            !OneHolder(s4) && !Released(s3, TWICE, DoClaim(10, STALE_MS, None)) && t.sent == [0, 0]
  {
    var s1 := State(OneRow(Pending, 0, Some(0), None), {}, {}, [], 0);
    assert Next(INITIAL, TWICE, Insert(0)) == s1;
    ClaimOnly(s1, TWICE, s1.rows[0]);
    var s3 := State(OneRow(Sending, 1, Some(0), Some(0)), {Delivery(0, 1)}, {}, [], STALE_MS);
    assert Next(Next(s1, TWICE, DoClaim(10, STALE_MS, None)), TWICE, Tick(STALE_MS)) == s3;
    var failed := Row(0, Failed, 1, Some(STALE_MS), None);
    ClaimOnly(s3, TWICE, failed);
    var s4 := s3.(rows := [Taken(failed, STALE_MS)], unsent := {Delivery(0, 1), Delivery(0, 2)});
    assert Next(s3, TWICE, DoClaim(10, STALE_MS, None)) == s4;
    assert Delivery(0, 1) in Holders(s4) && Delivery(0, 2) in Holders(s4);
    assert Delivery(0, 1) in Holders(s3);
  }
}
