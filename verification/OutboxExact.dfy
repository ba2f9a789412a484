/** Exactly when the outbox delivers a row only once, and when DEAD means undelivered. */
module OutboxExact {
  import opened Wrappers
  import opened Outbox
  import opened OutboxSafety

  // The adapter has accepted the row, and the table or a live worker shows it.
  ghost predicate Visible(s: State, i: RowId) {
    IsSent(s, i) || exists d :: d in s.unmarked && d.row == i
  }

  predicate IsSent(s: State, i: RowId) { i < |s.rows| && s.rows[i].status.Sent? }

  // An acceptance loses its trace: its worker dies before the mark, marks the row as failed, or marks
  // a row that is no longer SENDING because its lease expired or another worker marked it.
  predicate Abandons(s: State, e: Event, i: RowId) {
    && (e.Crash? || e.DoMarkFailed? || (e.DoMarkSent? && !(i < |s.rows| && s.rows[i].status.Sending?)))
    && e.d in s.unmarked && e.d.row == i
  }

  predicate EverAbandons(s: State, o: Options, es: seq<Event>, i: RowId)
    decreases |es|
  {
    es != [] && (Abandons(s, es[0], i) || EverAbandons(Next(s, o, es[0]), o, es[1..], i))
  }

  // A delivery reaches the adapter after an abandoned acceptance, beside a worker whose delivery was
  // accepted, or after the row was sent.
  ghost predicate Redelivers(s: State, e: Event, i: RowId, abandoned: bool) {
    e.Deliver? && e.d in s.unsent && e.d.row == i && (abandoned || Visible(s, i))
  }

  ghost predicate EverRedelivers(s: State, o: Options, es: seq<Event>, i: RowId, abandoned: bool)
    decreases |es|
  {
    es != [] && (Redelivers(s, es[0], i, abandoned) || EverRedelivers(Next(s, o, es[0]), o, es[1..], i, abandoned || Abandons(s, es[0], i)))
  }

  // Every acceptance is visible or was abandoned.
  ghost predicate AcceptanceKnown(s: State, i: RowId, abandoned: bool) {
    Accepted(s.sent, i) > 0 <==> abandoned || Visible(s, i)
  }

  lemma SentStep(s: State, o: Options, e: Event, i: RowId)
    ensures IsSent(Next(s, o, e), i) <==>
              IsSent(s, i) || (e.DoMarkSent? && e.d in s.unmarked && e.d.row == i && i < |s.rows| && s.rows[i].status.Sending?)
  {
    if e.DoClaim? && i < |s.rows| {
      ClaimRow(s, o, e.limit, e.staleAfterMs, e.channels, i);
    }
  }

  lemma UnmarkedStep(s: State, o: Options, e: Event, d: Delivery)
    ensures d in Next(s, o, e).unmarked <==>
              || (d in s.unmarked && !((e.Crash? || e.DoMarkFailed? || e.DoMarkSent?) && e.d == d))
              || (e.Deliver? && e.d == d && d in s.unsent)
  {
  }

  lemma VisibleStep(s: State, o: Options, e: Event, i: RowId)
    ensures var delivers := e.Deliver? && e.d in s.unsent && e.d.row == i;
            && (Visible(Next(s, o, e), i) ==> Visible(s, i) || delivers)
            && (Visible(s, i) ==> Visible(Next(s, o, e), i) || Abandons(s, e, i))
            && (delivers ==> Visible(Next(s, o, e), i))
  {
    var t := Next(s, o, e);
    SentStep(s, o, e, i);
    forall d: Delivery
      ensures d in t.unmarked <==>
                || (d in s.unmarked && !((e.Crash? || e.DoMarkFailed? || e.DoMarkSent?) && e.d == d))
                || (e.Deliver? && e.d == d && d in s.unsent)
    {
      UnmarkedStep(s, o, e, d);
    }
    if exists d :: d in s.unmarked && d.row == i {
      var d :| d in s.unmarked && d.row == i;
      assert d in t.unmarked || IsSent(t, i) || Abandons(s, e, i);
    }
  }

  lemma KnownStep(s: State, o: Options, e: Event, i: RowId, abandoned: bool)
    requires AcceptanceKnown(s, i, abandoned)
    ensures AcceptanceKnown(Next(s, o, e), i, abandoned || Abandons(s, e, i))
    ensures Accepted(Next(s, o, e).sent, i) == Accepted(s.sent, i) + if e.Deliver? && e.d in s.unsent && e.d.row == i then 1 else 0
  {
    VisibleStep(s, o, e, i);
    if e.Deliver? && e.d in s.unsent {
      AcceptedAppend(s.sent, e.d.row, i);
    }
  }

  lemma {:induction false} AcceptancesGrow(s: State, o: Options, es: seq<Event>, i: RowId)
    ensures Accepted(s.sent, i) <= Accepted(Run(s, o, es).sent, i)
    decreases |es|
  {
    if es != [] {
      if es[0].Deliver? && es[0].d in s.unsent {
        AcceptedAppend(s.sent, es[0].d.row, i);
      }
      AcceptancesGrow(Next(s, o, es[0]), o, es[1..], i);
    }
  }

  // Over whole runs: a row is accepted at most once if and only if no delivery of it reaches the adapter
  // after an abandoned acceptance, beside an accepted one, or after it was sent.
  lemma {:induction false} AcceptedOnceIff(s: State, o: Options, es: seq<Event>, i: RowId, abandoned: bool)
    requires AcceptanceKnown(s, i, abandoned) && Accepted(s.sent, i) <= 1
    ensures Accepted(Run(s, o, es).sent, i) <= 1 <==> !EverRedelivers(s, o, es, i, abandoned)
    decreases |es|
  {
    if es != [] {
      KnownStep(s, o, es[0], i, abandoned);
      if Redelivers(s, es[0], i, abandoned) {
        AcceptancesGrow(Next(s, o, es[0]), o, es[1..], i);
      } else {
        AcceptedOnceIff(Next(s, o, es[0]), o, es[1..], i, abandoned || Abandons(s, es[0], i));
      }
    }
  }

  lemma {:induction false} KnownRun(s: State, o: Options, es: seq<Event>, i: RowId, abandoned: bool)
    requires AcceptanceKnown(s, i, abandoned)
    ensures AcceptanceKnown(Run(s, o, es), i, abandoned || EverAbandons(s, o, es, i))
    decreases |es|
  {
    if es != [] {
      KnownStep(s, o, es[0], i, abandoned);
      KnownRun(Next(s, o, es[0]), o, es[1..], i, abandoned || Abandons(s, es[0], i));
    }
  }

  // A DEAD row was never accepted if and only if no acceptance of it was ever abandoned and no worker
  // still has one to mark.
  lemma DeadMeansUndeliveredIff(o: Options, es: seq<Event>, i: RowId)
    requires var t := Run(INITIAL, o, es); i < |t.rows| && t.rows[i].status.Dead?
    ensures var t := Run(INITIAL, o, es);
            Accepted(t.sent, i) == 0 <==> !EverAbandons(INITIAL, o, es, i) && forall d :: d in t.unmarked ==> d.row != i
  {
    KnownRun(INITIAL, o, es, i, false);
  }

  // ----- When leases outlive the work -----

  // No claim finds the lease of a held row over, and no worker dies or fails between the adapter's
  // acceptance and the mark.
  ghost predicate Undisturbed(s: State, e: Event) {
    && (e.DoClaim? ==> forall d :: d in Holders(s) && d.row < |s.rows| ==> !LeaseOver(s.rows[d.row], s.now, e.staleAfterMs))
    && (e.Crash? || e.DoMarkFailed? ==> e.d !in s.unmarked)
  }

  predicate LeaseOver(row: Row, now: nat, staleAfterMs: nat) {
    row.status.Sending? && row.startedAt.Some? && row.startedAt.value + staleAfterMs <= now
  }

  ghost predicate UndisturbedRun(s: State, o: Options, es: seq<Event>)
    decreases |es|
  {
    es == [] || (Undisturbed(s, es[0]) && UndisturbedRun(Next(s, o, es[0]), o, es[1..]))
  }

  // A held row is SENDING and has one holder.
  ghost predicate HeldRow(s: State, d: Delivery) { d.row < |s.rows| && s.rows[d.row].status.Sending? }

  ghost predicate Held(s: State) {
    && s.unsent !! s.unmarked
    && OneHolder(s)
    && forall d :: d in Holders(s) ==> HeldRow(s, d)
  }

  lemma ClaimKeepsHeldRow(s: State, o: Options, e: Event, d: Delivery)
    requires e.DoClaim? && HeldRow(s, d) && !LeaseOver(s.rows[d.row], s.now, e.staleAfterMs)
    ensures var t := Claim(s, o, e.limit, e.staleAfterMs, e.channels);
            HeldRow(t, d) && d.row !in ClaimedIds(s, o, e.limit, e.staleAfterMs, e.channels)
  {
    ClaimRow(s, o, e.limit, e.staleAfterMs, e.channels, d.row);
    CandidatesIff(s.rows, 0, e.limit, o, s.now, e.staleAfterMs, e.channels, d.row);
  }

  lemma ClaimKeepsHeld(s: State, o: Options, e: Event)
    requires Held(s) && e.DoClaim? && Undisturbed(s, e)
    ensures Held(Next(s, o, e))
  {
    var t := Next(s, o, e);
    forall d | d in Holders(s)
      ensures HeldRow(t, d) && d.row !in ClaimedIds(s, o, e.limit, e.staleAfterMs, e.channels)
    {
      ClaimKeepsHeldRow(s, o, e, d);
    }
    ReleasedIff(s, o, e);
    ReleasedKeepsOneHolder(s, o, e);
    forall d | d in t.unsent && d !in s.unsent ensures HeldRow(t, d) && d !in s.unmarked {
      ClaimUnsent(s, o, e.limit, e.staleAfterMs, e.channels, d);
      ClaimRow(s, o, e.limit, e.staleAfterMs, e.channels, d.row);
    }
  }

  // Marking a row ends the only hold on it.
  lemma MarkKeepsHeld(s: State, t: State, d: Delivery)
    requires Held(s) && d in Holders(s)
    requires t.unsent == s.unsent - {d} && t.unmarked == s.unmarked - {d}
    requires |t.rows| == |s.rows| && forall i :: 0 <= i < |s.rows| && i != d.row ==> t.rows[i] == s.rows[i]
    ensures Held(t)
  {
    forall x | x in Holders(t) ensures HeldRow(t, x) {
      assert x in Holders(s) && HeldRow(s, x);
      assert x.row != d.row;
    }
  }

  lemma OtherKeepsHeld(s: State, o: Options, e: Event)
    requires Held(s) && !e.DoClaim? && !e.DoMarkSent? && !e.DoMarkFailed?
    ensures Held(Next(s, o, e))
  {
    var t := Next(s, o, e);
    assert Holders(t) <= Holders(s);
    forall d | d in Holders(t) ensures HeldRow(t, d) { assert HeldRow(s, d); }
  }

  lemma HeldStep(s: State, o: Options, e: Event)
    requires Held(s) && Undisturbed(s, e)
    ensures Held(Next(s, o, e))
  {
    match e
    case DoClaim(_, _, _) => ClaimKeepsHeld(s, o, e);
    case DoMarkSent(d) =>
      if d in s.unmarked {
        assert s.unsent - {d} == s.unsent;
        MarkKeepsHeld(s, Next(s, o, e), d);
      }
    case DoMarkFailed(d) =>
      if d in s.unsent + s.unmarked {
        MarkKeepsHeld(s, Next(s, o, e), d);
      }
    case _ => OtherKeepsHeld(s, o, e);
  }

  lemma HeldNeverRedelivers(s: State, e: Event, i: RowId)
    requires Held(s) && Undisturbed(s, e)
    ensures !Redelivers(s, e, i, false) && !Abandons(s, e, i)
  {
    if e.Deliver? && e.d in s.unsent && e.d.row == i {
      assert e.d in Holders(s) && HeldRow(s, e.d);
      forall d | d in s.unmarked ensures d.row != i {
        assert d in Holders(s);
      }
    }
    if e.DoMarkSent? && e.d in s.unmarked {
      assert e.d in Holders(s) && HeldRow(s, e.d);
    }
  }

  lemma {:induction false} UndisturbedNever(s: State, o: Options, es: seq<Event>, i: RowId)
    requires Held(s) && UndisturbedRun(s, o, es)
    ensures !EverRedelivers(s, o, es, i, false) && !EverAbandons(s, o, es, i) && Held(Run(s, o, es))
    decreases |es|
  {
    if es != [] {
      HeldNeverRedelivers(s, es[0], i);
      HeldStep(s, o, es[0]);
      UndisturbedNever(Next(s, o, es[0]), o, es[1..], i);
    }
  }

  // As long as leases outlive the work and no worker dies or fails between acceptance and mark, every row
  // is accepted at most once and a DEAD row never, whatever fails or crashes before the acceptance.
  lemma UndisturbedDeliversOnce(o: Options, es: seq<Event>, i: RowId)
    requires UndisturbedRun(INITIAL, o, es)
    ensures var t := Run(INITIAL, o, es);
            && Accepted(t.sent, i) <= 1
            && (i < |t.rows| && t.rows[i].status.Dead? ==> Accepted(t.sent, i) == 0)
  {
    UndisturbedNever(INITIAL, o, es, i);
    AcceptedOnceIff(INITIAL, o, es, i, false);
    var t := Run(INITIAL, o, es);
    if i < |t.rows| && t.rows[i].status.Dead? {
      forall d | d in t.unmarked ensures d.row != i {
        assert d in Holders(t) && HeldRow(t, d);
      }
      DeadMeansUndeliveredIff(o, es, i);
    }
  }
}
