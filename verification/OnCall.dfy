/** Write skew: N transactions that go off call when more than one is on call, with and without
  * commit-time validation of what they read.
  */
module OnCall {
  type Doctor = nat

  // A transaction in progress: what it counted, and the version of the table it read.
  datatype Snapshot = Snapshot(count: nat, version: nat)

  datatype State = State(onCall: set<Doctor>, version: nat, open: map<Doctor, Snapshot>, finished: set<Doctor>,
                         aborts: map<Doctor, nat>)

  datatype Event = Begin(d: Doctor) | Commit(d: Doctor)

  function Aborts(s: State, d: Doctor): nat { if d in s.aborts then s.aborts[d] else 0 }

  function BeginTx(s: State, d: Doctor): State {
    if d in s.open || d in s.finished then s else s.(open := s.open[d := Snapshot(|s.onCall|, s.version)])
  }

  function Finish(s: State, d: Doctor, leaves: bool): State {
    s.(onCall := if leaves then s.onCall - {d} else s.onCall, version := if leaves then s.version + 1 else s.version,
       open := s.open - {d}, finished := s.finished + {d})
  }

  // With validation a transaction whose read was overtaken is aborted and may begin again.
  function CommitTx(s: State, d: Doctor, validated: bool): State {
    if d !in s.open then s
    else if validated && s.open[d].version != s.version then
      s.(open := s.open - {d}, aborts := s.aborts[d := Aborts(s, d) + 1])
    else Finish(s, d, s.open[d].count > 1)
  }

  function Next(s: State, e: Event, validated: bool): State {
    match e
    case Begin(d) => BeginTx(s, d)
    case Commit(d) => CommitTx(s, d, validated)
  }

  function Run(s: State, es: seq<Event>, validated: bool): State
    decreases |es|
  {
    if es == [] then s else Run(Next(s, es[0], validated), es[1..], validated)
  }

  function Initial(doctors: set<Doctor>): State { State(doctors, 0, map[], {}, map[]) }

  // ----- With validation -----

  ghost predicate Inv(doctors: set<Doctor>, s: State) {
    && s.onCall <= doctors && s.onCall != {}
    && s.version + |s.onCall| <= |doctors|
    && (forall d :: d in s.open ==> s.open[d].version <= s.version)
    && (forall d :: d in s.open && s.open[d].version == s.version ==> s.open[d].count == |s.onCall|)
    && (forall d :: d in s.finished && d in s.onCall ==> |s.onCall| == 1)
    && (forall d :: Aborts(s, d) <= if d in s.open then s.open[d].version else s.version)
  }

  predicate Takes(doctors: set<Doctor>, es: seq<Event>) {
    forall i :: 0 <= i < |es| ==> es[i].d in doctors
  }

  lemma Leaving(s: State, d: Doctor)
    requires s.onCall != {} && d in s.onCall
    ensures |s.onCall - {d}| == |s.onCall| - 1
    ensures |s.onCall| > 1 ==> s.onCall - {d} != {}
  {
  }

  lemma CommitKeepsInv(doctors: set<Doctor>, s: State, d: Doctor)
    requires Inv(doctors, s) && d in s.open
    requires d in s.finished ==> d !in s.open
    requires d !in s.onCall ==> d in s.finished
    ensures Inv(doctors, CommitTx(s, d, true))
  {
    var t := CommitTx(s, d, true);
    if s.open[d].version == s.version {
      Leaving(s, d);
    }
  }

  // Doctors are on call until they finish, and are never open and finished at once.
  ghost predicate Shape(doctors: set<Doctor>, s: State) {
    && (forall d :: d in doctors && d !in s.finished ==> d in s.onCall)
    && (forall d :: d in s.open ==> d in doctors && d !in s.finished)
    && s.finished <= doctors
  }

  lemma StepKeeps(doctors: set<Doctor>, s: State, e: Event)
    requires Inv(doctors, s) && Shape(doctors, s) && e.d in doctors
    ensures Inv(doctors, Next(s, e, true)) && Shape(doctors, Next(s, e, true))
  {
    match e
    case Begin(d) =>
    case Commit(d) =>
      if d in s.open {
        CommitKeepsInv(doctors, s, d);
      }
  }

  lemma {:induction false} RunKeeps(doctors: set<Doctor>, s: State, es: seq<Event>)
    requires Inv(doctors, s) && Shape(doctors, s) && Takes(doctors, es)
    ensures Inv(doctors, Run(s, es, true)) && Shape(doctors, Run(s, es, true))
    decreases |es|
  {
    if es != [] {
      StepKeeps(doctors, s, es[0]);
      RunKeeps(doctors, Next(s, es[0], true), es[1..]);
    }
  }

  // In every interleaving of any number of doctors: somebody is always on call; once all have
  // finished exactly one is; and nobody is aborted more often than there are other doctors, so
  // |doctors| attempts are always enough.
  lemma SomebodyStaysOnCall(doctors: set<Doctor>, es: seq<Event>, d: Doctor)
    requires doctors != {} && Takes(doctors, es)
    ensures var t := Run(Initial(doctors), es, true);
            && |t.onCall| >= 1
            && (t.finished == doctors ==> |t.onCall| == 1)
            && Aborts(t, d) <= |doctors| - 1
  {
    assert Inv(doctors, Initial(doctors)) && Shape(doctors, Initial(doctors));
    RunKeeps(doctors, Initial(doctors), es);
    var t := Run(Initial(doctors), es, true);
    var x :| x in t.onCall;
  }

  // ----- Without validation -----

  // The last one on call commits on a read that another doctor's leaving commit has overtaken.
  predicate Overtaken(s: State, e: Event) {
    e.Commit? && e.d in s.open && s.open[e.d].version < s.version && s.onCall == {e.d}
  }

  predicate NeverOvertaken(s: State, es: seq<Event>)
    decreases |es|
  {
    es == [] || (!Overtaken(s, es[0]) && NeverOvertaken(Next(s, es[0], false), es[1..]))
  }

  // Every open read saw those who are still on call and those who have left since.
  ghost predicate ReadsSound(s: State) {
    forall d :: d in s.open ==> s.open[d].version <= s.version && s.open[d].count + s.open[d].version == |s.onCall| + s.version
  }

  lemma ReadsStep(doctors: set<Doctor>, s: State, e: Event)
    requires ReadsSound(s) && Shape(doctors, s) && e.d in doctors
    ensures ReadsSound(Next(s, e, false)) && Shape(doctors, Next(s, e, false))
  {
    if e.Commit? && e.d in s.open && s.open[e.d].count > 1 {
      assert e.d in s.onCall;
      Leaving(s, e.d);
    }
  }

  lemma {:induction false} EmptyStaysEmpty(s: State, es: seq<Event>)
    requires s.onCall == {}
    ensures Run(s, es, false).onCall == {}
    decreases |es|
  {
    if es != [] {
      EmptyStaysEmpty(Next(s, es[0], false), es[1..]);
    }
  }

  lemma LastOneLeaves(doctors: set<Doctor>, s: State, e: Event)
    requires ReadsSound(s) && Shape(doctors, s) && s.onCall != {} && e.d in doctors
    ensures Next(s, e, false).onCall == {} <==> Overtaken(s, e)
  {
    if Next(s, e, false).onCall == {} {
      var x :| x in s.onCall;
      assert s.onCall == {e.d};
    }
  }

  // Without validation the run keeps somebody on call if and only if the last one on call never commits
  // on a read that overlaps another doctor's leaving.
  lemma {:induction false} UnvalidatedIffNeverOvertaken(doctors: set<Doctor>, s: State, es: seq<Event>)
    requires ReadsSound(s) && Shape(doctors, s) && s.onCall != {} && Takes(doctors, es)
    ensures Run(s, es, false).onCall != {} <==> NeverOvertaken(s, es)
    decreases |es|
  {
    if es != [] {
      var t := Next(s, es[0], false);
      LastOneLeaves(doctors, s, es[0]);
      ReadsStep(doctors, s, es[0]);
      if t.onCall == {} {
        EmptyStaysEmpty(t, es[1..]);
      } else {
        UnvalidatedIffNeverOvertaken(doctors, t, es[1..]);
      }
    }
  }

  // The two-doctor run of the write skew: both read two, both leave.
  lemma WriteSkew()
    ensures Run(Initial({1, 2}), [Begin(1), Begin(2), Commit(1), Commit(2)], false).onCall == {}
  {
    var s0 := Initial({1, 2});
    var s1 := Next(s0, Begin(1), false);
    var s2 := Next(s1, Begin(2), false);
    var s3 := Next(s2, Commit(1), false);
    assert |{1, 2}| == 2;
    assert s2.open[1].count == 2 && s2.open[2].count == 2;
    assert s3.onCall == {2};
    assert Next(s3, Commit(2), false).onCall == {};
    assert [Begin(1), Begin(2), Commit(1), Commit(2)][1..] == [Begin(2), Commit(1), Commit(2)];
    assert [Begin(2), Commit(1), Commit(2)][1..] == [Commit(1), Commit(2)];
    assert [Commit(1), Commit(2)][1..] == [Commit(2)] && [Commit(2)][1..] == [];
    assert Run(s0, [Begin(1), Begin(2), Commit(1), Commit(2)], false) == Run(s1, [Begin(2), Commit(1), Commit(2)], false);
    assert Run(s1, [Begin(2), Commit(1), Commit(2)], false) == Run(s2, [Commit(1), Commit(2)], false);
    assert Run(s2, [Commit(1), Commit(2)], false) == Run(s3, [Commit(2)], false);
  }
}
