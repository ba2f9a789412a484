/** The capture transaction: replay, locks and checks, then the Ball, the attempt, the encounter, the
  * battle, the Pokemon and the message all together or not at all, wherever the process dies.
  */
module Capture {
  import opened Wrappers
  import opened Roster

  // ----- Data model: one player, one encounter with its wild roster, and its battle if any -----

  datatype EncounterStatus = Engaged | InBattle | Resolving | Captured

  datatype WildStatus = WildActive | WildCaptured | WildFainted

  datatype BattleStatus = BattleActive | BattleCancelled

  // alive: wild combatants still standing, in roster order; fainted: the others; active: the one on
  // the field.
  datatype Battle = Battle(status: BattleStatus, version: nat, alive: seq<nat>, fainted: seq<nat>, active: nat)

  datatype AttemptStatus = Pending | Failed | Caught(pokemon: nat, slot: Slot)

  // What a request asks for, as it is fingerprinted.
  datatype Ask = Ask(wildNo: nat, expectedRevision: nat, expectedVersion: Option<nat>)

  datatype Attempt = Attempt(key: nat, ask: Ask, status: AttemptStatus)

  datatype State = State(
    status: EncounterStatus, revision: nat, wilds: map<nat, WildStatus>, battle: Option<Battle>,
    balls: nat, spent: seq<nat>, attempts: seq<Attempt>, roster: seq<Placed>, nextPokemon: nat, outbox: seq<nat>)

  datatype Error =
    | FingerprintMismatch | IntegrityError | NotFound | NotReady | RevisionConflict | BattleVersionConflict
    | ValidationFailed | InsufficientBall

  datatype Outcome = Done(status: AttemptStatus) | Replay(status: AttemptStatus) | Refused(error: Error) | Crashed

  // The verdicts of reads outside the model: player and ruleset checks, and the turn reservation.
  datatype Verdict = Verdict(ready: bool, turnGranted: bool, success: bool)

  function FindAttempt(attempts: seq<Attempt>, key: nat): Option<Attempt> {
    if attempts == [] then None
    else if attempts[0].key == key then Some(attempts[0])
    else FindAttempt(attempts[1..], key)
  }

  function ReplayOf(a: Attempt, ask: Ask): Outcome {
    if a.ask != ask then Refused(FingerprintMismatch)
    else if a.status.Pending? then Refused(IntegrityError)
    else Replay(a.status)
  }

  // The checks between the locks and the first write.
  function Check(s: State, ask: Ask, v: Verdict): Option<Error> {
    if s.status !in {Engaged, InBattle} then Some(NotFound)
    else if !v.ready then Some(NotReady)
    else if s.revision != ask.expectedRevision then Some(RevisionConflict)
    else if s.status.Engaged? then
      if ask.expectedVersion.Some? || s.battle.Some? then Some(NotReady) else None
    else if ask.expectedVersion.None? then Some(ValidationFailed)
    else if s.battle.None? || !s.battle.value.status.BattleActive? || s.battle.value.active != ask.wildNo
            || ask.wildNo !in s.battle.value.alive then Some(NotReady)
    else if s.battle.value.version != ask.expectedVersion.value then Some(BattleVersionConflict)
    else if !v.turnGranted then Some(NotReady)
    else None
  }

  // ----- The ports that write, in their order -----

  function BeginResolving(s: State): State {
    s.(status := Resolving, revision := s.revision + 1)
  }

  function InsertPending(s: State, key: nat, ask: Ask): State {
    s.(attempts := s.attempts + [Attempt(key, ask, Pending)])
  }

  function ConsumeBall(s: State, key: nat): State
    requires s.balls >= 1
  {
    s.(balls := s.balls - 1, spent := s.spent + [key])
  }

  function Finalize(s: State, status: AttemptStatus): State
    requires s.attempts != []
  {
    var last := |s.attempts| - 1;
    s.(attempts := s.attempts[last := s.attempts[last].(status := status)], outbox := s.outbox + [s.attempts[last].key])
  }

  function ResolveFailure(s: State, source: EncounterStatus): State
    requires s.attempts != []
  {
    Finalize(s.(status := source, revision := s.revision + 1), Failed)
  }

  function Without(xs: seq<nat>, x: nat): seq<nat> {
    if xs == [] then [] else (if xs[0] == x then [] else [xs[0]]) + Without(xs[1..], x)
  }

  function MarkFainted(wilds: map<nat, WildStatus>, fainted: seq<nat>): map<nat, WildStatus> {
    map w | w in wilds :: if w in fainted && wilds[w].WildActive? then WildFainted else wilds[w]
  }

  predicate NoneActive(wilds: map<nat, WildStatus>) {
    forall w :: w in wilds ==> !wilds[w].WildActive?
  }

  // The battle after a wild was taken out of it: cancelled when it was the last one standing.
  function BattleAfter(b: Battle, wildNo: nat): Battle {
    var remaining := Without(b.alive, wildNo);
    if remaining == [] then b.(status := BattleCancelled, version := b.version + 1)
    else b.(version := b.version + 1, alive := remaining, active := remaining[0])
  }

  // None when the wild row or the battle contradicts the capture: the transaction throws.
  function ResolveSuccess(s: State, source: EncounterStatus, wildNo: nat): Option<State>
    requires s.attempts != []
  {
    if wildNo !in s.wilds || !s.wilds[wildNo].WildActive? || (source.InBattle? && s.battle.None?) then None
    else
      var taken := s.wilds[wildNo := WildCaptured];
      var wilds := if source.InBattle? then MarkFainted(taken, s.battle.value.fainted) else taken;
      var battle := if source.InBattle? then Some(BattleAfter(s.battle.value, wildNo)) else s.battle;
      var terminal := NoneActive(wilds);
      if !terminal && source.InBattle? && battle.value.status.BattleCancelled? then None
      else
        var slot := NextPlacement(s.roster);
        var placed := s.(roster := s.roster + [Placed(slot, s.nextPokemon)], nextPokemon := s.nextPokemon + 1, wilds := wilds,
                         battle := battle, status := if terminal then Captured else source, revision := s.revision + 1);
        Some(Finalize(placed, Caught(s.nextPokemon, slot)))
  }

  // The whole transaction; `crash` stands for a process that dies before COMMIT, after any port.
  function AttemptCapture(s: State, key: nat, ask: Ask, v: Verdict, crash: bool): (State, Outcome) {
    var existing := FindAttempt(s.attempts, key);
    if crash then (s, Crashed)
    else if existing.Some? then (s, ReplayOf(existing.value, ask))
    else if Check(s, ask, v).Some? then (s, Refused(Check(s, ask, v).value))
    else if s.balls == 0 then (s, Refused(InsufficientBall))
    else
      var pending := ConsumeBall(InsertPending(BeginResolving(s), key, ask), key);
      if !v.success then (ResolveFailure(pending, s.status), Done(Failed))
      else
        var resolved := ResolveSuccess(pending, s.status, ask.wildNo);
        if resolved.None? then (s, Refused(IntegrityError))
        else (resolved.value, Done(resolved.value.attempts[|resolved.value.attempts| - 1].status))
  }

  datatype Event = Event(key: nat, ask: Ask, verdict: Verdict, crash: bool)

  function Next(s: State, e: Event): State {
    AttemptCapture(s, e.key, e.ask, e.verdict, e.crash).0
  }

  function Run(s: State, es: seq<Event>): State
    decreases |es|
  {
    if es == [] then s else Run(Next(s, es[0]), es[1..])
  }

  // ----- Invariant -----

  ghost predicate BattleFits(s: State) {
    match s.battle
    case None => !s.status.InBattle?
    case Some(b) =>
      && (s.status.InBattle? <==> b.status.BattleActive?)
      && (b.status.BattleActive? ==>
            && (forall w :: w in b.alive ==> w in s.wilds && s.wilds[w].WildActive?)
            && (forall w :: w in s.wilds && s.wilds[w].WildActive? ==> w in b.alive || w in b.fainted)
            && (forall w :: w in b.alive ==> w !in b.fainted))
  }

  // Every attempt is decided and has its own key, Ball and message.
  predicate AttemptsFinal(attempts: seq<Attempt>, spent: seq<nat>, outbox: seq<nat>) {
    && (forall i :: 0 <= i < |attempts| ==> !attempts[i].status.Pending?)
    && (forall i, j :: 0 <= i < j < |attempts| ==> attempts[i].key != attempts[j].key)
    && |spent| == |attempts| == |outbox|
    && (forall i :: 0 <= i < |attempts| ==> spent[i] == outbox[i] == attempts[i].key)
  }

  predicate RosterUnique(roster: seq<Placed>, nextPokemon: nat) {
    && (forall i, j :: 0 <= i < j < |roster| ==> roster[i].slot != roster[j].slot && roster[i].pokemon != roster[j].pokemon)
    && (forall i :: 0 <= i < |roster| ==> roster[i].pokemon < nextPokemon)
  }

  predicate CatchesPlaced(attempts: seq<Attempt>, roster: seq<Placed>) {
    forall i :: 0 <= i < |attempts| && attempts[i].status.Caught? ==>
      Placed(attempts[i].status.slot, attempts[i].status.pokemon) in roster
  }

  ghost predicate EncounterFits(s: State) {
    && s.status in {Engaged, InBattle, Captured}
    && (s.status.Captured? ==> NoneActive(s.wilds))
    && BattleFits(s)
  }

  ghost predicate Settled(s: State) {
    && EncounterFits(s)
    && AttemptsFinal(s.attempts, s.spent, s.outbox)
    && RosterUnique(s.roster, s.nextPokemon)
    && CatchesPlaced(s.attempts, s.roster)
  }

  function Catches(attempts: seq<Attempt>): nat {
    if attempts == [] then 0
    else Catches(attempts[..|attempts| - 1]) + if attempts[|attempts| - 1].status.Caught? then 1 else 0
  }

  function VersionOf(s: State): nat {
    if s.battle.Some? then s.battle.value.version else 0
  }

  // What every committed attempt has paid and left behind since `start`.
  ghost predicate Accounted(start: State, s: State) {
    && s.balls + |s.attempts| == start.balls + |start.attempts|
    && s.revision == start.revision + 2 * (|s.attempts| - |start.attempts|)
    && start.attempts <= s.attempts
    && |s.roster| == |start.roster| + Catches(s.attempts) - Catches(start.attempts)
    && s.nextPokemon == start.nextPokemon + Catches(s.attempts) - Catches(start.attempts)
    && (s.battle.Some? <==> start.battle.Some?)
    && (s.battle.Some? ==> VersionOf(s) == VersionOf(start) + Catches(s.attempts) - Catches(start.attempts))
  }

  lemma {:induction false} FindNone(attempts: seq<Attempt>, key: nat)
    ensures FindAttempt(attempts, key).None? <==> forall i :: 0 <= i < |attempts| ==> attempts[i].key != key
  {
    if attempts != [] {
      FindNone(attempts[1..], key);
      if attempts[0].key != key {
        assert forall i :: 0 < i < |attempts| ==> attempts[i] == attempts[1..][i - 1];
      }
    }
  }

  lemma {:induction false} WithoutExact(xs: seq<nat>, x: nat)
    ensures forall y :: y in Without(xs, x) <==> y in xs && y != x
  {
    if xs != [] {
      WithoutExact(xs[1..], x);
      assert xs == [xs[0]] + xs[1..];
    }
  }

  lemma CatchesAppend(attempts: seq<Attempt>, a: Attempt)
    ensures Catches(attempts + [a]) == Catches(attempts) + if a.status.Caught? then 1 else 0
  {
    assert (attempts + [a])[..|attempts|] == attempts;
  }

  // ----- What a committed attempt changes -----

  lemma FailureEffect(s: State, key: nat, ask: Ask, v: Verdict)
    requires AttemptCapture(s, key, ask, v, false).1 == Done(Failed)
    ensures var t := AttemptCapture(s, key, ask, v, false).0;
            t == s.(revision := s.revision + 2, balls := s.balls - 1, spent := s.spent + [key], outbox := s.outbox + [key],
                    attempts := s.attempts + [Attempt(key, ask, Failed)])
  {
    var pending := ConsumeBall(InsertPending(BeginResolving(s), key, ask), key);
    assert pending.attempts[|s.attempts| := Attempt(key, ask, Failed)] == s.attempts + [Attempt(key, ask, Failed)];
  }

  // The other wild Pokemon stay as they are, except that in a battle the ones beaten there are settled.
  predicate OthersLeft(s: State, t: State, wildNo: nat) {
    && t.wilds.Keys == s.wilds.Keys
    && forall w :: w in s.wilds && w != wildNo ==>
         t.wilds[w] == if s.wilds[w].WildActive? && s.status.InBattle? && s.battle.Some? && w in s.battle.value.fainted then WildFainted
                       else s.wilds[w]
  }

  // The battle goes on against the first wild Pokemon still standing.
  ghost predicate FightsOn(b: Battle, c: Battle, wildNo: nat) {
    && c.status == b.status && c.fainted == b.fainted
    && (forall w :: w in c.alive <==> w in b.alive && w != wildNo)
    && exists i :: 0 <= i < |b.alive| && b.alive[i] == c.active != wildNo && forall j :: 0 <= j < i ==> b.alive[j] == wildNo
  }

  lemma {:induction false} WithoutFirst(xs: seq<nat>, x: nat)
    ensures Without(xs, x) != [] ==>
              exists i :: 0 <= i < |xs| && xs[i] == Without(xs, x)[0] != x && forall j :: 0 <= j < i ==> xs[j] == x
  {
    if xs != [] && xs[0] == x && Without(xs, x) != [] {
      WithoutFirst(xs[1..], x);
      var i :| 0 <= i < |xs[1..]| && xs[1..][i] == Without(xs[1..], x)[0] != x && forall j :: 0 <= j < i ==> xs[1..][j] == x;
      assert xs[i + 1] == Without(xs, x)[0];
      assert forall j :: 0 < j < i + 1 ==> xs[j] == xs[1..][j - 1];
    }
  }

  // A successful capture puts one new Pokemon into the first free slot, pays one Ball and closes the
  // encounter with its battle, or goes on with the next wild Pokemon.
  lemma SuccessEffect(s: State, key: nat, ask: Ask, v: Verdict)
    requires AttemptCapture(s, key, ask, v, false).1.Done? && AttemptCapture(s, key, ask, v, false).1.status.Caught?
    requires BattleFits(s)
    ensures var t := AttemptCapture(s, key, ask, v, false).0;
            var slot := NextPlacement(s.roster);
            && t.roster == s.roster + [Placed(slot, s.nextPokemon)] && t.nextPokemon == s.nextPokemon + 1
            && t.attempts == s.attempts + [Attempt(key, ask, Caught(s.nextPokemon, slot))]
            && t.balls == s.balls - 1 && t.spent == s.spent + [key] && t.outbox == s.outbox + [key]
            && t.revision == s.revision + 2
            && ask.wildNo in t.wilds && t.wilds[ask.wildNo].WildCaptured?
            && OthersLeft(s, t, ask.wildNo)
            && (t.status == Captured <==> NoneActive(t.wilds)) && (t.status != Captured ==> t.status == s.status)
            && (s.battle.None? ==> t.battle.None?)
            && (s.battle.Some? ==>
                  && t.battle.Some? && t.battle.value.version == s.battle.value.version + 1
                  && (t.battle.value.status.BattleCancelled? <==> t.status == Captured)
                  && (t.status != Captured ==> FightsOn(s.battle.value, t.battle.value, ask.wildNo)))
  {
    var pending := ConsumeBall(InsertPending(BeginResolving(s), key, ask), key);
    var slot := NextPlacement(s.roster);
    assert pending.attempts[|s.attempts| := Attempt(key, ask, Caught(s.nextPokemon, slot))]
           == s.attempts + [Attempt(key, ask, Caught(s.nextPokemon, slot))];
    if s.battle.Some? {
      WithoutExact(s.battle.value.alive, ask.wildNo);
      WithoutFirst(s.battle.value.alive, ask.wildNo);
      var t := AttemptCapture(s, key, ask, v, false).0;
      var remaining := Without(s.battle.value.alive, ask.wildNo);
      if remaining != [] {
        assert remaining[0] in remaining;
        assert t.wilds[remaining[0]].WildActive?;
      }
    }
  }

  // ----- When an attempt takes effect, and with which outcome -----

  // What the tables must show: the expected revision, and either no battle at all or an active one at
  // the expected version with this wild Pokemon on the field, still standing.
  predicate MayThrow(s: State, ask: Ask, v: Verdict) {
    && v.ready && s.revision == ask.expectedRevision
    && match s.status
       case Engaged => ask.expectedVersion.None? && s.battle.None?
       case InBattle =>
         && v.turnGranted && s.battle.Some? && s.battle.value.status.BattleActive?
         && s.battle.value.active == ask.wildNo && ask.wildNo in s.battle.value.alive
         && ask.expectedVersion == Some(s.battle.value.version)
       case _ => false
  }

  predicate Fresh(attempts: seq<Attempt>, key: nat) {
    forall i :: 0 <= i < |attempts| ==> attempts[i].key != key
  }

  predicate StandsWild(s: State, wildNo: nat) { wildNo in s.wilds && s.wilds[wildNo].WildActive? }

  lemma CheckIsGuard(s: State, ask: Ask, v: Verdict)
    ensures Check(s, ask, v).None? <==> MayThrow(s, ask, v)
  {
  }

  // The roll decides: an attempt takes effect exactly when its key is new, the tables allow it and there
  // is a Ball, and then it is caught if and only if the roll succeeded; only a caught wild Pokemon that is
  // not there to be taken turns it down.
  lemma RollDecides(s: State, key: nat, ask: Ask, v: Verdict)
    requires EncounterFits(s)
    ensures var outcome := AttemptCapture(s, key, ask, v, false).1;
            var thrown := Fresh(s.attempts, key) && MayThrow(s, ask, v) && s.balls > 0;
            && (thrown && !v.success <==> outcome == Done(Failed))
            && (thrown && v.success && StandsWild(s, ask.wildNo) <==> outcome == Done(Caught(s.nextPokemon, NextPlacement(s.roster))))
            && (outcome.Done? ==> thrown && (v.success ==> StandsWild(s, ask.wildNo)))
            && (Fresh(s.attempts, key) && MayThrow(s, ask, v) && s.balls == 0 <==> outcome == Refused(InsufficientBall))
  {
    FindNone(s.attempts, key);
    CheckIsGuard(s, ask, v);
    if Fresh(s.attempts, key) && MayThrow(s, ask, v) && s.balls > 0 && v.success && StandsWild(s, ask.wildNo) {
      SuccessResolves(s, key, ask);
    }
  }

  // Why a request with a new key is turned down before anything is written.
  lemma RefusedBecause(s: State, key: nat, ask: Ask, v: Verdict)
    requires Fresh(s.attempts, key) && v.ready
    ensures var outcome := AttemptCapture(s, key, ask, v, false).1;
            var open0 := s.status.Engaged? || s.status.InBattle?;
            var current := open0 && s.revision == ask.expectedRevision;
            var onField := s.battle.Some? && s.battle.value.status.BattleActive? && s.battle.value.active == ask.wildNo
                           && ask.wildNo in s.battle.value.alive;
            && (outcome == Refused(NotFound) <==> !open0)
            && (outcome == Refused(RevisionConflict) <==> open0 && s.revision != ask.expectedRevision)
            && (outcome == Refused(ValidationFailed) <==> current && s.status.InBattle? && ask.expectedVersion.None?)
            && (outcome == Refused(BattleVersionConflict) <==>
                  current && s.status.InBattle? && ask.expectedVersion.Some? && onField && ask.expectedVersion.value != s.battle.value.version)
            && (outcome == Refused(NotReady) <==>
                  current && !MayThrow(s, ask, v) && (s.status.InBattle? ==> ask.expectedVersion.Some?)
                  && (s.status.InBattle? && onField ==> ask.expectedVersion.value == s.battle.value.version))
  {
    FindNone(s.attempts, key);
  }

  // What a Done answer says about the tables before and about the roll.
  predicate DoneAsRolled(s: State, key: nat, ask: Ask, v: Verdict, status: AttemptStatus) {
    && Fresh(s.attempts, key) && MayThrow(s, ask, v) && s.balls > 0
    && status == if v.success then Caught(s.nextPokemon, NextPlacement(s.roster)) else Failed
  }

  lemma DoneMeans(s: State, key: nat, ask: Ask, v: Verdict)
    ensures var outcome := AttemptCapture(s, key, ask, v, false).1;
            EncounterFits(s) && outcome.Done? ==> DoneAsRolled(s, key, ask, v, outcome.status)
  {
    if EncounterFits(s) {
      RollDecides(s, key, ask, v);
    }
  }

  // Where the encounter fits its battle, taking a standing wild Pokemon never contradicts it.
  lemma SuccessResolves(s: State, key: nat, ask: Ask)
    requires EncounterFits(s) && s.balls > 0 && StandsWild(s, ask.wildNo)
    requires s.status.Engaged? || (s.status.InBattle? && ask.wildNo in s.battle.value.alive)
    ensures var pending := ConsumeBall(InsertPending(BeginResolving(s), key, ask), key);
            var resolved := ResolveSuccess(pending, s.status, ask.wildNo);
            && resolved.Some? && resolved.value.attempts != []
            && resolved.value.attempts[|resolved.value.attempts| - 1].status == Caught(s.nextPokemon, NextPlacement(s.roster))
  {
    if s.status.InBattle? {
      WithoutExact(s.battle.value.alive, ask.wildNo);
      if Without(s.battle.value.alive, ask.wildNo) == [] {
        var wilds := MarkFainted(s.wilds[ask.wildNo := WildCaptured], s.battle.value.fainted);
        forall w | w in wilds ensures !wilds[w].WildActive? {
          if w != ask.wildNo && s.wilds[w].WildActive? {
            assert w !in s.battle.value.alive;
          }
        }
      }
    }
  }

  // ----- Every run -----

  lemma RosterStaysUnique(roster: seq<Placed>, nextPokemon: nat)
    requires RosterUnique(roster, nextPokemon)
    ensures RosterUnique(roster + [Placed(NextPlacement(roster), nextPokemon)], nextPokemon + 1)
  {
    PlacementIsFirstFree(roster);
    assert !Occupied(roster, NextPlacement(roster));
  }

  lemma AttemptsStayFinal(attempts: seq<Attempt>, spent: seq<nat>, outbox: seq<nat>, a: Attempt)
    requires AttemptsFinal(attempts, spent, outbox) && FindAttempt(attempts, a.key).None? && !a.status.Pending?
    ensures AttemptsFinal(attempts + [a], spent + [a.key], outbox + [a.key])
  {
    FindNone(attempts, a.key);
  }

  lemma CatchesStayPlaced(attempts: seq<Attempt>, roster: seq<Placed>, a: Attempt, more: seq<Placed>)
    requires CatchesPlaced(attempts, roster)
    requires a.status.Caught? ==> Placed(a.status.slot, a.status.pokemon) in more
    ensures CatchesPlaced(attempts + [a], roster + more)
  {
  }

  // One more committed attempt keeps the accounts.
  lemma AccountsExtend(start: State, s: State, t: State, a: Attempt)
    requires Accounted(start, s) && t.attempts == s.attempts + [a]
    requires var caught := if a.status.Caught? then 1 else 0;
             && t.balls == s.balls - 1 && t.revision == s.revision + 2
             && |t.roster| == |s.roster| + caught && t.nextPokemon == s.nextPokemon + caught
             && (t.battle.Some? <==> s.battle.Some?) && (s.battle.Some? ==> VersionOf(t) == VersionOf(s) + caught)
    ensures Accounted(start, t)
  {
    CatchesAppend(s.attempts, a);
  }

  lemma FailureKeeps(start: State, s: State, key: nat, ask: Ask, v: Verdict)
    requires Settled(s) && Accounted(start, s) && AttemptCapture(s, key, ask, v, false).1 == Done(Failed)
    ensures var t := AttemptCapture(s, key, ask, v, false).0; Settled(t) && Accounted(start, t)
  {
    var a := Attempt(key, ask, Failed);
    FailureEffect(s, key, ask, v);
    AttemptsStayFinal(s.attempts, s.spent, s.outbox, a);
    CatchesStayPlaced(s.attempts, s.roster, a, []);
    assert s.roster + [] == s.roster;
    AccountsExtend(start, s, AttemptCapture(s, key, ask, v, false).0, a);
  }

  lemma EncounterStaysFit(s: State, key: nat, ask: Ask, v: Verdict)
    requires EncounterFits(s) && AttemptCapture(s, key, ask, v, false).1.Done? && AttemptCapture(s, key, ask, v, false).1.status.Caught?
    ensures EncounterFits(AttemptCapture(s, key, ask, v, false).0)
  {
    SuccessEffect(s, key, ask, v);
    if s.battle.Some? {
      WithoutExact(s.battle.value.alive, ask.wildNo);
    }
  }

  lemma SuccessKeeps(start: State, s: State, key: nat, ask: Ask, v: Verdict)
    requires Settled(s) && Accounted(start, s)
    requires AttemptCapture(s, key, ask, v, false).1.Done? && AttemptCapture(s, key, ask, v, false).1.status.Caught?
    ensures var t := AttemptCapture(s, key, ask, v, false).0; Settled(t) && Accounted(start, t)
  {
    var slot := NextPlacement(s.roster);
    var a := Attempt(key, ask, Caught(s.nextPokemon, slot));
    SuccessEffect(s, key, ask, v);
    EncounterStaysFit(s, key, ask, v);
    RosterStaysUnique(s.roster, s.nextPokemon);
    AttemptsStayFinal(s.attempts, s.spent, s.outbox, a);
    CatchesStayPlaced(s.attempts, s.roster, a, [Placed(slot, s.nextPokemon)]);
    AccountsExtend(start, s, AttemptCapture(s, key, ask, v, false).0, a);
  }

  lemma StepKeeps(start: State, s: State, e: Event)
    requires Settled(s) && Accounted(start, s)
    ensures Settled(Next(s, e)) && Accounted(start, Next(s, e))
  {
    var (t, outcome) := AttemptCapture(s, e.key, e.ask, e.verdict, e.crash);
    if outcome.Done? {
      DoneIsFinal(s, e.key, e.ask, e.verdict);
      if outcome.status.Caught? {
        SuccessKeeps(start, s, e.key, e.ask, e.verdict);
      } else {
        FailureKeeps(start, s, e.key, e.ask, e.verdict);
      }
    }
  }

  lemma DoneIsFinal(s: State, key: nat, ask: Ask, v: Verdict)
    requires AttemptCapture(s, key, ask, v, false).1.Done?
    ensures AttemptCapture(s, key, ask, v, false).1.status == Failed || AttemptCapture(s, key, ask, v, false).1.status.Caught?
  {
  }

  lemma {:induction false} RunKeeps(start: State, s: State, es: seq<Event>)
    requires Settled(s) && Accounted(start, s)
    ensures Settled(Run(s, es)) && Accounted(start, Run(s, es))
    decreases |es|
  {
    if es != [] {
      StepKeeps(start, s, es[0]);
      RunKeeps(start, Next(s, es[0]), es[1..]);
    }
  }

  // ----- Main results -----

  // For any requests, duplicates, retries and crashes: every attempt that took effect has exactly
  // one row, one Ball and one message; each catch has one new Pokemon in a slot of its own; the
  // encounter's revision and the battle's version count the attempts and the catches; nothing is
  // left pending; and a captured encounter has no wild left and its battle cancelled.
  lemma CapturesAreAtomic(start: State, es: seq<Event>)
    requires Settled(start)
    ensures var t := Run(start, es);
            && |t.spent| == |t.attempts| == |t.outbox| && t.balls + |t.attempts| == start.balls + |start.attempts|
            && (forall i, j :: 0 <= i < j < |t.attempts| ==> t.attempts[i].key != t.attempts[j].key)
            && (forall i :: 0 <= i < |t.attempts| ==> t.spent[i] == t.outbox[i] == t.attempts[i].key)
            && |t.roster| == |start.roster| + Catches(t.attempts) - Catches(start.attempts)
            && (forall i, j :: 0 <= i < j < |t.roster| ==> t.roster[i].slot != t.roster[j].slot)
            && t.revision == start.revision + 2 * (|t.attempts| - |start.attempts|)
            && (t.battle.Some? ==> VersionOf(t) == VersionOf(start) + Catches(t.attempts) - Catches(start.attempts))
            && (t.status.Captured? ==> NoneActive(t.wilds) && (t.battle.Some? ==> t.battle.value.status.BattleCancelled?))
  {
    RunKeeps(start, start, es);
  }

  lemma {:induction false} AttemptStays(s: State, es: seq<Event>, key: nat)
    requires FindAttempt(s.attempts, key).Some? && Settled(s)
    ensures FindAttempt(Run(s, es).attempts, key) == FindAttempt(s.attempts, key)
    decreases |es|
  {
    if es != [] {
      var t := Next(s, es[0]);
      RunKeeps(s, s, [es[0]]);
      StepKeeps(s, s, es[0]);
      FindInPrefix(s.attempts, t.attempts, key);
      AttemptStays(t, es[1..], key);
    }
  }

  lemma {:induction false} FindInPrefix(a: seq<Attempt>, b: seq<Attempt>, key: nat)
    requires a <= b && FindAttempt(a, key).Some?
    ensures FindAttempt(b, key) == FindAttempt(a, key)
  {
    if a[0].key != key {
      FindInPrefix(a[1..], b[1..], key);
    }
  }

  // A request that took effect answers its own outcome for ever after, whatever happens later, and
  // the same key with another content is refused; neither changes anything.
  lemma CaptureReplays(s: State, key: nat, ask: Ask, v: Verdict, later: seq<Event>, again: Verdict, other: Ask)
    requires Settled(s) && AttemptCapture(s, key, ask, v, false).1.Done?
    ensures var (mid, outcome) := AttemptCapture(s, key, ask, v, false);
            var t := Run(mid, later);
            && AttemptCapture(t, key, ask, again, false) == (t, Replay(outcome.status))
            && (other != ask ==> AttemptCapture(t, key, other, again, false) == (t, Refused(FingerprintMismatch)))
  {
    var (mid, outcome) := AttemptCapture(s, key, ask, v, false);
    DoneIsFinal(s, key, ask, v);
    if outcome.status.Caught? {
      SuccessEffect(s, key, ask, v);
    } else {
      FailureEffect(s, key, ask, v);
    }
    StepKeeps(s, s, Event(key, ask, v, false));
    FindLast(s.attempts, Attempt(key, ask, outcome.status));
    AttemptStays(mid, later, key);
  }

  lemma {:induction false} FindLast(attempts: seq<Attempt>, a: Attempt)
    requires FindAttempt(attempts, a.key).None?
    ensures FindAttempt(attempts + [a], a.key) == Some(a)
  {
    if attempts == [] {
      assert (attempts + [a])[1..] == [];
    } else {
      assert (attempts + [a])[1..] == attempts[1..] + [a];
      FindLast(attempts[1..], a);
    }
  }

  // ----- The transaction over the tables, port by port -----

  class CaptureTables {
    var status: EncounterStatus
    var revision: nat
    var wilds: map<nat, WildStatus>
    var battle: Option<Battle>
    var balls: nat
    var spent: seq<nat>
    var attempts: seq<Attempt>
    var roster: seq<Placed>
    var nextPokemon: nat
    var outbox: seq<nat>

    function Contents(): State
      reads this
    {
      State(status, revision, wilds, battle, balls, spent, attempts, roster, nextPokemon, outbox)
    }

    method Restore(s: State)
      modifies this
      ensures Contents() == s
    {
      status, revision, wilds, battle, balls := s.status, s.revision, s.wilds, s.battle, s.balls;
      spent, attempts, roster, nextPokemon, outbox := s.spent, s.attempts, s.roster, s.nextPokemon, s.outbox;
    }

    constructor (s: State)
      ensures Contents() == s
    {
      status, revision, wilds, battle, balls := s.status, s.revision, s.wilds, s.battle, s.balls;
      spent, attempts, roster, nextPokemon, outbox := s.spent, s.attempts, s.roster, s.nextPokemon, s.outbox;
    }

    method BeginResolvingPort(source: EncounterStatus, expectedRevision: nat) returns (ok: bool)
      modifies `status, `revision
      ensures ok == (old(status) == source && old(revision) == expectedRevision)
      ensures Contents() == if ok then BeginResolving(old(Contents())) else old(Contents())
    {
      ok := status == source && revision == expectedRevision;
      if ok {
        status, revision := Resolving, revision + 1;
      }
    }

    method InsertPendingPort(key: nat, ask: Ask) returns (inserted: bool)
      modifies `attempts
      ensures inserted == FindAttempt(old(attempts), key).None?
      ensures Contents() == if inserted then InsertPending(old(Contents()), key, ask) else old(Contents())
    {
      inserted := FindAttempt(attempts, key).None?;
      if inserted {
        attempts := attempts + [Attempt(key, ask, Pending)];
      }
    }

    method ConsumeBallPort(key: nat) returns (consumed: bool)
      modifies `balls, `spent
      ensures consumed == (old(balls) >= 1)
      ensures consumed ==> Contents() == ConsumeBall(old(Contents()), key)
    {
      spent := spent + [key];
      consumed := balls >= 1;
      if consumed {
        balls := balls - 1;
      }
    }

    method ResolveFailurePort(source: EncounterStatus)
      requires attempts != []
      modifies `status, `revision, `attempts, `outbox
      ensures Contents() == ResolveFailure(old(Contents()), source)
    {
      var last := |attempts| - 1;
      outbox := outbox + [attempts[last].key];
      attempts := attempts[last := attempts[last].(status := Failed)];
      status, revision := source, revision + 1;
    }

    method ResolveSuccessPort(source: EncounterStatus, wildNo: nat, slot: Slot) returns (ok: bool)
      requires attempts != [] && slot == NextPlacement(roster)
      modifies this
      ensures ok == ResolveSuccess(old(Contents()), source, wildNo).Some?
      ensures ok ==> Contents() == ResolveSuccess(old(Contents()), source, wildNo).value
    {
      if wildNo !in wilds || !wilds[wildNo].WildActive? || (source == InBattle && battle == None) {
        return false;
      }
      var after, next, continues := wilds[wildNo := WildCaptured], battle, false;
      if source == InBattle {
        after := MarkFainted(after, battle.value.fainted);
        next := Some(BattleAfter(battle.value, wildNo));
        continues := next.value.status != BattleCancelled;
      }
      var terminal := NoneActive(after);
      if !terminal && source == InBattle && !continues {
        return false;
      }
      SettleSuccess(if terminal then Captured else source, after, next, slot);
      ok := true;
    }

    method SettleSuccess(finalStatus: EncounterStatus, after: map<nat, WildStatus>, next: Option<Battle>, slot: Slot)
      requires attempts != []
      modifies this
      ensures Contents() == Finalize(old(Contents()).(roster := old(roster) + [Placed(slot, old(nextPokemon))],
                                                      nextPokemon := old(nextPokemon) + 1, wilds := after, battle := next,
                                                      status := finalStatus, revision := old(revision) + 1),
                                     Caught(old(nextPokemon), slot))
    {
      var last := |attempts| - 1;
      outbox := outbox + [attempts[last].key];
      attempts := attempts[last := attempts[last].(status := Caught(nextPokemon, slot))];
      roster := roster + [Placed(slot, nextPokemon)];
      nextPokemon := nextPokemon + 1;
      wilds, battle, status, revision := after, next, finalStatus, revision + 1;
    }

    // The process may die after any number of port calls; every way out other than COMMIT restores
    // the tables.
    method Execute(key: nat, ask: Ask, v: Verdict, survives: nat) returns (outcome: Outcome)
      modifies this
      ensures outcome == Crashed || (Contents(), outcome) == AttemptCapture(old(Contents()), key, ask, v, false)
      ensures outcome == Crashed ==> Contents() == old(Contents())
      ensures survives >= 8 ==> outcome != Crashed
      ensures outcome.Done? && EncounterFits(old(Contents())) ==>
                DoneAsRolled(old(Contents()), key, ask, v, outcome.status)
    {
      DoneMeans(Contents(), key, ask, v);
      var before := Contents();
      if survives < 1 {
        return Crashed;
      }
      var existing := FindAttempt(attempts, key);
      if existing.Some? {
        return ReplayOf(existing.value, ask);
      }
      if survives < 2 {
        return Crashed;
      }
      var refusal := Check(before, ask, v);
      if refusal.Some? {
        return Refused(refusal.value);
      }
      var source := status;
      if survives < 3 {
        return Crashed;
      }
      var begun := BeginResolvingPort(source, ask.expectedRevision);
      assert begun;
      if survives < 4 {
        Restore(before);
        return Crashed;
      }
      var inserted := InsertPendingPort(key, ask);
      assert inserted;
      if survives < 5 {
        Restore(before);
        return Crashed;
      }
      var consumed := ConsumeBallPort(key);
      if !consumed {
        Restore(before);
        return Refused(InsufficientBall);
      }
      if survives < 6 {
        Restore(before);
        return Crashed;
      }
      if !v.success {
        ResolveFailurePort(source);
        if survives < 7 {
          Restore(before);
          return Crashed;
        }
        return Done(Failed);
      }
      var slot := FindPlacement(roster);
      if survives < 7 {
        Restore(before);
        return Crashed;
      }
      var resolved := ResolveSuccessPort(source, ask.wildNo, slot);
      if !resolved {
        Restore(before);
        return Refused(IntegrityError);
      }
      if survives < 8 {
        Restore(before);
        return Crashed;
      }
      outcome := Done(attempts[|attempts| - 1].status);
    }
  }
}
