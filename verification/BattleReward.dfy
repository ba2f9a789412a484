/** The battle reward: experience, moves, trainer points and the claim in one transaction per battle,
  * under crashes, replays and races.
  */
module BattleReward {
  import opened Wrappers
  import Progression
  import MoveLearning
  import Trainer

  type BattleId = nat

  datatype BattleStatus = Won | NotWon

  // A finished battle as its pinned snapshot describes it.
  datatype Battle = Battle(id: BattleId, status: BattleStatus, baseExp: nat, defeatedLevel: nat)

  datatype Result = Result(offered: nat, xp: Progression.Progress)

  datatype Claim = Claim(battle: BattleId, key: nat, result: Result)

  // What the Pokemon may learn at each level, evolutions on the way included.
  type Learnset = map<nat, seq<MoveLearning.Batch>>

  datatype Rules = Rules(trainer: Trainer.Rules, learnset: Learnset)

  datatype State = State(level: nat, xp: nat, moves: MoveLearning.State, trainer: Trainer.State,
                         claims: seq<Claim>, outbox: seq<BattleId>)

  datatype Outcome = Applied(result: Result) | Replayed(result: Result) | IdempotencyConflict | NotEligible | StateInvalid

  predicate Matches(c: Claim, battle: BattleId, key: nat) {
    c.battle == battle || c.key == key
  }

  function Matching(claims: seq<Claim>, battle: BattleId, key: nat): seq<Claim> {
    if claims == [] then []
    else (if Matches(claims[0], battle, key) then [claims[0]] else []) + Matching(claims[1..], battle, key)
  }

  function BatchesFor(learnset: Learnset, crossed: seq<nat>): seq<MoveLearning.Batch> {
    if crossed == [] then []
    else (if crossed[0] in learnset then learnset[crossed[0]] else []) + BatchesFor(learnset, crossed[1..])
  }

  predicate Rewardable(b: Battle) {
    b.baseExp > 0 && b.defeatedLevel >= 1
  }

  function Offered(b: Battle): nat
    requires Rewardable(b)
  {
    Progression.BattleXp(b.baseExp, b.defeatedLevel)
  }

  function ApplyBattleReward(s: State, rules: Rules, b: Battle, key: nat): (State, Outcome) {
    var claims := Matching(s.claims, b.id, key);
    if |claims| > 1 then (s, IdempotencyConflict)
    else if |claims| == 1 then
      (s, if claims[0].battle != b.id then IdempotencyConflict else Replayed(claims[0].result))
    else if b.status != Won then (s, NotEligible)
    else if !Rewardable(b) then (s, StateInvalid)
    else
      var award := Progression.ApplyXp(s.level, s.xp, Offered(b), Progression.LEVEL_CAP);
      if award.Err? || s.trainer.points + rules.trainer.pointsPerWin > Trainer.MAX_SAFE_INTEGER then (s, StateInvalid)
      else
        var p := award.value;
        var result := Result(Offered(b), p);
        (State(p.afterLevel, p.afterXp, MoveLearning.LearnBatches(s.moves, BatchesFor(rules.learnset, p.crossed)),
               Trainer.Reward(s.trainer, rules.trainer, b.id),
               s.claims + [Claim(b.id, key, result)], s.outbox + [b.id]),
         Applied(result))
  }

  // A process may die anywhere before COMMIT; the transaction then leaves nothing.
  datatype Event = Event(battle: Battle, key: nat, crash: bool)

  function Next(s: State, rules: Rules, e: Event): State {
    if e.crash then s else ApplyBattleReward(s, rules, e.battle, e.key).0
  }

  function Run(s: State, rules: Rules, es: seq<Event>): State
    decreases |es|
  {
    if es == [] then s else Run(Next(s, rules, es[0]), rules, es[1..])
  }

  function OfferedTotal(claims: seq<Claim>): nat {
    if claims == [] then 0 else OfferedTotal(claims[..|claims| - 1]) + claims[|claims| - 1].result.offered
  }

  function DiscardedTotal(claims: seq<Claim>): nat {
    if claims == [] then 0 else DiscardedTotal(claims[..|claims| - 1]) + claims[|claims| - 1].result.xp.discarded
  }

  predicate Fit(level: nat, xp: nat) {
    Progression.Invalid(level, xp, 0, Progression.LEVEL_CAP).None? && (level == Progression.LEVEL_CAP ==> xp == 0)
  }

  // One claim and one message per battle.
  predicate ClaimsUnique(claims: seq<Claim>, outbox: seq<BattleId>) {
    && (forall i, j :: 0 <= i < j < |claims| ==> claims[i].battle != claims[j].battle && claims[i].key != claims[j].key)
    && |claims| == |outbox| && (forall i :: 0 <= i < |claims| ==> outbox[i] == claims[i].battle)
  }

  // The Pokemon stands where one award of everything offered would have put it.
  predicate OneAward(start: State, level: nat, xp: nat, claims: seq<Claim>) {
    var p := Progression.ApplyXp(start.level, start.xp, OfferedTotal(claims), Progression.LEVEL_CAP);
    && Fit(level, xp)
    && p.Ok? && level == p.value.afterLevel && xp == p.value.afterXp && DiscardedTotal(claims) == p.value.discarded
  }

  ghost predicate Inv(start: State, rules: Rules, s: State) {
    && ClaimsUnique(s.claims, s.outbox)
    && s.trainer.points == start.trainer.points + |s.claims| * rules.trainer.pointsPerWin
    && OneAward(start, s.level, s.xp, s.claims)
  }

  lemma {:induction false} MatchingNone(claims: seq<Claim>, battle: BattleId, key: nat)
    ensures Matching(claims, battle, key) == [] <==> forall i :: 0 <= i < |claims| ==> !Matches(claims[i], battle, key)
  {
    if claims != [] {
      MatchingNone(claims[1..], battle, key);
      if Matches(claims[0], battle, key) {
        assert |Matching(claims, battle, key)| > 0;
      } else {
        assert forall i :: 0 < i < |claims| ==> claims[i] == claims[1..][i - 1];
      }
    }
  }

  lemma NewClaim(claims: seq<Claim>, c: Claim)
    ensures OfferedTotal(claims + [c]) == OfferedTotal(claims) + c.result.offered
    ensures DiscardedTotal(claims + [c]) == DiscardedTotal(claims) + c.result.xp.discarded
  {
    assert (claims + [c])[..|claims|] == claims;
  }

  lemma ClaimsStayUnique(claims: seq<Claim>, outbox: seq<BattleId>, c: Claim)
    requires ClaimsUnique(claims, outbox) && Matching(claims, c.battle, c.key) == []
    ensures ClaimsUnique(claims + [c], outbox + [c.battle])
  {
    MatchingNone(claims, c.battle, c.key);
    assert forall i :: 0 <= i < |claims| ==> !Matches(claims[i], c.battle, c.key);
  }

  lemma AwardExtends(start: State, level: nat, xp: nat, claims: seq<Claim>, c: Claim)
    requires Fit(start.level, start.xp) && OneAward(start, level, xp, claims)
    requires Progression.ApplyXp(level, xp, c.result.offered, Progression.LEVEL_CAP) == Progression.Ok(c.result.xp)
    ensures OneAward(start, c.result.xp.afterLevel, c.result.xp.afterXp, claims + [c])
  {
    NewClaim(claims, c);
    Progression.AwardsAdd(start.level, start.xp, OfferedTotal(claims), c.result.offered, Progression.LEVEL_CAP);
    Progression.ConservedIff(level, xp, c.result.offered, Progression.LEVEL_CAP);
  }

  // What an applied reward leaves behind, field by field.
  lemma AppliedShape(s: State, rules: Rules, b: Battle, key: nat)
    requires ApplyBattleReward(s, rules, b, key).1.Applied?
    ensures var (t, outcome) := ApplyBattleReward(s, rules, b, key);
            var c := Claim(b.id, key, outcome.result);
            && Matching(s.claims, b.id, key) == []
            && t.claims == s.claims + [c] && t.outbox == s.outbox + [b.id]
            && Progression.ApplyXp(s.level, s.xp, c.result.offered, Progression.LEVEL_CAP) == Progression.Ok(c.result.xp)
            && t.level == c.result.xp.afterLevel && t.xp == c.result.xp.afterXp
            && t.trainer.points == s.trainer.points + rules.trainer.pointsPerWin
  {
  }

  // ----- What one reward gives -----

  // Only a won battle with a base experience that nobody has claimed, under a key nobody has used, is
  // rewarded, and then always, unless a stored value is out of range.
  lemma RewardedIff(s: State, rules: Rules, b: Battle, key: nat)
    ensures ApplyBattleReward(s, rules, b, key).1.Applied? <==>
              && (forall i :: 0 <= i < |s.claims| ==> s.claims[i].battle != b.id && s.claims[i].key != key)
              && b.status.Won? && b.baseExp > 0 && b.defeatedLevel >= 1
              && Progression.Invalid(s.level, s.xp, 0, Progression.LEVEL_CAP).None?
              && s.trainer.points + rules.trainer.pointsPerWin <= Trainer.MAX_SAFE_INTEGER
  {
    MatchingNone(s.claims, b.id, key);
    assert |Matching(s.claims, b.id, key)| == 0 <==> Matching(s.claims, b.id, key) == [];
  }

  // A battle nobody has claimed, under a new key, is turned down for not being won before anything else.
  lemma RefusedBecause(s: State, rules: Rules, b: Battle, key: nat)
    requires forall i, j :: 0 <= i < j < |s.claims| ==> s.claims[i].battle != s.claims[j].battle && s.claims[i].key != s.claims[j].key
    ensures var outcome := ApplyBattleReward(s, rules, b, key).1;
            var known := exists c :: c in s.claims && Matches(c, b.id, key);
            var elsewhere := exists c :: c in s.claims && c.key == key && c.battle != b.id;
            && (outcome == NotEligible <==> !known && b.status != Won)
            && (outcome == IdempotencyConflict <==> elsewhere)
            && (outcome.Replayed? <==> known && !elsewhere)
  {
    MatchingMembers(s.claims, b.id, key);
    assert Matching(s.claims, b.id, key) != [] ==> Matching(s.claims, b.id, key)[0] in Matching(s.claims, b.id, key);
    assert |Matching(s.claims, b.id, key)| == 0 <==> Matching(s.claims, b.id, key) == [];
  }

  // The claims of the battle or of the key, at most one of each, in their order.
  lemma {:induction false} MatchingMembers(claims: seq<Claim>, battle: BattleId, key: nat)
    requires forall i, j :: 0 <= i < j < |claims| ==> claims[i].battle != claims[j].battle && claims[i].key != claims[j].key
    ensures var found := Matching(claims, battle, key);
            && (forall c :: c in found <==> c in claims && Matches(c, battle, key))
            && (|found| == 1 ==> forall c :: c in claims && Matches(c, battle, key) ==> c == found[0])
            && (|found| > 1 ==> exists c :: c in claims && c.key == key && c.battle != battle)
  {
    if claims != [] {
      MatchingMembers(claims[1..], battle, key);
      assert claims == [claims[0]] + claims[1..];
      var rest := Matching(claims[1..], battle, key);
      if Matches(claims[0], battle, key) && rest != [] {
        var d := rest[0];
        assert d in claims[1..] && Matches(d, battle, key);
        var j :| 0 <= j < |claims[1..]| && claims[1..][j] == d;
        assert claims[j + 1] == d && claims[0].battle != d.battle && claims[0].key != d.key;
      }
    }
  }

  lemma CrossedAreLevels(level: nat, xp: nat, gain: nat)
    requires Progression.ApplyXp(level, xp, gain, Progression.LEVEL_CAP).Ok?
    ensures var p := Progression.ApplyXp(level, xp, gain, Progression.LEVEL_CAP).value;
            && level <= p.afterLevel
            && forall l :: level < l <= p.afterLevel ==> l in p.crossed
  {
    var p := Progression.ApplyXp(level, xp, gain, Progression.LEVEL_CAP).value;
    if level < Progression.LEVEL_CAP {
      Progression.CarryIsCubeRoot(level, xp + gain, Progression.LEVEL_CAP);
      Progression.LevelsAre(level, p.afterLevel);
      forall l | level < l <= p.afterLevel ensures l in p.crossed {
        assert p.crossed[l - level - 1] == l;
      }
    }
  }

  lemma {:induction false} BatchIsFor(learnset: Learnset, crossed: seq<nat>, l: nat, batch: MoveLearning.Batch)
    requires l in crossed && l in learnset && batch in learnset[l]
    ensures batch in BatchesFor(learnset, crossed)
  {
    if crossed[0] != l {
      BatchIsFor(learnset, crossed[1..], l, batch);
    }
  }

  // A reward gives the seventh of base times level, rounded down and at least one; every move of every level
  // reached on the way is known afterwards or has its choice; taken slots and earlier choices stay; and the
  // trainer is rewarded for this battle.
  lemma RewardGives(s: State, rules: Rules, b: Battle, key: nat)
    requires MoveLearning.ValidSlots(s.moves.slots) && ApplyBattleReward(s, rules, b, key).1.Applied?
    ensures var (t, outcome) := ApplyBattleReward(s, rules, b, key);
            var offered := outcome.result.offered;
            && offered >= 1 && 7 * (offered - 1) < b.baseExp * b.defeatedLevel
            && (b.baseExp * b.defeatedLevel >= 7 ==> 7 * offered <= b.baseExp * b.defeatedLevel < 7 * (offered + 1))
            && t.trainer == Trainer.Reward(s.trainer, rules.trainer, b.id)
            && MoveLearning.ValidSlots(t.moves.slots) && MoveLearning.Extends(s.moves, t.moves)
            && (t.level == s.level ==> t.moves == s.moves)
    ensures var t := ApplyBattleReward(s, rules, b, key).0;
            forall l, batch, move :: s.level < l <= t.level && l in rules.learnset && batch in rules.learnset[l] && move in batch.moves ==>
              MoveLearning.Settled(t.moves, move, batch.level)
  {
    var t := ApplyBattleReward(s, rules, b, key).0;
    var p := Progression.ApplyXp(s.level, s.xp, Offered(b), Progression.LEVEL_CAP).value;
    CrossedAreLevels(s.level, s.xp, Offered(b));
    MoveLearning.LearnBatchesKeeps(s.moves, BatchesFor(rules.learnset, p.crossed));
    forall l, batch, move | s.level < l <= t.level && l in rules.learnset && batch in rules.learnset[l] && move in batch.moves
      ensures MoveLearning.Settled(t.moves, move, batch.level)
    {
      MoveIsSettled(s, rules, p.crossed, l, batch, move);
    }
  }

  lemma MoveIsSettled(s: State, rules: Rules, crossed: seq<nat>, l: nat, batch: MoveLearning.Batch, move: MoveLearning.MoveId)
    requires MoveLearning.ValidSlots(s.moves.slots)
    requires l in crossed && l in rules.learnset && batch in rules.learnset[l] && move in batch.moves
    ensures MoveLearning.Settled(MoveLearning.LearnBatches(s.moves, BatchesFor(rules.learnset, crossed)), move, batch.level)
  {
    var batches := BatchesFor(rules.learnset, crossed);
    BatchIsFor(rules.learnset, crossed, l, batch);
    var i :| 0 <= i < |batches| && batches[i] == batch;
    assert MoveLearning.Offered(batches, move, batch.level);
    MoveLearning.BatchesSettled(s.moves, batches, move, batch.level);
  }

  lemma RewardKeepsInv(start: State, rules: Rules, s: State, b: Battle, key: nat)
    requires Fit(start.level, start.xp) && Inv(start, rules, s)
    ensures Inv(start, rules, ApplyBattleReward(s, rules, b, key).0)
  {
    var (t, outcome) := ApplyBattleReward(s, rules, b, key);
    if outcome.Applied? {
      AppliedShape(s, rules, b, key);
      var c := Claim(b.id, key, outcome.result);
      ClaimsStayUnique(s.claims, s.outbox, c);
      AwardExtends(start, s.level, s.xp, s.claims, c);
      PointsOfOneMore(|s.claims|, rules.trainer.pointsPerWin);
    } else {
      assert t == s;
    }
  }

  lemma PointsOfOneMore(n: nat, each: nat)
    ensures (n + 1) * each == n * each + each
  {
  }

  lemma StepKeepsInv(start: State, rules: Rules, s: State, e: Event)
    requires Fit(start.level, start.xp) && Inv(start, rules, s)
    ensures Inv(start, rules, Next(s, rules, e))
  {
    if !e.crash {
      RewardKeepsInv(start, rules, s, e.battle, e.key);
    }
  }

  lemma StartInv(start: State, rules: Rules)
    requires Fit(start.level, start.xp) && start.claims == [] && start.outbox == []
    ensures Inv(start, rules, start)
  {
    Progression.ConservedIff(start.level, start.xp, 0, Progression.LEVEL_CAP);
    if start.level < Progression.LEVEL_CAP {
      assert Progression.Carry(start.level, start.xp, Progression.LEVEL_CAP) == (start.level, start.xp);
    }
  }

  lemma {:induction false} RunKeepsInv(start: State, rules: Rules, s: State, es: seq<Event>)
    requires Fit(start.level, start.xp) && Inv(start, rules, s)
    ensures Inv(start, rules, Run(s, rules, es))
    decreases |es|
  {
    if es != [] {
      StepKeepsInv(start, rules, s, es[0]);
      RunKeepsInv(start, rules, Next(s, rules, es[0]), es[1..]);
    }
  }

  // However battles are won, retried under any key, raced and crashed: each battle has at most one
  // claim and one message, trainer points count the claims, and the Pokemon stands where a single
  // award of everything offered would have put it, whatever the order of the battles.
  lemma RewardsAreOneAward(start: State, rules: Rules, es: seq<Event>)
    requires Fit(start.level, start.xp) && start.claims == [] && start.outbox == []
    ensures var t := Run(start, rules, es);
            && (forall i, j :: 0 <= i < j < |t.claims| ==> t.claims[i].battle != t.claims[j].battle)
            && (forall i, j :: 0 <= i < j < |t.outbox| ==> t.outbox[i] != t.outbox[j]) && |t.outbox| == |t.claims|
            && t.trainer.points == start.trainer.points + |t.claims| * rules.trainer.pointsPerWin
            && var p := Progression.ApplyXp(start.level, start.xp, OfferedTotal(t.claims), Progression.LEVEL_CAP);
               p.Ok? && t.level == p.value.afterLevel && t.xp == p.value.afterXp
               && Progression.Cube(t.level) + t.xp + DiscardedTotal(t.claims)
                  == Progression.Cube(start.level) + start.xp + OfferedTotal(t.claims)
  {
    StartInv(start, rules);
    RunKeepsInv(start, rules, start, es);
    Progression.ConservedIff(start.level, start.xp, OfferedTotal(Run(start, rules, es).claims), Progression.LEVEL_CAP);
  }

  lemma {:induction false} ClaimsOnlyGrow(s: State, rules: Rules, es: seq<Event>)
    ensures s.claims <= Run(s, rules, es).claims
    decreases |es|
  {
    if es != [] {
      ClaimsOnlyGrow(Next(s, rules, es[0]), rules, es[1..]);
    }
  }

  lemma {:induction false} MatchingOne(claims: seq<Claim>, i: nat, key: nat)
    requires i < |claims|
    requires forall a, b :: 0 <= a < b < |claims| ==> claims[a].battle != claims[b].battle
    requires forall a :: 0 <= a < |claims| && a != i ==> claims[a].key != key
    ensures Matching(claims, claims[i].battle, key) == [claims[i]]
  {
    if i == 0 {
      MatchingNone(claims[1..], claims[0].battle, key);
    } else {
      assert claims[0].battle != claims[i].battle;
      MatchingOne(claims[1..], i - 1, key);
    }
  }

  // The claim of an applied reward stays where it was written.
  lemma ClaimStays(start: State, rules: Rules, s: State, b: Battle, key: nat, later: seq<Event>)
    requires Fit(start.level, start.xp) && Inv(start, rules, s) && ApplyBattleReward(s, rules, b, key).1.Applied?
    ensures var (mid, outcome) := ApplyBattleReward(s, rules, b, key);
            var t := Run(mid, rules, later);
            Inv(start, rules, t) && |s.claims| < |t.claims| && t.claims[|s.claims|] == Claim(b.id, key, outcome.result)
  {
    var mid := ApplyBattleReward(s, rules, b, key).0;
    RewardKeepsInv(start, rules, s, b, key);
    AppliedShape(s, rules, b, key);
    RunKeepsInv(start, rules, mid, later);
    ClaimsOnlyGrow(mid, rules, later);
    assert Run(mid, rules, later).claims[|s.claims|] == mid.claims[|s.claims|];
  }

  // Repeating a rewarded battle replays its original result after any later history, and so does
  // any other key that no other battle has used.
  lemma RewardReplays(start: State, rules: Rules, before: seq<Event>, b: Battle, key: nat, later: seq<Event>, again: nat)
    requires Fit(start.level, start.xp) && start.claims == [] && start.outbox == []
    requires ApplyBattleReward(Run(start, rules, before), rules, b, key).1.Applied?
    requires var t := Run(ApplyBattleReward(Run(start, rules, before), rules, b, key).0, rules, later);
             forall i :: 0 <= i < |t.claims| && t.claims[i].battle != b.id ==> t.claims[i].key != again
    ensures var (mid, outcome) := ApplyBattleReward(Run(start, rules, before), rules, b, key);
            var t := Run(mid, rules, later);
            ApplyBattleReward(t, rules, b, again) == (t, Replayed(outcome.result))
  {
    StartInv(start, rules);
    RunKeepsInv(start, rules, start, before);
    var s := Run(start, rules, before);
    ClaimStays(start, rules, s, b, key, later);
    MatchingOne(Run(ApplyBattleReward(s, rules, b, key).0, rules, later).claims, |s.claims|, again);
  }
}
