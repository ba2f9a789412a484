/** Trainer progression: both level curves, their closed forms, and the points and unlocks that keyed
  * adjustments and battle rewards update.
  */
module Trainer {
  import opened Wrappers

  const TRAINER_LEVEL_CAP: nat := 100
  const MAX_SAFE_INTEGER: int := 9_007_199_254_740_991

  datatype Curve = Quadratic | Linear

  // ----- Curves -----

  function Required(level: int, curve: Curve): Option<nat> {
    if level < 1 || level > TRAINER_LEVEL_CAP then None
    else if curve.Linear? then Some(100 * (level - 1))
    else Some(100 * ((level - 1) * (level - 1)))
  }

  // The search from the top down to the first level whose requirement is met.
  function LevelFrom(points: nat, level: nat, curve: Curve): nat
    requires level <= TRAINER_LEVEL_CAP
  {
    if level < 1 then 1
    else if points >= Required(level, curve).value then level
    else LevelFrom(points, level - 1, curve)
  }

  function LevelFor(points: nat, curve: Curve): nat {
    LevelFrom(points, TRAINER_LEVEL_CAP, curve)
  }

  method TrainerLevelForPoints(points: int, cap: nat, curve: Curve) returns (level: Option<nat>)
    ensures level == if points < 0 || points > MAX_SAFE_INTEGER || cap > TRAINER_LEVEL_CAP then None
                     else Some(LevelFrom(points, cap, curve))
  {
    if points < 0 || points > MAX_SAFE_INTEGER {
      return None;
    }
    var current := cap;
    while current >= 1
      invariant 0 <= current <= cap
      invariant cap <= TRAINER_LEVEL_CAP ==> LevelFrom(points, cap, curve) == LevelFrom(points, current, curve)
      invariant cap > TRAINER_LEVEL_CAP ==> current == cap
    {
      var required := Required(current, curve);
      if required.None? {
        return None;
      }
      if points >= required.value {
        return Some(current);
      }
      current := current - 1;
    }
    level := Some(1);
  }

  lemma {:induction false} SquaresUpTo(a: nat, b: nat)
    requires a <= b
    ensures a * a <= b * b
  {
    if a < b {
      SquaresUpTo(a, b - 1);
      assert b * b == (b - 1) * (b - 1) + 2 * b - 1;
    }
  }

  lemma RequiredMonotone(a: int, b: int, curve: Curve)
    requires 1 <= a <= b <= TRAINER_LEVEL_CAP
    ensures Required(a, curve).value <= Required(b, curve).value
  {
    if curve.Quadratic? {
      SquaresUpTo(a - 1, b - 1);
    }
  }

  // For every level the search may return: it is reached exactly when its requirement is met.
  lemma {:induction false} ReachesIffRequired(points: nat, cap: nat, curve: Curve, level: int)
    requires 1 <= level <= cap <= TRAINER_LEVEL_CAP
    ensures 1 <= LevelFrom(points, cap, curve) <= cap
    ensures LevelFrom(points, cap, curve) >= level <==> points >= Required(level, curve).value
    decreases cap
  {
    if points < Required(cap, curve).value {
      if cap == 1 {
        assert false;
      } else if level < cap {
        ReachesIffRequired(points, cap - 1, curve, level);
      } else {
        ReachesIffRequired(points, cap - 1, curve, 1);
      }
    } else {
      RequiredMonotone(level, cap, curve);
    }
  }

  // The linear level is a division.
  lemma LinearClosedForm(points: nat)
    ensures LevelFor(points, Linear) == if points / 100 + 1 < 100 then points / 100 + 1 else 100
  {
    var level := if points / 100 + 1 < 100 then points / 100 + 1 else 100;
    ReachesIffRequired(points, 100, Linear, level);
    if level < 100 {
      ReachesIffRequired(points, 100, Linear, level + 1);
    }
  }

  // The quadratic level is an integer square root.
  lemma QuadraticClosedForm(points: nat, root: nat)
    requires root * root <= points / 100 < (root + 1) * (root + 1)
    ensures LevelFor(points, Quadratic) == if root + 1 < 100 then root + 1 else 100
  {
    var level := if root + 1 < 100 then root + 1 else 100;
    SquaresUpTo(level - 1, root);
    ReachesIffRequired(points, 100, Quadratic, level);
    if level < 100 {
      ReachesIffRequired(points, 100, Quadratic, level + 1);
    }
  }

  // ----- Points and unlocks of one player -----

  datatype UnlockStatus = Active | Revoked

  datatype Unlock = Unlock(key: nat, level: nat)

  // The progression part of a ruleset; keys and levels of unlocks are unique.
  datatype Rules = Rules(curve: Curve, pointsPerWin: nat, unlocks: seq<Unlock>)

  datatype Summary = Summary(before: nat, after: nat, beforeLevel: nat, afterLevel: nat, activated: seq<nat>, revoked: seq<nat>)

  datatype Entry = Adjustment(key: nat, delta: int, audit: nat, result: Summary) | BattleReward(battle: nat, delta: int)

  datatype State = State(playerActive: bool, points: nat, level: nat, unlocks: map<nat, UnlockStatus>, ledger: seq<Entry>)

  datatype Outcome = Applied(result: Summary) | Replayed(result: Summary) | IdempotencyConflict | StateInvalid | RulesMissing | Underflow

  predicate ValidRules(rules: Rules) {
    && rules.pointsPerWin >= 1
    && (forall i, j :: 0 <= i < j < |rules.unlocks| ==> rules.unlocks[i].key != rules.unlocks[j].key)
  }

  function FindAdjustment(ledger: seq<Entry>, key: nat): (found: Option<Entry>)
    ensures found.Some? ==> found.value.Adjustment? && found.value.key == key
  {
    if ledger == [] then None
    else if ledger[0].Adjustment? && ledger[0].key == key then Some(ledger[0])
    else FindAdjustment(ledger[1..], key)
  }

  // The unlock rows after synchronising with a level: missing and revoked ones whose level is
  // reached become active, active ones above it become revoked, missing ones above it stay missing.
  function Sync(unlocks: map<nat, UnlockStatus>, wanted: seq<Unlock>, level: nat): (map<nat, UnlockStatus>, seq<nat>, seq<nat>) {
    if wanted == [] then (unlocks, [], [])
    else
      var (rows, activated, revoked) := Sync(unlocks, wanted[..|wanted| - 1], level);
      var u := wanted[|wanted| - 1];
      if level >= u.level then
        (rows[u.key := Active], if IsActive(rows, u.key) then activated else activated + [u.key], revoked)
      else if IsActive(rows, u.key) then (rows[u.key := Revoked], activated, revoked + [u.key])
      else (rows, activated, revoked)
  }

  function Synced(unlocks: map<nat, UnlockStatus>, wanted: seq<Unlock>, level: nat): map<nat, UnlockStatus> {
    Sync(unlocks, wanted, level).0
  }

  predicate IsActive(unlocks: map<nat, UnlockStatus>, key: nat) {
    key in unlocks && unlocks[key].Active?
  }

  // adjustTrainerProgress: keyed, refused without a write when points would leave the safe range.
  function Adjust(s: State, rules: Option<Rules>, key: nat, delta: int, audit: nat): (State, Outcome) {
    var existing := FindAdjustment(s.ledger, key);
    if existing.Some? then
      (s, if existing.value.delta == delta && existing.value.audit == audit then Replayed(existing.value.result)
          else IdempotencyConflict)
    else if !s.playerActive then (s, StateInvalid)
    else if rules.None? then (s, RulesMissing)
    else if s.points + delta > MAX_SAFE_INTEGER then (s, StateInvalid)
    else if s.points + delta < 0 then (s, if s.points + delta < -MAX_SAFE_INTEGER then StateInvalid else Underflow)
    else
      var after := s.points + delta;
      var level := LevelFor(after, rules.value.curve);
      var (unlocks, activated, revoked) := Sync(s.unlocks, rules.value.unlocks, level);
      var result := Summary(s.points, after, s.level, level, activated, revoked);
      (s.(points := after, level := level, unlocks := unlocks,
          ledger := s.ledger + [Adjustment(key, delta, audit, result)]),
       Applied(result))
  }

  // ----- What the summary of an adjustment says -----

  predicate Distinct(keys: seq<nat>) {
    forall i, j :: 0 <= i < j < |keys| ==> keys[i] != keys[j]
  }

  predicate Configured(wanted: seq<Unlock>, key: nat) {
    exists u :: u in wanted && u.key == key
  }

  // The two lists name exactly the configured unlocks that became active and that ceased to be, each once;
  // rows of other unlocks stay.
  ghost predicate Reports(before: map<nat, UnlockStatus>, after: map<nat, UnlockStatus>, wanted: seq<Unlock>,
                          activated: seq<nat>, revoked: seq<nat>)
  {
    && Distinct(activated) && Distinct(revoked)
    && (forall k :: k in activated <==> Configured(wanted, k) && !IsActive(before, k) && IsActive(after, k))
    && (forall k :: k in revoked <==> Configured(wanted, k) && IsActive(before, k) && !IsActive(after, k))
    && (forall k :: !Configured(wanted, k) ==> (k in after <==> k in before) && (k in before ==> after[k] == before[k]))
  }

  lemma ConfiguredAppend(front: seq<Unlock>, u: Unlock)
    ensures forall k :: Configured(front + [u], k) <==> Configured(front, k) || k == u.key
  {
    assert u in front + [u];
    forall k | Configured(front, k) ensures Configured(front + [u], k) {
      var v :| v in front && v.key == k;
      assert v in front + [u];
    }
  }

  lemma ReportsOn(before: map<nat, UnlockStatus>, rows: map<nat, UnlockStatus>, front: seq<Unlock>, u: Unlock,
                  activated: seq<nat>, revoked: seq<nat>)
    requires Reports(before, rows, front, activated, revoked) && !Configured(front, u.key)
    ensures Reports(before, rows[u.key := Active], front + [u],
                    if IsActive(rows, u.key) then activated else activated + [u.key], revoked)
  {
    ConfiguredAppend(front, u);
  }

  lemma ReportsOff(before: map<nat, UnlockStatus>, rows: map<nat, UnlockStatus>, front: seq<Unlock>, u: Unlock,
                   activated: seq<nat>, revoked: seq<nat>)
    requires Reports(before, rows, front, activated, revoked) && !Configured(front, u.key)
    ensures IsActive(rows, u.key) ==> Reports(before, rows[u.key := Revoked], front + [u], activated, revoked + [u.key])
    ensures !IsActive(rows, u.key) ==> Reports(before, rows, front + [u], activated, revoked)
  {
    ConfiguredAppend(front, u);
  }

  lemma {:induction false} SyncReports(unlocks: map<nat, UnlockStatus>, wanted: seq<Unlock>, level: nat)
    requires forall i, j :: 0 <= i < j < |wanted| ==> wanted[i].key != wanted[j].key
    ensures var (rows, activated, revoked) := Sync(unlocks, wanted, level); Reports(unlocks, rows, wanted, activated, revoked)
  {
    if wanted != [] {
      var front, u := wanted[..|wanted| - 1], wanted[|wanted| - 1];
      SyncReports(unlocks, front, level);
      var (rows, activated, revoked) := Sync(unlocks, front, level);
      assert wanted == front + [u];
      ReportsOn(unlocks, rows, front, u, activated, revoked);
      ReportsOff(unlocks, rows, front, u, activated, revoked);
    }
  }

  // The answer of an accepted adjustment shows the points and the level before and after it and the unlocks
  // it turned on and off, and is what the ledger keeps of it.
  lemma SummaryIsAccurate(s: State, rules: Rules, key: nat, delta: int, audit: nat)
    requires ValidRules(rules) && Adjust(s, Some(rules), key, delta, audit).1.Applied?
    ensures var (t, outcome) := Adjust(s, Some(rules), key, delta, audit);
            var result := outcome.result;
            && result.before == s.points && result.after == t.points == s.points + delta
            && result.beforeLevel == s.level && result.afterLevel == t.level
            && Reports(s.unlocks, t.unlocks, rules.unlocks, result.activated, result.revoked)
            && t.playerActive == s.playerActive && t.ledger == s.ledger + [Adjustment(key, delta, audit, result)]
  {
    SyncReports(s.unlocks, rules.unlocks, LevelFor(s.points + delta, rules.curve));
  }

  // The key of a refused adjustment is unseen, and only these four things turn it down.
  lemma AppliesIff(s: State, rules: Option<Rules>, key: nat, delta: int, audit: nat)
    requires FindAdjustment(s.ledger, key).None? && s.points <= MAX_SAFE_INTEGER
    ensures var outcome := Adjust(s, rules, key, delta, audit).1;
            && (outcome.Applied? <==> s.playerActive && rules.Some? && 0 <= s.points + delta <= MAX_SAFE_INTEGER)
            && (outcome.RulesMissing? <==> s.playerActive && rules.None?)
            && (outcome.Underflow? <==> s.playerActive && rules.Some? && -MAX_SAFE_INTEGER <= s.points + delta < 0)
  {
  }

  // The unlock inserts of a battle reward: an existing row, even a revoked one, is left alone.
  function Inserted(unlocks: map<nat, UnlockStatus>, wanted: seq<Unlock>, level: nat): map<nat, UnlockStatus> {
    if wanted == [] then unlocks
    else
      var rest := Inserted(unlocks, wanted[..|wanted| - 1], level);
      var u := wanted[|wanted| - 1];
      if u.level > level || u.key in rest then rest else rest[u.key := Active]
  }

  function Reward(s: State, rules: Rules, battle: nat): State {
    if s.points + rules.pointsPerWin > MAX_SAFE_INTEGER then s
    else
      var after := s.points + rules.pointsPerWin;
      var level := LevelFor(after, rules.curve);
      s.(points := after, level := level, unlocks := Inserted(s.unlocks, rules.unlocks, level),
         ledger := s.ledger + [BattleReward(battle, rules.pointsPerWin)])
  }

  // ----- Unlocks follow the level -----

  ghost predicate InSync(s: State, rules: Rules) {
    && s.level == LevelFor(s.points, rules.curve)
    && forall u :: u in rules.unlocks ==> (IsActive(s.unlocks, u.key) <==> s.level >= u.level)
  }

  lemma {:induction false} SyncedActive(unlocks: map<nat, UnlockStatus>, wanted: seq<Unlock>, level: nat, u: Unlock)
    requires forall i, j :: 0 <= i < j < |wanted| ==> wanted[i].key != wanted[j].key
    requires u in wanted
    ensures IsActive(Synced(unlocks, wanted, level), u.key) <==> level >= u.level
  {
    var front, last := wanted[..|wanted| - 1], wanted[|wanted| - 1];
    if last != u {
      assert u in front;
      SyncedActive(unlocks, front, level, u);
    }
  }

  // After every accepted adjustment, from any state, each configured unlock is active exactly when
  // its level is reached, which is exactly when its points requirement is met.
  lemma AdjustSyncs(s: State, rules: Rules, key: nat, delta: int, audit: nat)
    requires ValidRules(rules) && Adjust(s, Some(rules), key, delta, audit).1.Applied?
    ensures var t := Adjust(s, Some(rules), key, delta, audit).0;
            && InSync(t, rules)
            && t.points == s.points + delta
            && forall u :: u in rules.unlocks && 1 <= u.level <= 100 ==>
                 (IsActive(t.unlocks, u.key) <==> t.points >= Required(u.level, rules.curve).value)
  {
    var t := Adjust(s, Some(rules), key, delta, audit).0;
    forall u | u in rules.unlocks ensures IsActive(t.unlocks, u.key) <==> t.level >= u.level {
      SyncedActive(s.unlocks, rules.unlocks, t.level, u);
    }
    forall u | u in rules.unlocks && 1 <= u.level <= 100
      ensures IsActive(t.unlocks, u.key) <==> t.points >= Required(u.level, rules.curve).value
    {
      ReachesIffRequired(t.points, 100, rules.curve, u.level);
    }
  }

  predicate Grants(wanted: seq<Unlock>, level: nat, key: nat) {
    exists u :: u in wanted && u.key == key && u.level <= level
  }

  lemma {:induction false} InsertedExact(unlocks: map<nat, UnlockStatus>, wanted: seq<Unlock>, level: nat, key: nat)
    ensures IsActive(Inserted(unlocks, wanted, level), key) <==>
              IsActive(unlocks, key) || (key !in unlocks && Grants(wanted, level, key))
    ensures key in Inserted(unlocks, wanted, level) <==> key in unlocks || Grants(wanted, level, key)
  {
    if wanted != [] {
      var front, last := wanted[..|wanted| - 1], wanted[|wanted| - 1];
      InsertedExact(unlocks, front, level, key);
      assert wanted == front + [last];
      assert Grants(wanted, level, key) <==> Grants(front, level, key) || (last.key == key && last.level <= level) by {
        if last.key == key && last.level <= level {
          assert last in wanted;
        }
      }
    }
  }

  lemma LevelGrows(a: nat, b: nat, curve: Curve)
    requires a <= b
    ensures LevelFor(a, curve) <= LevelFor(b, curve)
  {
    var level := LevelFor(a, curve);
    ReachesIffRequired(a, 100, curve, 1);
    ReachesIffRequired(a, 100, curve, level);
    ReachesIffRequired(b, 100, curve, level);
  }

  // What a reward writes, unless the points would leave the safe range: points, level, its ledger entry, and
  // a row for every granted unlock that had none; no row that was there changes.
  lemma RewardWrites(s: State, rules: Rules, battle: nat, key: nat)
    ensures var t, points := Reward(s, rules, battle), s.points + rules.pointsPerWin;
            if points > MAX_SAFE_INTEGER then t == s
            else
              && t.playerActive == s.playerActive && t.points == points && t.level == LevelFor(points, rules.curve)
              && t.ledger == s.ledger + [BattleReward(battle, rules.pointsPerWin)]
              && (key in s.unlocks ==> key in t.unlocks && t.unlocks[key] == s.unlocks[key])
              && (key !in s.unlocks ==>
                    (key in t.unlocks <==> Grants(rules.unlocks, t.level, key)) && (key in t.unlocks ==> t.unlocks[key].Active?))
  {
    var level := LevelFor(s.points + rules.pointsPerWin, rules.curve);
    InsertedExact(s.unlocks, rules.unlocks, level, key);
    InsertedKeeps(s.unlocks, rules.unlocks, level, key);
  }

  lemma {:induction false} InsertedKeeps(unlocks: map<nat, UnlockStatus>, wanted: seq<Unlock>, level: nat, key: nat)
    ensures key in unlocks ==> key in Inserted(unlocks, wanted, level) && Inserted(unlocks, wanted, level)[key] == unlocks[key]
    ensures key !in unlocks && key in Inserted(unlocks, wanted, level) ==> Inserted(unlocks, wanted, level)[key].Active?
  {
    if wanted != [] {
      InsertedKeeps(unlocks, wanted[..|wanted| - 1], level, key);
    }
  }

  // A reward is paid under the ruleset its battle was pinned to. Checkable before it: both rulesets give
  // the new points the same level, and of the active ruleset's open unlocks exactly those it reaches are
  // granted by the pinned one and have no row yet.
  ghost predicate RewardFollows(s: State, active: Rules, pinned: Rules) {
    var points := s.points + pinned.pointsPerWin;
    points <= MAX_SAFE_INTEGER ==>
      && LevelFor(points, pinned.curve) == LevelFor(points, active.curve)
      && forall u :: u in active.unlocks && s.level < u.level ==>
           (u.level <= LevelFor(points, active.curve) <==>
              u.key !in s.unlocks && Grants(pinned.unlocks, LevelFor(points, pinned.curve), u.key))
  }

  lemma UnlockFollows(s: State, active: Rules, pinned: Rules, battle: nat, u: Unlock)
    requires InSync(s, active) && s.points + pinned.pointsPerWin <= MAX_SAFE_INTEGER && u in active.unlocks
    requires var points := s.points + pinned.pointsPerWin; LevelFor(points, pinned.curve) == LevelFor(points, active.curve)
    ensures var t := Reward(s, pinned, battle);
            (IsActive(t.unlocks, u.key) <==> t.level >= u.level) <==>
              (s.level < u.level ==>
                 (u.level <= t.level <==> u.key !in s.unlocks && Grants(pinned.unlocks, t.level, u.key)))
  {
    var t := Reward(s, pinned, battle);
    InsertedExact(s.unlocks, pinned.unlocks, t.level, u.key);
    LevelGrows(s.points, t.points, active.curve);
  }

  lemma RewardFollowsIff(s: State, active: Rules, pinned: Rules, battle: nat)
    requires InSync(s, active)
    ensures InSync(Reward(s, pinned, battle), active) <==> RewardFollows(s, active, pinned)
  {
    var points := s.points + pinned.pointsPerWin;
    if points <= MAX_SAFE_INTEGER && LevelFor(points, pinned.curve) == LevelFor(points, active.curve) {
      forall u | u in active.unlocks
        ensures var t := Reward(s, pinned, battle);
                (IsActive(t.unlocks, u.key) <==> t.level >= u.level) <==>
                  (s.level < u.level ==>
                     (u.level <= t.level <==> u.key !in s.unlocks && Grants(pinned.unlocks, t.level, u.key)))
      {
        UnlockFollows(s, active, pinned, battle, u);
      }
    }
  }

  // Under one ruleset a battle reward keeps the unlocks in step with the level if and only if no unlock
  // it reaches anew has a revoked row: the insert does not reactivate one.
  lemma RewardSyncsIff(s: State, rules: Rules, battle: nat)
    requires ValidRules(rules) && InSync(s, rules) && s.points + rules.pointsPerWin <= MAX_SAFE_INTEGER
    ensures var t := Reward(s, rules, battle);
            InSync(t, rules) <==>
              forall u :: u in rules.unlocks && s.level < u.level <= LevelFor(s.points + rules.pointsPerWin, rules.curve) ==>
                !(u.key in s.unlocks && s.unlocks[u.key].Revoked?)
  {
    var level := LevelFor(s.points + rules.pointsPerWin, rules.curve);
    RewardFollowsIff(s, rules, rules, battle);
    forall u | u in rules.unlocks && s.level < u.level
      ensures Grants(rules.unlocks, level, u.key) <==> u.level <= level
      ensures u.key in s.unlocks ==> s.unlocks[u.key].Revoked?
    {
      GrantsItself(rules, level, u);
      assert !IsActive(s.unlocks, u.key);
    }
  }

  lemma GrantsItself(rules: Rules, level: nat, u: Unlock)
    requires ValidRules(rules) && u in rules.unlocks
    ensures Grants(rules.unlocks, level, u.key) <==> u.level <= level
  {
    if Grants(rules.unlocks, level, u.key) {
      var v :| v in rules.unlocks && v.key == u.key && v.level <= level;
      var i :| 0 <= i < |rules.unlocks| && rules.unlocks[i] == u;
      var j :| 0 <= j < |rules.unlocks| && rules.unlocks[j] == v;
    }
  }

  // ----- Runs -----

  // Every call brings the ruleset it finds: an adjustment the active one, if any, a reward its battle's.
  datatype Event = DoAdjust(rules: Option<Rules>, key: nat, delta: int, audit: nat) | DoReward(pinned: Rules, battle: nat)

  function Next(s: State, e: Event): State {
    match e
    case DoAdjust(rules, key, delta, audit) => Adjust(s, rules, key, delta, audit).0
    case DoReward(pinned, battle) => Reward(s, pinned, battle)
  }

  function Run(s: State, es: seq<Event>): State
    decreases |es|
  {
    if es == [] then s else Run(Next(s, es[0]), es[1..])
  }

  function Total(ledger: seq<Entry>): int {
    if ledger == [] then 0 else Total(ledger[..|ledger| - 1]) + ledger[|ledger| - 1].delta
  }

  // Points are the sum of the ledger, never negative and never unsafe, whatever is refused or
  // replayed and whichever rulesets apply on the way.
  lemma {:induction false} PointsAreLedger(s: State, es: seq<Event>)
    requires s.points == Total(s.ledger) && s.points <= MAX_SAFE_INTEGER
    ensures var t := Run(s, es);
            0 <= t.points == Total(t.ledger) && t.points <= MAX_SAFE_INTEGER && s.ledger <= t.ledger
    decreases |es|
  {
    if es != [] {
      var t := Next(s, es[0]);
      if t != s {
        assert t.ledger == s.ledger + [t.ledger[|s.ledger|]];
        assert t.ledger[..|t.ledger| - 1] == s.ledger;
      }
      PointsAreLedger(t, es[1..]);
    }
  }

  // The ruleset stays the active one, or is missing, for every adjustment.
  predicate StaysActive(active: Rules, es: seq<Event>) {
    forall e :: e in es && e.DoAdjust? && e.rules.Some? ==> e.rules.value == active
  }

  ghost predicate AlwaysInSync(s: State, active: Rules, es: seq<Event>)
    decreases |es|
  {
    InSync(s, active) && (es == [] || AlwaysInSync(Next(s, es[0]), active, es[1..]))
  }

  ghost predicate RewardsFollow(s: State, active: Rules, es: seq<Event>)
    decreases |es|
  {
    es == [] || ((es[0].DoReward? ==> RewardFollows(s, active, es[0].pinned)) && RewardsFollow(Next(s, es[0]), active, es[1..]))
  }

  lemma StepInSync(s: State, active: Rules, e: Event)
    requires ValidRules(active) && InSync(s, active) && StaysActive(active, [e])
    ensures InSync(Next(s, e), active) <==> (e.DoReward? ==> RewardFollows(s, active, e.pinned))
  {
    match e
    case DoAdjust(rules, key, delta, audit) =>
      assert e in [e];
      if Adjust(s, rules, key, delta, audit).1.Applied? {
        AdjustSyncs(s, active, key, delta, audit);
      }
    case DoReward(pinned, battle) => RewardFollowsIff(s, active, pinned, battle);
  }

  // Along a run of adjustments and rewards, the rewards pinned to any rulesets, the unlocks follow the
  // level at every point if and only if no reward gives the points another level, leaves a reached
  // unlock out, meets one that an earlier adjustment revoked, or grants one not reached.
  lemma {:induction false} InSyncIffRewardsFollow(s: State, active: Rules, es: seq<Event>)
    requires ValidRules(active) && InSync(s, active) && StaysActive(active, es)
    ensures AlwaysInSync(s, active, es) <==> RewardsFollow(s, active, es)
    decreases |es|
  {
    if es != [] {
      StepInSync(s, active, es[0]);
      if InSync(Next(s, es[0]), active) {
        InSyncIffRewardsFollow(Next(s, es[0]), active, es[1..]);
      }
    }
  }

  // An adjustment and its inverse restore points, level and the set of active unlocks.
  lemma InverseRestores(s: State, rules: Rules, key: nat, inverse: nat, delta: int, audit: nat)
    requires ValidRules(rules) && InSync(s, rules)
    requires Adjust(s, Some(rules), key, delta, audit).1.Applied?
    requires Adjust(Adjust(s, Some(rules), key, delta, audit).0, Some(rules), inverse, -delta, audit).1.Applied?
    ensures var t := Adjust(Adjust(s, Some(rules), key, delta, audit).0, Some(rules), inverse, -delta, audit).0;
            && t.points == s.points && t.level == s.level
            && forall u :: u in rules.unlocks ==> (IsActive(t.unlocks, u.key) <==> IsActive(s.unlocks, u.key))
  {
    var mid := Adjust(s, Some(rules), key, delta, audit).0;
    AdjustSyncs(s, rules, key, delta, audit);
    AdjustSyncs(mid, rules, inverse, -delta, audit);
  }

  lemma {:induction false} FindAppend(ledger: seq<Entry>, e: Entry, key: nat)
    ensures FindAdjustment(ledger + [e], key) ==
            if FindAdjustment(ledger, key).Some? then FindAdjustment(ledger, key)
            else if e.Adjustment? && e.key == key then Some(e) else None
  {
    if ledger == [] {
      assert (ledger + [e])[1..] == [];
    } else {
      assert (ledger + [e])[1..] == ledger[1..] + [e];
      FindAppend(ledger[1..], e, key);
    }
  }

  lemma {:induction false} AdjustmentStays(s: State, es: seq<Event>, key: nat)
    requires FindAdjustment(s.ledger, key).Some?
    ensures FindAdjustment(Run(s, es).ledger, key) == FindAdjustment(s.ledger, key)
    decreases |es|
  {
    if es != [] {
      var t := Next(s, es[0]);
      if t != s {
        FindAppend(s.ledger, t.ledger[|s.ledger|], key);
        assert t.ledger == s.ledger + [t.ledger[|s.ledger|]];
      }
      AdjustmentStays(t, es[1..], key);
    }
  }

  // A repeated adjustment returns its original summary after any later history and under any ruleset,
  // and writes nothing.
  lemma AdjustmentReplays(s: State, rules: Rules, key: nat, delta: int, audit: nat, between: seq<Event>, now: Option<Rules>)
    requires Adjust(s, Some(rules), key, delta, audit).1.Applied?
    ensures var (t, outcome) := Adjust(s, Some(rules), key, delta, audit);
            var later := Run(t, between);
            && Adjust(later, now, key, delta, audit) == (later, Replayed(outcome.result))
            && forall other :: other != delta ==> Adjust(later, now, key, other, audit) == (later, IdempotencyConflict)
  {
    var t := Adjust(s, Some(rules), key, delta, audit).0;
    FindAppend(s.ledger, t.ledger[|s.ledger|], key);
    AdjustmentStays(t, between, key);
  }

  // ----- The run that loses an unlock -----

  const CUP := Unlock(1, 10)
  const CUP_RULES := Rules(Linear, 200, [CUP])
  const NEWCOMER := State(true, 0, 1, map[], [])

  lemma OneUnlock(unlocks: map<nat, UnlockStatus>, level: nat)
    ensures Sync(unlocks, [CUP], level) ==
            if level >= 10 then (unlocks[1 := Active], if IsActive(unlocks, 1) then [] else [1], [])
            else if IsActive(unlocks, 1) then (unlocks[1 := Revoked], [], [1])
            else (unlocks, [], [])
    ensures Inserted(unlocks, [CUP], level) == if level < 10 || 1 in unlocks then unlocks else unlocks[1 := Active]
  {
    assert [CUP][..|[CUP]| - 1] == [];
    var empty: seq<nat> := [];
    assert Sync(unlocks, [], level) == (unlocks, empty, empty);
    assert empty + [1] == [1];
  }

  const EARN := DoAdjust(Some(CUP_RULES), 1, 900, 0)
  const CORRECT := DoAdjust(Some(CUP_RULES), 2, -200, 0)
  const WIN := DoReward(CUP_RULES, 1)

  lemma RunThree(s: State, a: Event, b: Event, c: Event)
    ensures Run(s, [a, b, c]) == Next(Next(Next(s, a), b), c)
  {
    assert [a, b, c][1..] == [b, c] && [b, c][1..] == [c] && [c][1..] == [];
    assert Run(s, [a, b, c]) == Run(Next(s, a), [b, c]);
    assert Run(Next(s, a), [b, c]) == Run(Next(Next(s, a), b), [c]);
  }

  // Up to 900 points the unlock is earned, a correction to 700 revokes it, and a won battle back to
  // 900 reaches the level again without giving the unlock back.
  lemma RewardLeavesRevoked()
    ensures var t := Run(NEWCOMER, [EARN, CORRECT, WIN]);
            t.points == 900 && t.level == 10 && t.unlocks == map[1 := Revoked] && !InSync(t, CUP_RULES)
  {
    RunThree(NEWCOMER, EARN, CORRECT, WIN);
    LinearClosedForm(900);
    LinearClosedForm(700);
    var first := Adjustment(1, 900, 0, Summary(0, 900, 1, 10, [1], []));
    var s1 := State(true, 900, 10, map[1 := Active], [first]);
    var none: map<nat, UnlockStatus> := map[];
    OneUnlock(none, 10);
    OneUnlock(map[1 := Active], 8);
    OneUnlock(map[1 := Revoked], 10);
    assert Sync(none, [CUP], 10) == (map[1 := Active], [1], []);
    assert Next(NEWCOMER, EARN) == s1;
    assert Synced(map[1 := Active], [CUP], 8) == map[1 := Revoked];
    assert FindAdjustment([first], 2) == None by { assert [first][1..] == []; }
    var s2 := Next(s1, CORRECT);
    assert s2.points == 700 && s2.unlocks == map[1 := Revoked];
    var t := Next(s2, WIN);
    assert t.points == 900 && t.level == 10 && t.unlocks == map[1 := Revoked];
    assert CUP in CUP_RULES.unlocks && !IsActive(t.unlocks, CUP.key);
  }

  // ----- The player's rows -----

  class TrainerRow {
    const playerActive: bool
    var points: nat
    var level: nat
    var unlocks: map<nat, UnlockStatus>
    var ledger: seq<Entry>

    ghost function Contents(): State
      reads this
    {
      State(playerActive, points, level, unlocks, ledger)
    }

    constructor (playerActive: bool)
      ensures Contents() == State(playerActive, 0, 1, map[], [])
    {
      this.playerActive := playerActive;
      points, level, unlocks, ledger := 0, 1, map[], [];
    }

    method AdjustTrainerProgress(rules: Option<Rules>, key: nat, delta: int, audit: nat) returns (outcome: Outcome)
      modifies `points, `level, `unlocks, `ledger
      ensures (Contents(), outcome) == Adjust(old(Contents()), rules, key, delta, audit)
      ensures outcome.Applied? && ValidRules(rules.value) ==>
                && outcome.result.before == old(points) && outcome.result.after == points
                && outcome.result.beforeLevel == old(level) && outcome.result.afterLevel == level
                && Reports(old(unlocks), unlocks, rules.value.unlocks, outcome.result.activated, outcome.result.revoked)
    {
      if rules.Some? && ValidRules(rules.value) && Adjust(Contents(), rules, key, delta, audit).1.Applied? {
        SummaryIsAccurate(Contents(), rules.value, key, delta, audit);
      }
      var existing := FindAdjustment(ledger, key);
      if existing.Some? {
        if existing.value.delta == delta && existing.value.audit == audit {
          return Replayed(existing.value.result);
        }
        return IdempotencyConflict;
      }
      if !playerActive {
        return StateInvalid;
      }
      if rules.None? {
        return RulesMissing;
      }
      var after := points + delta;
      if after > MAX_SAFE_INTEGER || after < -MAX_SAFE_INTEGER {
        return StateInvalid;
      }
      if after < 0 {
        return Underflow;
      }
      var afterLevel := LevelFor(after, rules.value.curve);
      var wanted := rules.value.unlocks;
      var activated: seq<nat>, revoked: seq<nat>, rows := [], [], unlocks;
      var i := 0;
      while i < |wanted|
        invariant 0 <= i <= |wanted| && Contents() == old(Contents())
        invariant (rows, activated, revoked) == Sync(unlocks, wanted[..i], afterLevel)
      {
        var u := wanted[i];
        assert wanted[..i + 1][..i] == wanted[..i];
        if afterLevel >= u.level {
          if u.key !in rows || rows[u.key].Revoked? {
            rows := rows[u.key := Active];
            activated := activated + [u.key];
          } else {
            assert rows[u.key := Active] == rows;
          }
        } else if u.key in rows && rows[u.key].Active? {
          rows := rows[u.key := Revoked];
          revoked := revoked + [u.key];
        }
        i := i + 1;
      }
      assert wanted[..i] == wanted;
      var result := Summary(points, after, level, afterLevel, activated, revoked);
      points, level, unlocks, ledger := after, afterLevel, rows, ledger + [Adjustment(key, delta, audit, result)];
      outcome := Applied(result);
    }

    method ApplyBattleReward(rules: Rules, battle: nat)
      modifies `points, `level, `unlocks, `ledger
      ensures Contents() == Reward(old(Contents()), rules, battle)
    {
      var after := points + rules.pointsPerWin;
      if after > MAX_SAFE_INTEGER {
        return;
      }
      var afterLevel := LevelFor(after, rules.curve);
      var rows := unlocks;
      var i := 0;
      while i < |rules.unlocks|
        invariant 0 <= i <= |rules.unlocks| && Contents() == old(Contents())
        invariant rows == Inserted(unlocks, rules.unlocks[..i], afterLevel)
      {
        var u := rules.unlocks[i];
        assert rules.unlocks[..i + 1][..i] == rules.unlocks[..i];
        if u.level <= afterLevel && u.key !in rows {
          rows := rows[u.key := Active];
        }
        i := i + 1;
      }
      assert rules.unlocks[..i] == rules.unlocks;
      points, level, unlocks, ledger := after, afterLevel, rows, ledger + [BattleReward(battle, rules.pointsPerWin)];
    }
  }
}
