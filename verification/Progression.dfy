/** Pokemon experience: the level-by-level carry loop, its closed form as an integer cube root, and
  * the laws that follow.
  */
module Progression {
  import opened Wrappers

  const LEVEL_CAP: nat := 100

  datatype XpError = LevelOutOfRange | NegativeXp | NegativeGain | XpAboveThreshold

  datatype Progress = Progress(afterLevel: nat, afterXp: nat, awarded: nat, discarded: nat, crossed: seq<nat>)

  datatype XpResult = Ok(value: Progress) | Err(error: XpError)

  function Cube(n: int): int { n * n * n }

  // Experience still needed from the start of a level to the next one; none outside 1..99.
  function RequiredForNext(level: int): (required: nat)
    ensures 1 <= level < LEVEL_CAP ==> Cube(level) + required == Cube(level + 1) && required >= 7
  {
    if level < 1 || level >= LEVEL_CAP then 0
    else
      CubeStep(level);
      Cube(level + 1) - Cube(level)
  }

  lemma CubeStep(n: int)
    requires n >= 1
    ensures Cube(n + 1) - Cube(n) == 3 * n * n + 3 * n + 1 >= 7
  {
  }

  // ----- The carry loop -----

  function Carry(level: nat, xp: nat, cap: nat): (nat, nat)
    decreases cap - level
  {
    if level < cap && xp >= RequiredForNext(level) then Carry(level + 1, xp - RequiredForNext(level), cap)
    else (level, xp)
  }

  function Levels(low: nat, high: nat): seq<nat>
    decreases high - low
  {
    if low >= high then [] else [low + 1] + Levels(low + 1, high)
  }

  function Invalid(level: int, xp: int, gain: int, cap: nat): Option<XpError> {
    if level < 1 || level > cap then Some(LevelOutOfRange)
    else if xp < 0 then Some(NegativeXp)
    else if gain < 0 then Some(NegativeGain)
    else if level != cap && xp >= RequiredForNext(level) then Some(XpAboveThreshold)
    else None
  }

  function ApplyXp(level: int, xp: int, gain: int, cap: nat): XpResult {
    if Invalid(level, xp, gain, cap).Some? then Err(Invalid(level, xp, gain, cap).value)
    else if level == cap then Ok(Progress(level, 0, 0, gain, []))
    else
      var (after, rest) := Carry(level, xp + gain, cap);
      if after == cap && rest > 0 then
        Ok(Progress(after, 0, if gain > rest then gain - rest else 0, rest, Levels(level, after)))
      else Ok(Progress(after, rest, gain, 0, Levels(level, after)))
  }

  // The source's loop.
  method ApplyPokemonXp(startLevel: int, startXp: int, gain: int, cap: nat) returns (r: XpResult)
    ensures r == ApplyXp(startLevel, startXp, gain, cap)
    ensures r == Err(LevelOutOfRange) <==> !(1 <= startLevel <= cap)
    ensures r == Err(NegativeXp) <==> 1 <= startLevel <= cap && startXp < 0
    ensures r == Err(NegativeGain) <==> 1 <= startLevel <= cap && startXp >= 0 && gain < 0
    ensures r == Err(XpAboveThreshold) <==>
              1 <= startLevel < cap && startXp >= 0 && gain >= 0 && startXp >= RequiredForNext(startLevel)
  {
    if startLevel < 1 || startLevel > cap {
      return Err(LevelOutOfRange);
    }
    if startXp < 0 {
      return Err(NegativeXp);
    }
    if gain < 0 {
      return Err(NegativeGain);
    }
    if startLevel == cap {
      return Ok(Progress(startLevel, 0, 0, gain, []));
    }
    if startXp >= RequiredForNext(startLevel) {
      return Err(XpAboveThreshold);
    }
    var level: nat, xp: nat, crossed: seq<nat> := startLevel, startXp + gain, [];
    while level < cap
      invariant startLevel <= level <= cap
      invariant Carry(startLevel, startXp + gain, cap) == Carry(level, xp, cap)
      invariant forall high :: high >= level ==> Levels(startLevel, high) == crossed + Levels(level, high)
    {
      var threshold := RequiredForNext(level);
      if xp < threshold {
        break;
      }
      xp := xp - threshold;
      level := level + 1;
      crossed := crossed + [level];
    }
    assert Levels(level, level) == [];
    if level == cap && xp > 0 {
      r := Ok(Progress(level, 0, if gain > xp then gain - xp else 0, xp, crossed));
    } else {
      r := Ok(Progress(level, xp, gain, 0, crossed));
    }
  }

  // ----- Closed form -----

  predicate IsCubeRoot(root: nat, total: int) {
    Cube(root) <= total < Cube(root + 1)
  }

  lemma {:induction false} CubeMonotone(a: nat, b: nat)
    requires a <= b
    ensures Cube(a) <= Cube(b)
    decreases b - a
  {
    if a < b {
      CubeMonotone(a + 1, b);
    }
  }

  lemma CubeRootUnique(a: nat, b: nat, total: int)
    requires IsCubeRoot(a, total) && IsCubeRoot(b, total)
    ensures a == b
  {
    if a < b {
      CubeMonotone(a + 1, b);
    } else if b < a {
      CubeMonotone(b + 1, a);
    }
  }

  // The carry keeps level^3 + xp, stops below the next threshold or at the cap, and so lands on the
  // integer cube root of the total, cut off at the cap.
  lemma {:induction false} CarryIsCubeRoot(level: nat, xp: nat, cap: nat)
    requires 1 <= level <= cap <= LEVEL_CAP
    ensures var (after, rest) := Carry(level, xp, cap);
            && level <= after <= cap
            && Cube(after) + rest == Cube(level) + xp
            && (after < cap ==> rest < RequiredForNext(after) && IsCubeRoot(after, Cube(level) + xp))
            && (after == cap <==> Cube(level) + xp >= Cube(cap))
    decreases cap - level
  {
    if level < cap && xp >= RequiredForNext(level) {
      CarryIsCubeRoot(level + 1, xp - RequiredForNext(level), cap);
    } else if level < cap {
      CubeMonotone(level + 1, cap);
    }
  }

  // Award results in closed form: the level is the cube root of the total experience or the cap,
  // the remainder is what the cube leaves, and what goes beyond the cap is discarded.
  lemma AwardClosedForm(level: int, xp: int, gain: int, cap: nat, root: nat)
    requires cap <= LEVEL_CAP && Invalid(level, xp, gain, cap).None? && level < cap
    requires IsCubeRoot(root, Cube(level) + xp + gain)
    ensures var p := ApplyXp(level, xp, gain, cap).value;
            var total := Cube(level) + xp + gain;
            && p.afterLevel == (if root < cap then root else cap)
            && p.afterXp == (if root < cap then total - Cube(root) else 0)
            && p.discarded == (if root < cap then 0 else total - Cube(cap))
            && p.awarded + p.discarded == gain
            && p.crossed == Levels(level, p.afterLevel)
  {
    CarryIsCubeRoot(level, xp + gain, cap);
    var (after, rest) := Carry(level, xp + gain, cap);
    if after < cap {
      CubeRootUnique(after, root, Cube(level) + xp + gain);
    } else {
      if root < cap {
        CubeMonotone(root + 1, cap);
      }
      CubeMonotone(level + 1, cap);
    }
  }

  // Experience is conserved, and the result is a valid input again, except that experience stored
  // on a Pokemon already at the cap vanishes.
  lemma ConservedIff(level: int, xp: int, gain: int, cap: nat)
    requires cap <= LEVEL_CAP && Invalid(level, xp, gain, cap).None?
    ensures var p := ApplyXp(level, xp, gain, cap).value;
            && (Cube(p.afterLevel) + p.afterXp + p.discarded == Cube(level) + xp + gain <==> level < cap || xp == 0)
            && p.awarded + p.discarded == gain
            && (forall more: nat :: Invalid(p.afterLevel, p.afterXp, more, cap).None?)
            && (p.afterLevel == cap ==> p.afterXp == 0)
  {
    if level < cap {
      CarryIsCubeRoot(level, xp + gain, cap);
      CubeMonotone(level + 1, cap);
    }
  }

  lemma CubeRootExists(total: nat) returns (root: nat)
    ensures IsCubeRoot(root, total)
  {
    root := 0;
    while Cube(root + 1) <= total
      invariant Cube(root) <= total
      decreases total - Cube(root)
    {
      CubeGrows(root);
      root := root + 1;
    }
  }

  lemma CubeGrows(n: nat)
    ensures Cube(n + 1) > Cube(n)
  {
  }

  lemma {:induction false} LevelsSplit(a: nat, b: nat, c: nat)
    requires a <= b <= c
    ensures Levels(a, c) == Levels(a, b) + Levels(b, c)
    decreases b - a
  {
    if a < b {
      LevelsSplit(a + 1, b, c);
    }
  }

  // The levels crossed are every level above the old one up to the new one, in order.
  lemma {:induction false} LevelsAre(low: nat, high: nat)
    requires low <= high
    ensures |Levels(low, high)| == high - low
    ensures forall i :: 0 <= i < high - low ==> Levels(low, high)[i] == low + 1 + i
    decreases high - low
  {
    if low < high {
      LevelsAre(low + 1, high);
    }
  }

  // Awarding a and then b is awarding a + b: same level, same remainder, same levels crossed, and
  // the awarded and discarded amounts add up, whether or not the cap is reached on the way.
  lemma AwardsAdd(level: int, xp: int, a: nat, b: nat, cap: nat)
    requires cap <= LEVEL_CAP && Invalid(level, xp, a, cap).None?
    ensures var p := ApplyXp(level, xp, a, cap).value;
            var q := ApplyXp(p.afterLevel, p.afterXp, b, cap);
            q.Ok? && ApplyXp(level, xp, a + b, cap) == Ok(Both(p, q.value))
  {
    ConservedIff(level, xp, a, cap);
    if level < cap {
      var first := CubeRootExists(Cube(level) + xp + a);
      var all := CubeRootExists(Cube(level) + xp + a + b);
      if first < cap {
        AwardsAddBelow(level, xp, a, b, cap, first, all);
      } else {
        RootsOrdered(first, all, Cube(level) + xp + a, b);
        AwardsAddAtCap(level, xp, a, b, cap, first, all);
      }
    }
  }

  function Both(p: Progress, q: Progress): Progress {
    Progress(q.afterLevel, q.afterXp, p.awarded + q.awarded, p.discarded + q.discarded, p.crossed + q.crossed)
  }

  lemma AwardsAddBelow(level: int, xp: int, a: nat, b: nat, cap: nat, first: nat, all: nat)
    requires cap <= LEVEL_CAP && Invalid(level, xp, a, cap).None? && level < cap && first < cap
    requires IsCubeRoot(first, Cube(level) + xp + a) && IsCubeRoot(all, Cube(level) + xp + a + b)
    ensures var p := ApplyXp(level, xp, a, cap).value;
            var q := ApplyXp(p.afterLevel, p.afterXp, b, cap);
            q.Ok? && ApplyXp(level, xp, a + b, cap) == Ok(Both(p, q.value))
  {
    RootsOrdered(first, all, Cube(level) + xp + a, b);
    ConservedIff(level, xp, a, cap);
    CarryIsCubeRoot(level, xp + a, cap);
    AwardClosedForm(level, xp, a, cap, first);
    AwardClosedForm(level, xp, a + b, cap, all);
    var p := ApplyXp(level, xp, a, cap).value;
    assert Cube(p.afterLevel) + p.afterXp + b == Cube(level) + xp + a + b;
    AwardClosedForm(p.afterLevel, p.afterXp, b, cap, all);
    LevelsSplit(level, first, if all < cap then all else cap);
  }

  lemma AwardsAddAtCap(level: int, xp: int, a: nat, b: nat, cap: nat, first: nat, all: nat)
    requires cap <= LEVEL_CAP && Invalid(level, xp, a, cap).None? && level < cap && cap <= first <= all
    requires IsCubeRoot(first, Cube(level) + xp + a) && IsCubeRoot(all, Cube(level) + xp + a + b)
    ensures var p := ApplyXp(level, xp, a, cap).value;
            var q := ApplyXp(p.afterLevel, p.afterXp, b, cap);
            q.Ok? && ApplyXp(level, xp, a + b, cap) == Ok(Both(p, q.value))
  {
    AwardClosedForm(level, xp, a, cap, first);
    AwardClosedForm(level, xp, a + b, cap, all);
    assert Levels(level, cap) + [] == Levels(level, cap);
  }

  lemma RootsOrdered(first: nat, all: nat, total: int, b: nat)
    requires IsCubeRoot(first, total) && IsCubeRoot(all, total + b)
    ensures first <= all
  {
    if all < first {
      CubeMonotone(all + 1, first);
    }
  }

  // ----- Battle experience -----

  function BattleXp(baseExp: nat, defeatedLevel: nat): (xp: nat)
    requires baseExp > 0 && defeatedLevel >= 1
    ensures xp >= 1 && 7 * (xp - 1) < baseExp * defeatedLevel
    ensures baseExp * defeatedLevel >= 7 ==> 7 * xp <= baseExp * defeatedLevel < 7 * (xp + 1)
  {
    assert baseExp * defeatedLevel >= 1;
    var share := baseExp * defeatedLevel / 7;
    if share < 1 then 1 else share
  }
}
