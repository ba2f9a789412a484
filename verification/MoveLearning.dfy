/** Learning moves on level-up: four slots, pending choices when they are full, and the resolution of
  * a choice.
  */
module MoveLearning {
  import opened Wrappers

  type MoveId = nat

  const SLOT_COUNT := 4

  datatype ChoiceStatus = Pending | Skipped | Resolved(slot: nat)

  // A choice is unique per Pokemon, release, move and learn level; one Pokemon and its release are
  // fixed here.
  datatype ChoiceKey = ChoiceKey(move: MoveId, level: nat)

  datatype State = State(slots: map<nat, MoveId>, choices: map<ChoiceKey, ChoiceStatus>)

  // One call of the level handler: the moves the current form learns at a crossed level.
  datatype Batch = Batch(level: nat, moves: seq<MoveId>)

  predicate ValidSlots(slots: map<nat, MoveId>) {
    forall n :: n in slots ==> 1 <= n <= SLOT_COUNT
  }

  predicate Knows(slots: map<nat, MoveId>, move: MoveId) {
    exists n :: n in slots && slots[n] == move
  }

  function FreeFrom(slots: map<nat, MoveId>, n: nat): Option<nat>
    decreases SLOT_COUNT + 1 - n
  {
    if n > SLOT_COUNT then None
    else if n !in slots then Some(n)
    else FreeFrom(slots, n + 1)
  }

  function FreeSlot(slots: map<nat, MoveId>): Option<nat> { FreeFrom(slots, 1) }

  function LearnOne(s: State, move: MoveId, level: nat): State {
    var key := ChoiceKey(move, level);
    if Knows(s.slots, move) then s
    else if FreeSlot(s.slots).Some? then s.(slots := s.slots[FreeSlot(s.slots).value := move])
    else if key in s.choices then s
    else s.(choices := s.choices[key := Pending])
  }

  function LearnMoves(s: State, moves: seq<MoveId>, level: nat): State {
    if moves == [] then s
    else LearnOne(LearnMoves(s, moves[..|moves| - 1], level), moves[|moves| - 1], level)
  }

  function LearnBatches(s: State, batches: seq<Batch>): State {
    if batches == [] then s
    else
      var last := batches[|batches| - 1];
      LearnMoves(LearnBatches(s, batches[..|batches| - 1]), last.moves, last.level)
  }

  // ----- What learning keeps -----

  // Learning never touches an occupied slot or an existing choice.
  predicate Extends(s: State, t: State) {
    && (forall n :: n in s.slots ==> n in t.slots && t.slots[n] == s.slots[n])
    && (forall k :: k in s.choices ==> k in t.choices && t.choices[k] == s.choices[k])
  }

  // The taken slots are the lowest ones.
  predicate Gapless(slots: map<nat, MoveId>) {
    forall m, n :: n in slots && 1 <= m <= n ==> m in slots
  }

  predicate DistinctMoves(slots: map<nat, MoveId>) {
    forall m, n :: m in slots && n in slots && m != n ==> slots[m] != slots[n]
  }

  lemma {:induction false} FreeFromExact(slots: map<nat, MoveId>, n: nat)
    ensures FreeFrom(slots, n).Some? ==>
              && n <= FreeFrom(slots, n).value <= SLOT_COUNT && FreeFrom(slots, n).value !in slots
              && forall k :: n <= k < FreeFrom(slots, n).value ==> k in slots
    ensures FreeFrom(slots, n).None? <==> forall k :: n <= k <= SLOT_COUNT ==> k in slots
    decreases SLOT_COUNT + 1 - n
  {
    if n <= SLOT_COUNT && n in slots {
      FreeFromExact(slots, n + 1);
    }
  }

  lemma LearnOneKeeps(s: State, move: MoveId, level: nat)
    requires ValidSlots(s.slots)
    ensures var t := LearnOne(s, move, level);
            && ValidSlots(t.slots) && Extends(s, t)
            && (DistinctMoves(s.slots) ==> DistinctMoves(t.slots))
            && (Gapless(s.slots) ==> Gapless(t.slots))
            && (Knows(t.slots, move) || ChoiceKey(move, level) in t.choices)
  {
    FreeFromExact(s.slots, 1);
    var t := LearnOne(s, move, level);
    if t.slots != s.slots {
      var free := FreeSlot(s.slots).value;
      assert t.slots[free] == move;
      assert forall n :: n in s.slots ==> s.slots[n] != move;
    }
  }

  lemma {:induction false} LearnMovesKeeps(s: State, moves: seq<MoveId>, level: nat)
    requires ValidSlots(s.slots)
    ensures var t := LearnMoves(s, moves, level);
            && ValidSlots(t.slots) && Extends(s, t)
            && (DistinctMoves(s.slots) ==> DistinctMoves(t.slots))
            && (Gapless(s.slots) ==> Gapless(t.slots))
  {
    if moves != [] {
      var front := moves[..|moves| - 1];
      LearnMovesKeeps(s, front, level);
      LearnOneKeeps(LearnMoves(s, front, level), moves[|moves| - 1], level);
    }
  }

  lemma {:induction false} LearnBatchesKeeps(s: State, batches: seq<Batch>)
    requires ValidSlots(s.slots)
    ensures var t := LearnBatches(s, batches);
            && ValidSlots(t.slots) && Extends(s, t)
            && (DistinctMoves(s.slots) ==> DistinctMoves(t.slots))
            && (Gapless(s.slots) ==> Gapless(t.slots))
  {
    if batches != [] {
      var front, last := batches[..|batches| - 1], batches[|batches| - 1];
      LearnBatchesKeeps(s, front);
      LearnMovesKeeps(LearnBatches(s, front), last.moves, last.level);
    }
  }

  // ----- No move of a crossed level is lost -----

  predicate Offered(batches: seq<Batch>, move: MoveId, level: nat) {
    exists i :: 0 <= i < |batches| && batches[i].level == level && move in batches[i].moves
  }

  predicate Settled(s: State, move: MoveId, level: nat) {
    Knows(s.slots, move) || ChoiceKey(move, level) in s.choices
  }

  lemma SettledStays(s: State, t: State, move: MoveId, level: nat)
    requires Extends(s, t) && Settled(s, move, level)
    ensures Settled(t, move, level)
  {
    if Knows(s.slots, move) {
      var n :| n in s.slots && s.slots[n] == move;
      assert n in t.slots && t.slots[n] == move;
    }
  }

  lemma {:induction false} MovesSettled(s: State, moves: seq<MoveId>, level: nat, move: MoveId)
    requires ValidSlots(s.slots) && move in moves
    ensures Settled(LearnMoves(s, moves, level), move, level)
  {
    var front, last := moves[..|moves| - 1], moves[|moves| - 1];
    LearnMovesKeeps(s, front, level);
    var mid := LearnMoves(s, front, level);
    LearnOneKeeps(mid, last, level);
    if last != move {
      assert move in front;
      MovesSettled(s, front, level, move);
      SettledStays(mid, LearnOne(mid, last, level), move, level);
    }
  }

  lemma {:induction false} BatchesSettled(s: State, batches: seq<Batch>, move: MoveId, level: nat)
    requires ValidSlots(s.slots) && Offered(batches, move, level)
    ensures Settled(LearnBatches(s, batches), move, level)
  {
    var front, last := batches[..|batches| - 1], batches[|batches| - 1];
    LearnBatchesKeeps(s, front);
    var mid := LearnBatches(s, front);
    LearnMovesKeeps(mid, last.moves, last.level);
    if last.level == level && move in last.moves {
      MovesSettled(mid, last.moves, level, move);
    } else {
      var i :| 0 <= i < |batches| && batches[i].level == level && move in batches[i].moves;
      assert front[i] == batches[i];
      BatchesSettled(s, front, move, level);
      SettledStays(mid, LearnMoves(mid, last.moves, last.level), move, level);
    }
  }

  // Over a multi-level reward, with evolutions in between: an offered move that no slot knows
  // afterwards has its one choice for its level, pending unless an earlier level-up had already
  // settled it; and a choice is only ever added for a move that was not learned.
  lemma OfferedMovesAreSettled(s: State, batches: seq<Batch>, move: MoveId, level: nat)
    requires ValidSlots(s.slots) && Offered(batches, move, level)
    ensures var t := LearnBatches(s, batches);
            var key := ChoiceKey(move, level);
            && ValidSlots(t.slots) && Extends(s, t)
            && (!Knows(t.slots, move) ==>
                  key in t.choices && (t.choices[key].Pending? <==> key !in s.choices || s.choices[key].Pending?))
            && (key !in s.choices ==> (key in t.choices <==> !Knows(t.slots, move)))
            && (key !in s.choices && key in t.choices ==> forall n :: 1 <= n <= SLOT_COUNT ==> n in t.slots)
            && (Gapless(s.slots) ==> Gapless(t.slots))
  {
    var key := ChoiceKey(move, level);
    LearnBatchesKeeps(s, batches);
    BatchesSettled(s, batches, move, level);
    NewChoicesArePending(s, batches, key);
    if key !in s.choices && key in LearnBatches(s, batches).choices {
      ChoiceOfBatches(s, batches, key);
      FreeFromExact(LearnBatches(s, batches).slots, 1);
    }
  }

  // A new choice means that all slots are taken and none of them knows the move.
  lemma {:induction false} ChoiceOfMoves(s: State, moves: seq<MoveId>, level: nat, key: ChoiceKey)
    requires key !in s.choices && key in LearnMoves(s, moves, level).choices
    ensures var t := LearnMoves(s, moves, level); FreeSlot(t.slots).None? && !Knows(t.slots, key.move)
  {
    var front := moves[..|moves| - 1];
    if key in LearnMoves(s, front, level).choices {
      ChoiceOfMoves(s, front, level, key);
    }
  }

  lemma {:induction false} ChoiceOfBatches(s: State, batches: seq<Batch>, key: ChoiceKey)
    requires key !in s.choices && key in LearnBatches(s, batches).choices
    ensures var t := LearnBatches(s, batches); FreeSlot(t.slots).None? && !Knows(t.slots, key.move)
  {
    var front, last := batches[..|batches| - 1], batches[|batches| - 1];
    var mid := LearnBatches(s, front);
    if key in mid.choices {
      ChoiceOfBatches(s, front, key);
      FreeFromExact(mid.slots, 1);
      FullSlotsStay(mid, last.moves, last.level);
    } else {
      ChoiceOfMoves(mid, last.moves, last.level, key);
    }
  }

  lemma {:induction false} NewMovesPending(s: State, moves: seq<MoveId>, level: nat, key: ChoiceKey)
    requires key !in s.choices && key in LearnMoves(s, moves, level).choices
    ensures LearnMoves(s, moves, level).choices[key].Pending?
  {
    if moves != [] {
      var front := moves[..|moves| - 1];
      if key in LearnMoves(s, front, level).choices {
        NewMovesPending(s, front, level, key);
      }
    }
  }

  lemma {:induction false} NewChoicesArePending(s: State, batches: seq<Batch>, key: ChoiceKey)
    ensures var t := LearnBatches(s, batches); key !in s.choices && key in t.choices ==> t.choices[key].Pending?
  {
    if batches != [] {
      var front, last := batches[..|batches| - 1], batches[|batches| - 1];
      NewChoicesArePending(s, front, key);
      var mid := LearnBatches(s, front);
      if key in mid.choices {
        LearnKeepsChoice(mid, last.moves, last.level, key);
      } else if key in LearnBatches(s, batches).choices {
        NewMovesPending(mid, last.moves, last.level, key);
      }
    }
  }

  lemma {:induction false} LearnKeepsChoice(s: State, moves: seq<MoveId>, level: nat, key: ChoiceKey)
    requires key in s.choices
    ensures key in LearnMoves(s, moves, level).choices && LearnMoves(s, moves, level).choices[key] == s.choices[key]
  {
    if moves != [] {
      LearnKeepsChoice(s, moves[..|moves| - 1], level, key);
    }
  }

  // Once all four slots are taken, learning only adds choices.
  lemma {:induction false} FullSlotsStay(s: State, moves: seq<MoveId>, level: nat)
    requires forall n :: 1 <= n <= SLOT_COUNT ==> n in s.slots
    ensures LearnMoves(s, moves, level).slots == s.slots
  {
    FreeFromExact(s.slots, 1);
    if moves != [] {
      FullSlotsStay(s, moves[..|moves| - 1], level);
    }
  }

  // ----- Resolving a choice -----

  datatype Outcome = Done | Replayed | NotFound | Conflict

  function Resolve(s: State, key: ChoiceKey, slot: Option<nat>): (State, Outcome) {
    if key !in s.choices then (s, NotFound)
    else if s.choices[key] != Pending then
      (s, if (s.choices[key].Skipped? && slot.None?) || (slot.Some? && s.choices[key] == Resolved(slot.value)) then Replayed
          else Conflict)
    else if slot.None? then (s.(choices := s.choices[key := Skipped]), Done)
    else if slot.value !in s.slots then (s, Conflict)
    else (State(s.slots[slot.value := key.move], s.choices[key := Resolved(slot.value)]), Done)
  }

  datatype Event = DoLearn(batches: seq<Batch>) | DoResolve(key: ChoiceKey, slot: Option<nat>)

  function Next(s: State, e: Event): State {
    match e
    case DoLearn(batches) => LearnBatches(s, batches)
    case DoResolve(key, slot) => Resolve(s, key, slot).0
  }

  function Run(s: State, es: seq<Event>): State
    decreases |es|
  {
    if es == [] then s else Run(Next(s, es[0]), es[1..])
  }

  lemma {:induction false} SettledChoiceStays(s: State, es: seq<Event>, key: ChoiceKey)
    requires ValidSlots(s.slots) && key in s.choices && !s.choices[key].Pending?
    ensures var t := Run(s, es); ValidSlots(t.slots) && key in t.choices && t.choices[key] == s.choices[key]
    decreases |es|
  {
    if es != [] {
      match es[0]
      case DoLearn(batches) =>
        LearnBatchesKeeps(s, batches);
        SettledChoiceStays(LearnBatches(s, batches), es[1..], key);
      case DoResolve(k, slot) => SettledChoiceStays(Resolve(s, k, slot).0, es[1..], key);
    }
  }

  // A resolved choice answers its own decision again for ever, refuses every other, and neither
  // changes a slot or a choice.
  lemma ResolutionIsFinal(s: State, key: ChoiceKey, slot: Option<nat>, later: seq<Event>, other: Option<nat>)
    requires ValidSlots(s.slots) && Resolve(s, key, slot).1.Done?
    ensures var t := Run(Resolve(s, key, slot).0, later);
            Resolve(t, key, other) == (t, if other == slot then Replayed else Conflict)
  {
    SettledChoiceStays(Resolve(s, key, slot).0, later, key);
  }

  // What a decision about a choice is answered: a pending one takes a skip or a slot that is still taken, a
  // decided one only repeats itself; only a resolution changes a slot, and only its own.
  lemma ResolveAnswers(s: State, key: ChoiceKey, slot: Option<nat>)
    ensures var (t, outcome) := Resolve(s, key, slot);
            && (outcome == NotFound <==> key !in s.choices)
            && (outcome == Done <==> key in s.choices && s.choices[key].Pending? && (slot.Some? ==> slot.value in s.slots))
            && (outcome == Replayed <==>
                  key in s.choices && s.choices[key] == if slot.None? then Skipped else Resolved(slot.value))
            && (outcome != Done ==> t == s)
            && (outcome == Done ==>
                  && t.choices == s.choices[key := if slot.None? then Skipped else Resolved(slot.value)]
                  && t.slots == if slot.None? then s.slots else s.slots[slot.value := key.move])
  {
  }

  // ----- When a move is learned twice -----

  predicate AlwaysDistinct(s: State, es: seq<Event>)
    decreases |es|
  {
    DistinctMoves(s.slots) && (es == [] || AlwaysDistinct(Next(s, es[0]), es[1..]))
  }

  // The guard the code lacks: a pending choice goes into an occupied slot while another slot knows
  // its move.
  predicate Repeats(s: State, e: Event) {
    && e.DoResolve? && e.slot.Some? && e.slot.value in s.slots
    && e.key in s.choices && s.choices[e.key].Pending?
    && exists n :: n in s.slots && n != e.slot.value && s.slots[n] == e.key.move
  }

  predicate NeverRepeats(s: State, es: seq<Event>)
    decreases |es|
  {
    es == [] || (!Repeats(s, es[0]) && NeverRepeats(Next(s, es[0]), es[1..]))
  }

  lemma StepDistinctIff(s: State, e: Event)
    requires ValidSlots(s.slots) && DistinctMoves(s.slots)
    ensures ValidSlots(Next(s, e).slots)
    ensures DistinctMoves(Next(s, e).slots) <==> !Repeats(s, e)
  {
    if e.DoLearn? {
      LearnBatchesKeeps(s, e.batches);
    } else if Repeats(s, e) {
      var t := Next(s, e);
      var n :| n in s.slots && n != e.slot.value && s.slots[n] == e.key.move;
      assert t.slots[n] == t.slots[e.slot.value];
    }
  }

  // Over every run of learning and resolving: no two slots ever know the same move if and only if
  // that guard is kept.
  lemma {:induction false} DistinctIffNeverRepeated(s: State, es: seq<Event>)
    requires ValidSlots(s.slots) && DistinctMoves(s.slots)
    ensures AlwaysDistinct(s, es) <==> NeverRepeats(s, es)
    decreases |es|
  {
    if es != [] {
      StepDistinctIff(s, es[0]);
      if !Repeats(s, es[0]) {
        DistinctIffNeverRepeated(Next(s, es[0]), es[1..]);
      }
    }
  }

  // ----- Which releases are safe -----

  // A learnset entry is a move at a level, which is also what identifies its choice; the learnset
  // holds the entries of every form the Pokemon can take.
  predicate MovesFrom(learnset: set<ChoiceKey>, moves: seq<MoveId>, level: nat) {
    forall m :: m in moves ==> ChoiceKey(m, level) in learnset
  }

  predicate BatchesFrom(learnset: set<ChoiceKey>, batches: seq<Batch>) {
    forall b :: b in batches ==> MovesFrom(learnset, b.moves, b.level)
  }

  predicate DrawnFrom(learnset: set<ChoiceKey>, es: seq<Event>) {
    forall e :: e in es && e.DoLearn? ==> BatchesFrom(learnset, e.batches)
  }

  predicate OneLevelEach(learnset: set<ChoiceKey>) {
    forall a, b :: a in learnset && b in learnset && a.move == b.move ==> a == b
  }

  // A pending choice means that all slots are taken and none of them knows its move.
  ghost predicate PendingUnknown(s: State) {
    forall k :: k in s.choices && s.choices[k].Pending? ==> FreeSlot(s.slots).None? && !Knows(s.slots, k.move)
  }

  ghost predicate Careful(learnset: set<ChoiceKey>, s: State) {
    && ValidSlots(s.slots) && DistinctMoves(s.slots) && PendingUnknown(s)
    && forall k :: k in s.choices ==> k in learnset
  }

  lemma CarefulOne(learnset: set<ChoiceKey>, s: State, move: MoveId, level: nat)
    requires Careful(learnset, s) && ChoiceKey(move, level) in learnset
    ensures Careful(learnset, LearnOne(s, move, level))
  {
    LearnOneKeeps(s, move, level);
  }

  lemma {:induction false} CarefulMoves(learnset: set<ChoiceKey>, s: State, moves: seq<MoveId>, level: nat)
    requires Careful(learnset, s) && MovesFrom(learnset, moves, level)
    ensures Careful(learnset, LearnMoves(s, moves, level))
  {
    if moves != [] {
      CarefulMoves(learnset, s, moves[..|moves| - 1], level);
      CarefulOne(learnset, LearnMoves(s, moves[..|moves| - 1], level), moves[|moves| - 1], level);
    }
  }

  lemma {:induction false} CarefulBatches(learnset: set<ChoiceKey>, s: State, batches: seq<Batch>)
    requires Careful(learnset, s) && BatchesFrom(learnset, batches)
    ensures Careful(learnset, LearnBatches(s, batches))
  {
    if batches != [] {
      var front, last := batches[..|batches| - 1], batches[|batches| - 1];
      CarefulBatches(learnset, s, front);
      CarefulMoves(learnset, LearnBatches(s, front), last.moves, last.level);
    }
  }

  lemma CarefulResolve(learnset: set<ChoiceKey>, s: State, key: ChoiceKey, slot: Option<nat>)
    requires Careful(learnset, s) && OneLevelEach(learnset)
    ensures Careful(learnset, Resolve(s, key, slot).0)
  {
    var t := Resolve(s, key, slot).0;
    StepDistinctIff(s, DoResolve(key, slot));
    assert !Repeats(s, DoResolve(key, slot));
    if t != s {
      FreeFromExact(s.slots, 1);
      FreeFromExact(t.slots, 1);
      forall k | k in t.choices && t.choices[k].Pending?
        ensures FreeSlot(t.slots).None? && !Knows(t.slots, k.move)
      {
        assert s.choices[k].Pending? && k != key;
      }
    }
  }

  lemma {:induction false} CarefulRun(learnset: set<ChoiceKey>, s: State, es: seq<Event>)
    requires Careful(learnset, s) && OneLevelEach(learnset) && DrawnFrom(learnset, es)
    ensures AlwaysDistinct(s, es)
    decreases |es|
  {
    if es != [] {
      if es[0].DoLearn? {
        CarefulBatches(learnset, s, es[0].batches);
      } else {
        CarefulResolve(learnset, s, es[0].key, es[0].slot);
      }
      CarefulRun(learnset, Next(s, es[0]), es[1..]);
    }
  }

  // A Pokemon with any distinct moves, whatever it is taught from the learnset and however its choices
  // are resolved, never knows a move twice.
  ghost predicate Safe(learnset: set<ChoiceKey>) {
    forall s: State, es: seq<Event> ::
      ValidSlots(s.slots) && DistinctMoves(s.slots) && s.choices == map[] && DrawnFrom(learnset, es) ==> AlwaysDistinct(s, es)
  }

  // Exactly the learnsets that offer every move at one level only are safe.
  lemma SafeIffOneLevelEach(learnset: set<ChoiceKey>)
    ensures Safe(learnset) <==> OneLevelEach(learnset)
  {
    if OneLevelEach(learnset) {
      forall s: State, es: seq<Event> |
          ValidSlots(s.slots) && DistinctMoves(s.slots) && s.choices == map[] && DrawnFrom(learnset, es)
        ensures AlwaysDistinct(s, es)
      {
        CarefulRun(learnset, s, es);
      }
    } else {
      var a, b :| a in learnset && b in learnset && a.move == b.move && a != b;
      TwoLevelsTeachTwice(a.move, a.level, b.level);
      assert DrawnFrom(learnset, TwiceEvents(a.move, a.level, b.level));
    }
  }

  // Four moves other than the given one.
  function FullWithout(move: MoveId): State {
    State(map[1 := move + 1, 2 := move + 2, 3 := move + 3, 4 := move + 4], map[])
  }

  function TwiceEvents(move: MoveId, first: nat, second: nat): seq<Event> {
    [DoLearn([Batch(first, [move]), Batch(second, [move])]),
     DoResolve(ChoiceKey(move, first), Some(1)), DoResolve(ChoiceKey(move, second), Some(2))]
  }

  lemma TwoChoices(move: MoveId, first: nat, second: nat)
    requires first != second
    ensures LearnBatches(FullWithout(move), [Batch(first, [move]), Batch(second, [move])])
            == FullWithout(move).(choices := map[ChoiceKey(move, first) := Pending, ChoiceKey(move, second) := Pending])
  {
    var s, batches := FullWithout(move), [Batch(first, [move]), Batch(second, [move])];
    FreeFromExact(s.slots, 1);
    assert batches[..1] == [Batch(first, [move])] && batches[..1][..0] == [] && [move][..0] == [];
    var s1 := s.(choices := map[ChoiceKey(move, first) := Pending]);
    assert LearnMoves(s, [move], first) == LearnOne(s, move, first) == s1;
    assert LearnBatches(s, batches[..1]) == s1;
    assert LearnMoves(s1, [move], second) == LearnOne(s1, move, second);
  }

  // A move offered at two levels makes two choices, and resolving both teaches it twice.
  lemma TwoLevelsTeachTwice(move: MoveId, first: nat, second: nat)
    requires first != second
    ensures var s, es := FullWithout(move), TwiceEvents(move, first, second);
            && ValidSlots(s.slots) && DistinctMoves(s.slots)
            && Run(s, es).slots == s.slots[1 := move][2 := move]
            && !AlwaysDistinct(s, es)
  {
    var s, es := FullWithout(move), TwiceEvents(move, first, second);
    TwoChoices(move, first, second);
    var s1, s2, s3 := Next(s, es[0]), Next(Next(s, es[0]), es[1]), Next(Next(Next(s, es[0]), es[1]), es[2]);
    assert s2.slots == s.slots[1 := move] && s3.slots == s.slots[1 := move][2 := move];
    assert s3.slots[1] == s3.slots[2];
    assert es[1..] == [es[1], es[2]] && [es[1], es[2]][1..] == [es[2]] && [es[2]][1..] == [];
    assert Run(s, es) == Run(s1, [es[1], es[2]]) == Run(s2, [es[2]]) == s3;
    assert !AlwaysDistinct(s2, [es[2]]);
    assert !AlwaysDistinct(s1, [es[1], es[2]]);
  }

  // ----- The loops over one Pokemon's rows -----

  class MoveSlots {
    var slots: map<nat, MoveId>
    var choices: map<ChoiceKey, ChoiceStatus>

    constructor (slots: map<nat, MoveId>)
      ensures this.slots == slots && choices == map[]
    {
      this.slots, choices := slots, map[];
    }

    method FindFreeSlot() returns (free: Option<nat>)
      ensures free == FreeSlot(slots)
    {
      free := None;
      for slotNo := 1 to 5
        invariant FreeFrom(slots, 1) == FreeFrom(slots, slotNo)
      {
        if slotNo !in slots {
          return Some(slotNo);
        }
      }
    }

    method LearnMovesAtLevel(moves: seq<MoveId>, level: nat) returns (learned: seq<MoveId>, pending: seq<MoveId>)
      modifies this
      ensures State(slots, choices) == LearnMoves(old(State(slots, choices)), moves, level)
      ensures forall m :: m in learned ==> m in moves && Knows(slots, m)
      ensures forall m :: m in pending ==> m in moves && ChoiceKey(m, level) in choices && choices[ChoiceKey(m, level)].Pending?
    {
      learned, pending := [], [];
      var i := 0;
      while i < |moves|
        invariant 0 <= i <= |moves|
        invariant State(slots, choices) == LearnMoves(old(State(slots, choices)), moves[..i], level)
        invariant forall m :: m in learned ==> m in moves && Knows(slots, m)
        invariant forall m :: m in pending ==> m in moves && ChoiceKey(m, level) in choices && choices[ChoiceKey(m, level)].Pending?
      {
        var move := moves[i];
        assert moves[..i + 1][..i] == moves[..i];
        if !Knows(slots, move) {
          var free := FindFreeSlot();
          if free.Some? {
            ghost var before := slots;
            slots := slots[free.value := move];
            learned := learned + [move];
            FreeFromExact(before, 1);
            StillKnown(before, free.value, move);
          } else {
            var key := ChoiceKey(move, level);
            if key !in choices {
              choices := choices[key := Pending];
            }
            if choices[key].Pending? {
              pending := pending + [move];
            }
          }
        }
        i := i + 1;
      }
      assert moves[..i] == moves;
    }

    lemma StillKnown(before: map<nat, MoveId>, free: nat, move: MoveId)
      requires free !in before
      ensures forall m :: Knows(before, m) || m == move ==> Knows(before[free := move], m)
    {
      var after := before[free := move];
      assert after[free] == move;
      forall m | Knows(before, m) ensures Knows(after, m) {
        var n :| n in before && before[n] == m;
        assert n in after && after[n] == m;
      }
    }
  }
}
