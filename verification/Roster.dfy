/** Where a new Pokemon goes: the first free team slot, else the first free slot of the boxes. */
module Roster {
  import opened Wrappers

  const TEAM_CAPACITY: nat := 6
  const BOX_CAPACITY: nat := 30

  datatype Slot = Team(slotNo: nat) | Box(boxNo: nat, slotNo: nat)

  datatype Placed = Placed(slot: Slot, pokemon: nat)

  predicate Occupied(rows: seq<Placed>, slot: Slot) {
    exists i :: 0 <= i < |rows| && rows[i].slot == slot
  }

  function FreeTeam(rows: seq<Placed>, n: nat): Option<Slot>
    decreases TEAM_CAPACITY + 1 - n
  {
    if n > TEAM_CAPACITY then None
    else if !Occupied(rows, Team(n)) then Some(Team(n))
    else FreeTeam(rows, n + 1)
  }

  // The highest occupied box, 0 when there is none.
  function MaxBox(rows: seq<Placed>): nat {
    if rows == [] then 0
    else
      var rest := MaxBox(rows[..|rows| - 1]);
      var last := rows[|rows| - 1].slot;
      if last.Box? && last.boxNo > rest then last.boxNo else rest
  }

  // The search through boxes 1..limit in (box, slot) order.
  function FreeBox(rows: seq<Placed>, box: nat, slot: nat, limit: nat): Option<Slot>
    decreases limit + 1 - box, BOX_CAPACITY + 1 - slot
  {
    if box > limit then None
    else if slot > BOX_CAPACITY then FreeBox(rows, box + 1, 1, limit)
    else if !Occupied(rows, Box(box, slot)) then Some(Box(box, slot))
    else FreeBox(rows, box, slot + 1, limit)
  }

  function NextPlacement(rows: seq<Placed>): Slot {
    var team := FreeTeam(rows, 1);
    if team.Some? then team.value
    else
      BoxFound(rows);
      FreeBox(rows, 1, 1, MaxBox(rows) + 1).value
  }

  // One slot comes before another in the order of placement.
  predicate Before(a: Slot, b: Slot) {
    match (a, b)
    case (Team(m), Team(n)) => m < n
    case (Team(_), Box(_, _)) => true
    case (Box(_, _), Team(_)) => false
    case (Box(c, m), Box(d, n)) => c < d || (c == d && m < n)
  }

  predicate ValidSlot(slot: Slot) {
    match slot
    case Team(n) => 1 <= n <= TEAM_CAPACITY
    case Box(b, n) => 1 <= b && 1 <= n <= BOX_CAPACITY
  }

  lemma {:induction false} MaxBoxBounds(rows: seq<Placed>, i: nat)
    requires i < |rows| && rows[i].slot.Box?
    ensures rows[i].slot.boxNo <= MaxBox(rows)
  {
    if i < |rows| - 1 {
      assert rows[..|rows| - 1][i] == rows[i];
      MaxBoxBounds(rows[..|rows| - 1], i);
    }
  }

  lemma {:induction false} FreeTeamExact(rows: seq<Placed>, n: nat)
    requires 1 <= n
    ensures FreeTeam(rows, n).Some? ==>
              && FreeTeam(rows, n).value.Team? && ValidSlot(FreeTeam(rows, n).value) && !Occupied(rows, FreeTeam(rows, n).value)
              && forall m :: n <= m < FreeTeam(rows, n).value.slotNo ==> Occupied(rows, Team(m))
    ensures FreeTeam(rows, n).None? ==> forall m :: n <= m <= TEAM_CAPACITY ==> Occupied(rows, Team(m))
    decreases TEAM_CAPACITY + 1 - n
  {
    if n <= TEAM_CAPACITY && Occupied(rows, Team(n)) {
      FreeTeamExact(rows, n + 1);
    }
  }

  // From (box, slot) on, everything before the slot found is occupied.
  lemma {:induction false} FreeBoxExact(rows: seq<Placed>, box: nat, slot: nat, limit: nat)
    requires 1 <= box && 1 <= slot <= BOX_CAPACITY + 1
    ensures var found := FreeBox(rows, box, slot, limit);
            && (found.Some? ==>
                  && found.value.Box? && ValidSlot(found.value) && !Occupied(rows, found.value)
                  && forall s :: ValidSlot(s) && s.Box? && !Before(s, Box(box, slot)) && Before(s, found.value) ==> Occupied(rows, s))
            && (found.None? ==> forall s :: ValidSlot(s) && s.Box? && !Before(s, Box(box, slot)) && s.boxNo <= limit ==> Occupied(rows, s))
    decreases limit + 1 - box, BOX_CAPACITY + 1 - slot
  {
    if box <= limit {
      if slot > BOX_CAPACITY {
        FreeBoxExact(rows, box + 1, 1, limit);
      } else if Occupied(rows, Box(box, slot)) {
        FreeBoxExact(rows, box, slot + 1, limit);
      }
    }
  }

  // The box after the last occupied one is empty, so the search always finds a slot.
  lemma BoxFound(rows: seq<Placed>)
    ensures FreeBox(rows, 1, 1, MaxBox(rows) + 1).Some?
  {
    var limit := MaxBox(rows) + 1;
    FreeBoxExact(rows, 1, 1, limit);
    if Occupied(rows, Box(limit, 1)) {
      var i :| 0 <= i < |rows| && rows[i].slot == Box(limit, 1);
      MaxBoxBounds(rows, i);
    }
    assert ValidSlot(Box(limit, 1));
  }

  // The placement is a free valid slot and the first one: every slot before it is occupied. So a
  // box is used exactly when all six team slots are taken.
  lemma PlacementIsFirstFree(rows: seq<Placed>)
    ensures var slot := NextPlacement(rows);
            && ValidSlot(slot) && !Occupied(rows, slot)
            && (forall s :: ValidSlot(s) && Before(s, slot) ==> Occupied(rows, s))
            && (slot.Box? <==> forall n :: 1 <= n <= TEAM_CAPACITY ==> Occupied(rows, Team(n)))
  {
    FreeTeamExact(rows, 1);
    if FreeTeam(rows, 1).None? {
      BoxFound(rows);
      FreeBoxExact(rows, 1, 1, MaxBox(rows) + 1);
    }
  }

  // The loop over the team, then the box search.
  method FindPlacement(rows: seq<Placed>) returns (slot: Slot)
    ensures slot == NextPlacement(rows)
  {
    for n := 1 to TEAM_CAPACITY + 1
      invariant FreeTeam(rows, 1) == FreeTeam(rows, n)
    {
      if !Occupied(rows, Team(n)) {
        return Team(n);
      }
    }
    BoxFound(rows);
    var limit := MaxBox(rows) + 1;
    slot := Box(limit, 1);
    var box, at := 1, 1;
    while box <= limit
      invariant 1 <= box <= limit + 1 && 1 <= at <= BOX_CAPACITY + 1
      invariant FreeBox(rows, 1, 1, limit) == FreeBox(rows, box, at, limit)
      decreases limit + 1 - box, BOX_CAPACITY + 1 - at
    {
      if at > BOX_CAPACITY {
        box, at := box + 1, 1;
      } else if !Occupied(rows, Box(box, at)) {
        return Box(box, at);
      } else {
        at := at + 1;
      }
    }
    assert false;
  }
}
