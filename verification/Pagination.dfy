/** Keyset pagination of the player search, newest first, with a cursor that keeps milliseconds of a
  * microsecond timestamp.
  */
module Pagination {
  import opened Wrappers

  datatype Access = AccessPending | AccessProvisioning | AccessActive | AccessSuspended

  // createdAt in microseconds, as the database stores it.
  datatype Player = Player(id: nat, createdAt: nat, access: Access)

  datatype Cursor = Cursor(createdAt: nat, id: nat)

  // ----- One page -----

  predicate Listed(p: Player) { p.access in {AccessActive, AccessSuspended} }

  predicate Before(at0: nat, id0: nat, at1: nat, id1: nat) { at0 < at1 || (at0 == at1 && id0 < id1) }

  predicate Older(p: Player, q: Player) { Before(p.createdAt, p.id, q.createdAt, q.id) }

  predicate Below(p: Player, cursor: Option<Cursor>) {
    cursor.None? || Before(p.createdAt, p.id, cursor.value.createdAt, cursor.value.id)
  }

  // The table in the order of the query: newest first, keys distinct.
  predicate Sorted(rows: seq<Player>) {
    forall i, j :: 0 <= i < j < |rows| ==> Older(rows[j], rows[i])
  }

  // The rows the query selects: listed players below the cursor, in table order.
  function Matching(rows: seq<Player>, cursor: Option<Cursor>): seq<Player> {
    if rows == [] then []
    else (if Listed(rows[0]) && Below(rows[0], cursor) then [rows[0]] else []) + Matching(rows[1..], cursor)
  }

  // An ISO string of a JavaScript Date: whole milliseconds.
  function CursorOf(p: Player): Cursor { Cursor(p.createdAt / 1000 * 1000, p.id) }

  function PageOf(rows: seq<Player>, cursor: Option<Cursor>, limit: nat): seq<Player> {
    var found := Matching(rows, cursor);
    if |found| > limit then found[..limit] else found
  }

  function NextCursor(rows: seq<Player>, cursor: Option<Cursor>, limit: nat): Option<Cursor>
    requires limit > 0
  {
    var found := Matching(rows, cursor);
    if |found| > limit then Some(CursorOf(found[limit - 1])) else None
  }

  lemma {:induction false} MatchingExact(rows: seq<Player>, cursor: Option<Cursor>)
    ensures forall p :: p in Matching(rows, cursor) <==> p in rows && Listed(p) && Below(p, cursor)
    ensures |Matching(rows, cursor)| <= |rows|
  {
    if rows != [] {
      MatchingExact(rows[1..], cursor);
      assert rows == [rows[0]] + rows[1..];
    }
  }

  lemma {:induction false} MatchingSorted(rows: seq<Player>, cursor: Option<Cursor>)
    requires Sorted(rows)
    ensures Sorted(Matching(rows, cursor))
  {
    if rows != [] {
      MatchingSorted(rows[1..], cursor);
      MatchingExact(rows[1..], cursor);
      var rest := Matching(rows[1..], cursor);
      forall i | 0 <= i < |rest| ensures Older(rest[i], rows[0]) {
        assert rest[i] in rest && rest[i] in rows[1..];
        var k :| 0 <= k < |rows[1..]| && rows[1..][k] == rest[i];
        assert rows[k + 1] == rest[i];
      }
    }
  }

  // Filtering twice, the second time by a lower cursor, is filtering by the lower cursor.
  lemma {:induction false} MatchingAgain(rows: seq<Player>, cursor: Option<Cursor>, lower: Cursor)
    requires forall p :: Below(p, Some(lower)) ==> Below(p, cursor)
    ensures Matching(rows, Some(lower)) == Matching(Matching(rows, cursor), Some(lower))
  {
    if rows != [] {
      MatchingAgain(rows[1..], cursor, lower);
      if Listed(rows[0]) && Below(rows[0], cursor) {
        var rest := Matching(rows[1..], cursor);
        var all := [rows[0]] + rest;
        assert Matching(rows, cursor) == all && all[0] == rows[0] && all[1..] == rest;
      } else {
        assert Matching(rows, cursor) == Matching(rows[1..], cursor);
        assert Matching(rows, Some(lower)) == Matching(rows[1..], Some(lower));
      }
    }
  }

  // In a sorted list the rows below a key form a suffix.
  lemma {:induction false} MatchingSuffix(found: seq<Player>, cut: nat, cursor: Cursor)
    requires Sorted(found) && cut <= |found| && forall i :: 0 <= i < |found| ==> Listed(found[i])
    requires forall i :: 0 <= i < cut ==> !Below(found[i], Some(cursor))
    ensures |Matching(found, Some(cursor))| <= |found| - cut
    ensures (cut < |found| ==> Below(found[cut], Some(cursor))) ==> Matching(found, Some(cursor)) == found[cut..]
    decreases |found|
  {
    if cut > 0 {
      assert Sorted(found[1..]) && found[1..][cut - 1..] == found[cut..];
      MatchingSuffix(found[1..], cut - 1, cursor);
    } else if found != [] {
      MatchingExact(found, Some(cursor));
      if Below(found[0], Some(cursor)) {
        AllBelow(found, cursor);
      }
    }
  }

  lemma {:induction false} AllBelow(found: seq<Player>, cursor: Cursor)
    requires Sorted(found) && forall i :: 0 <= i < |found| ==> Listed(found[i])
    requires found != [] ==> Below(found[0], Some(cursor))
    ensures Matching(found, Some(cursor)) == found
  {
    if found != [] {
      assert Sorted(found[1..]);
      assert |found| > 1 ==> Older(found[1], found[0]);
      AllBelow(found[1..], cursor);
    }
  }

  // ----- The walk through all pages -----

  lemma CutAtCursor(found: seq<Player>, limit: nat)
    requires Sorted(found) && 0 < limit < |found| && forall i :: 0 <= i < |found| ==> Listed(found[i])
    ensures var next := Some(CursorOf(found[limit - 1]));
            && |Matching(found, next)| <= |found| - limit
            && (Matching(found, next) == found[limit..] <==> Below(found[limit], next))
  {
    var next := Some(CursorOf(found[limit - 1]));
    MatchingSuffix(found, limit, next.value);
    MatchingExact(found, next);
    if !Below(found[limit], next) {
      assert found[limit] == found[limit..][0] && found[limit] in found[limit..];
    }
  }

  // A page's successor starts strictly later in the order.
  lemma NextIsShorter(rows: seq<Player>, cursor: Option<Cursor>, limit: nat)
    requires Sorted(rows) && limit > 0 && NextCursor(rows, cursor, limit).Some?
    ensures var next := NextCursor(rows, cursor, limit);
            var found := Matching(rows, cursor);
            && |Matching(rows, next)| <= |found| - limit
            && (Matching(rows, next) == found[limit..] <==> Below(found[limit], next))
  {
    var found, next := Matching(rows, cursor), NextCursor(rows, cursor, limit);
    MatchingExact(rows, cursor);
    MatchingSorted(rows, cursor);
    assert forall i :: 0 <= i < |found| ==> found[i] in found;
    CutAtCursor(found, limit);
    CursorIsLower(found, limit, cursor);
    MatchingAgain(rows, cursor, next.value);
  }

  lemma CursorIsLower(found: seq<Player>, limit: nat, cursor: Option<Cursor>)
    requires 0 < limit <= |found| && forall p :: p in found ==> Below(p, cursor)
    ensures forall p :: p in found[..limit] ==> p in found
    ensures forall p :: Below(p, Some(CursorOf(found[limit - 1]))) ==> Below(p, cursor)
  {
    assert found[limit - 1] in found;
  }

  function Walk(rows: seq<Player>, cursor: Option<Cursor>, limit: nat): seq<Player>
    requires Sorted(rows) && limit > 0
    decreases |Matching(rows, cursor)|
  {
    var next := NextCursor(rows, cursor, limit);
    if next.None? then PageOf(rows, cursor, limit)
    else
      NextIsShorter(rows, cursor, limit);
      PageOf(rows, cursor, limit) + Walk(rows, next, limit)
  }

  function Pages(rows: seq<Player>, cursor: Option<Cursor>, limit: nat): nat
    requires Sorted(rows) && limit > 0
    decreases |Matching(rows, cursor)|
  {
    var next := NextCursor(rows, cursor, limit);
    if next.None? then 1
    else
      NextIsShorter(rows, cursor, limit);
      1 + Pages(rows, next, limit)
  }

  lemma Associates(a: seq<Player>, b: seq<Player>, c: seq<Player>)
    ensures a + (b + c) == (a + b) + c
  {
  }

  lemma WalkUnfolds(rows: seq<Player>, cursor: Option<Cursor>, limit: nat)
    requires Sorted(rows) && limit > 0
    ensures var page, next := PageOf(rows, cursor, limit), NextCursor(rows, cursor, limit);
            Walk(rows, cursor, limit) == if next.None? then page else page + Walk(rows, next, limit)
  {
  }

  lemma PagesUnfold(rows: seq<Player>, cursor: Option<Cursor>, limit: nat)
    requires Sorted(rows) && limit > 0
    ensures var next := NextCursor(rows, cursor, limit);
            Pages(rows, cursor, limit) == if next.None? then 1 else 1 + Pages(rows, next, limit)
  {
  }

  lemma Cancels(page: seq<Player>, a: seq<Player>, b: seq<Player>)
    ensures page + a == page + b <==> a == b
  {
    assert (page + a)[|page|..] == a && (page + b)[|page|..] == b;
  }

  // Nothing is passed over between two pages: the first row of the next page is below the cursor.
  predicate Seamless(rows: seq<Player>, cursor: Option<Cursor>, limit: nat)
    requires Sorted(rows) && limit > 0
    decreases |Matching(rows, cursor)|
  {
    var next := NextCursor(rows, cursor, limit);
    next.None? ||
    (NextIsShorter(rows, cursor, limit);
     Below(Matching(rows, cursor)[limit], next) && Seamless(rows, next, limit))
  }

  // ----- Main results over an unchanging table -----

  // The walk shows only listed players, newest first and so nobody twice.
  lemma {:induction false} WalkIsSorted(rows: seq<Player>, cursor: Option<Cursor>, limit: nat)
    requires Sorted(rows) && limit > 0
    ensures Sorted(Walk(rows, cursor, limit))
    ensures forall p :: p in Walk(rows, cursor, limit) ==> p in rows && Listed(p) && Below(p, cursor)
    decreases |Matching(rows, cursor)|
  {
    var found, next := Matching(rows, cursor), NextCursor(rows, cursor, limit);
    MatchingExact(rows, cursor);
    MatchingSorted(rows, cursor);
    if next.Some? {
      NextIsShorter(rows, cursor, limit);
      WalkIsSorted(rows, next, limit);
      PageThenRest(found, limit, Walk(rows, next, limit));
      CursorIsLower(found, limit, cursor);
    }
  }

  // The rows that `pages` full pages show.
  function Filled(pages: nat, limit: nat): nat {
    if pages == 0 then 0 else limit + Filled(pages - 1, limit)
  }

  // Every page but the last is full, so the walk takes no more pages than the result set fills.
  lemma {:induction false} PagesAreFew(rows: seq<Player>, cursor: Option<Cursor>, limit: nat)
    requires Sorted(rows) && limit > 0
    ensures Pages(rows, cursor, limit) >= 1
    ensures Filled(Pages(rows, cursor, limit) - 1, limit) <= |Matching(rows, cursor)| <= |rows|
    decreases |Matching(rows, cursor)|
  {
    var next := NextCursor(rows, cursor, limit);
    MatchingExact(rows, cursor);
    if next.Some? {
      NextIsShorter(rows, cursor, limit);
      PagesAreFew(rows, next, limit);
    }
  }

  lemma WalkBelow(page: seq<Player>, rest: seq<Player>, cursor: Cursor)
    requires page != [] && Sorted(page) && Sorted(rest) && cursor == CursorOf(page[|page| - 1])
    requires forall j :: 0 <= j < |rest| ==> Below(rest[j], Some(cursor))
    ensures Sorted(page + rest)
  {
  }

  lemma RestIsBelow(rows: seq<Player>, next: Option<Cursor>, limit: nat)
    requires Sorted(rows) && limit > 0
    ensures Walk(rows, next, limit) != [] ==> Below(Walk(rows, next, limit)[0], next)
  {
    WalkIsSorted(rows, next, limit);
    var rest := Walk(rows, next, limit);
    assert rest != [] ==> rest[0] in rest;
  }

  lemma CompleteAt(found: seq<Player>, limit: nat, rest: seq<Player>, remaining: seq<Player>, next: Option<Cursor>)
    requires limit < |found| && (rest != [] ==> Below(rest[0], next))
    requires Below(found[limit], next) ==> remaining == found[limit..]
    ensures found[..limit] + rest == found <==> Below(found[limit], next) && rest == remaining
  {
    Cancels(found[..limit], rest, found[limit..]);
    assert found == found[..limit] + found[limit..];
    assert found[limit..][0] == found[limit];
  }

  // One boundary: the walk is complete here exactly when nothing is passed over and the rest is.
  lemma CompleteStep(rows: seq<Player>, cursor: Option<Cursor>, limit: nat)
    requires Sorted(rows) && limit > 0 && NextCursor(rows, cursor, limit).Some?
    ensures var found, next := Matching(rows, cursor), NextCursor(rows, cursor, limit);
            Walk(rows, cursor, limit) == found <==>
              Below(found[limit], next) && Walk(rows, next, limit) == Matching(rows, next)
  {
    var found, next := Matching(rows, cursor), NextCursor(rows, cursor, limit);
    var rest := Walk(rows, next, limit);
    NextIsShorter(rows, cursor, limit);
    RestIsBelow(rows, next, limit);
    WalkUnfolds(rows, cursor, limit);
    CompleteAt(found, limit, rest, Matching(rows, next), next);
  }

  // The pages put together are the whole sorted result if and only if no page boundary falls
  // between two players that the truncated cursor cannot tell apart.
  lemma {:induction false} WalkCompleteIff(rows: seq<Player>, cursor: Option<Cursor>, limit: nat)
    requires Sorted(rows) && limit > 0
    ensures Walk(rows, cursor, limit) == Matching(rows, cursor) <==> Seamless(rows, cursor, limit)
    decreases |Matching(rows, cursor)|
  {
    if NextCursor(rows, cursor, limit).Some? {
      NextIsShorter(rows, cursor, limit);
      CompleteStep(rows, cursor, limit);
      WalkCompleteIff(rows, NextCursor(rows, cursor, limit), limit);
    }
  }

  // With every boundary seamless the pages show exactly the active and suspended players.
  lemma CompleteWalkShows(rows: seq<Player>, limit: nat, p: Player)
    requires Sorted(rows) && limit > 0 && Seamless(rows, None, limit)
    ensures p in Walk(rows, None, limit) <==> p in rows && p.access in {AccessActive, AccessSuspended}
  {
    WalkCompleteIff(rows, None, limit);
    MatchingExact(rows, None);
  }

  predicate MillisecondAligned(rows: seq<Player>) {
    forall p :: p in rows ==> p.createdAt % 1000 == 0
  }

  // With timestamps on whole milliseconds every boundary is seamless.
  lemma {:induction false} AlignedIsSeamless(rows: seq<Player>, cursor: Option<Cursor>, limit: nat)
    requires Sorted(rows) && limit > 0 && MillisecondAligned(rows)
    ensures Seamless(rows, cursor, limit)
    decreases |Matching(rows, cursor)|
  {
    var found, next := Matching(rows, cursor), NextCursor(rows, cursor, limit);
    if next.Some? {
      NextIsShorter(rows, cursor, limit);
      MatchingExact(rows, cursor);
      MatchingSorted(rows, cursor);
      assert found[limit - 1] in found && Older(found[limit], found[limit - 1]);
      AlignedIsSeamless(rows, next, limit);
    }
  }

  lemma {:induction false} NothingBelow(rows: seq<Player>, cursor: Option<Cursor>)
    requires forall p :: p in rows ==> !Below(p, cursor)
    ensures Matching(rows, cursor) == []
  {
    if rows != [] {
      assert rows[0] in rows;
      NothingBelow(rows[1..], cursor);
    }
  }

  // Two players created in the same millisecond on both sides of a page boundary: the second one is
  // never shown.
  lemma SameMillisecondIsSkipped()
    ensures var newer, older := Player(2, 1_000_500, AccessActive), Player(1, 1_000_200, AccessActive);
            Sorted([newer, older]) && Walk([newer, older], None, 1) == [newer]
  {
    var newer, older := Player(2, 1_000_500, AccessActive), Player(1, 1_000_200, AccessActive);
    var rows := [newer, older];
    assert rows[1..] == [older] && [older][1..] == [];
    assert Matching([older], None) == [older];
    assert Matching(rows, None) == [newer, older];
    var next := Some(Cursor(1_000_000, 2));
    assert NextCursor(rows, None, 1) == next;
    assert !Below(newer, next) && !Below(older, next);
    NothingBelow(rows, next);
    assert Walk(rows, next, 1) == [];
    assert PageOf(rows, None, 1) == [newer];
  }

  // ----- Players joining between pages -----

  // Page k is read from the k-th table; the last table serves all remaining pages.
  function WalkTables(tables: seq<seq<Player>>, cursor: Option<Cursor>, limit: nat): seq<Player>
    requires tables != [] && limit > 0 && forall k :: 0 <= k < |tables| ==> Sorted(tables[k])
    decreases |tables|
  {
    if |tables| == 1 then Walk(tables[0], cursor, limit)
    else
      var next := NextCursor(tables[0], cursor, limit);
      PageOf(tables[0], cursor, limit) + if next.None? then [] else WalkTables(tables[1..], next, limit)
  }

  predicate Growing(tables: seq<seq<Player>>) {
    forall k :: 0 <= k < |tables| - 1 ==> forall p :: p in tables[k] ==> p in tables[k + 1]
  }

  // Every watched player that the query still selects is shown.
  ghost predicate ShowsAll(shown: seq<Player>, rows: seq<Player>, cursor: Option<Cursor>, watched: set<Player>) {
    forall p :: p in watched && p in rows && Listed(p) && Below(p, cursor) ==> p in shown
  }

  // A page boundary passes over no watched player: whoever comes after the page is below its cursor.
  ghost predicate Boundary(found: seq<Player>, limit: nat, next: Cursor, watched: set<Player>)
    requires limit <= |found|
  {
    forall p :: p in found[limit..] && p in watched ==> Below(p, Some(next))
  }

  ghost predicate Boundaries(rows: seq<Player>, cursor: Option<Cursor>, limit: nat, watched: set<Player>)
    requires Sorted(rows) && limit > 0
    decreases |Matching(rows, cursor)|
  {
    var next := NextCursor(rows, cursor, limit);
    next.None? ||
    (NextIsShorter(rows, cursor, limit);
     Boundary(Matching(rows, cursor), limit, next.value, watched) && Boundaries(rows, next, limit, watched))
  }

  ghost predicate TableBoundaries(tables: seq<seq<Player>>, cursor: Option<Cursor>, limit: nat, watched: set<Player>)
    requires tables != [] && limit > 0 && forall k :: 0 <= k < |tables| ==> Sorted(tables[k])
    decreases |tables|
  {
    if |tables| == 1 then Boundaries(tables[0], cursor, limit, watched)
    else
      var next := NextCursor(tables[0], cursor, limit);
      next.None? ||
      (Boundary(Matching(tables[0], cursor), limit, next.value, watched) && TableBoundaries(tables[1..], next, limit, watched))
  }

  // One boundary, whatever table the rest is read from: the watched players are all shown exactly when
  // none is passed over here and the rest shows those below the new cursor.
  lemma BoundaryStep(rows: seq<Player>, later: seq<Player>, cursor: Option<Cursor>, limit: nat, rest: seq<Player>, watched: set<Player>)
    requires Sorted(rows) && limit > 0 && NextCursor(rows, cursor, limit).Some?
    requires forall p :: p in watched ==> p in rows && p in later
    requires forall p :: p in rest ==> Below(p, NextCursor(rows, cursor, limit))
    ensures var found, next := Matching(rows, cursor), NextCursor(rows, cursor, limit);
            ShowsAll(found[..limit] + rest, rows, cursor, watched) <==>
              Boundary(found, limit, next.value, watched) && ShowsAll(rest, later, next, watched)
  {
    var found, next := Matching(rows, cursor), NextCursor(rows, cursor, limit);
    MatchingExact(rows, cursor);
    MatchingSorted(rows, cursor);
    CursorIsLower(found, limit, cursor);
    assert found == found[..limit] + found[limit..];
    forall p | p in found[..limit] ensures !(Below(p, next)) && p !in found[limit..] {
      PageIsAbove(found, limit, p);
    }
    if ShowsAll(found[..limit] + rest, rows, cursor, watched) {
      forall p | p in found[limit..] && p in watched ensures Below(p, next) && p in rest {
        assert p in found && p in found[..limit] + rest;
      }
      forall p | p in watched && p in later && Listed(p) && Below(p, next) ensures p in rest {
        assert Below(p, cursor) && p in found[..limit] + rest;
      }
    }
    if Boundary(found, limit, next.value, watched) && ShowsAll(rest, later, next, watched) {
      forall p | p in watched && p in rows && Listed(p) && Below(p, cursor) ensures p in found[..limit] + rest {
        assert p in found;
      }
    }
  }

  lemma PageIsAbove(found: seq<Player>, limit: nat, p: Player)
    requires Sorted(found) && 0 < limit < |found| && p in found[..limit]
    ensures !Below(p, Some(CursorOf(found[limit - 1]))) && p !in found[limit..]
  {
    var i :| 0 <= i < limit && found[..limit][i] == p;
    assert found[i] == p && (i < limit - 1 ==> Older(found[limit - 1], found[i]));
    forall j | limit <= j < |found| ensures found[j] != p {
      assert Older(found[j], found[i]);
    }
  }

  lemma {:induction false} WalkShowsIff(rows: seq<Player>, cursor: Option<Cursor>, limit: nat, watched: set<Player>)
    requires Sorted(rows) && limit > 0 && forall p :: p in watched ==> p in rows
    ensures ShowsAll(Walk(rows, cursor, limit), rows, cursor, watched) <==> Boundaries(rows, cursor, limit, watched)
    decreases |Matching(rows, cursor)|
  {
    var next := NextCursor(rows, cursor, limit);
    MatchingExact(rows, cursor);
    WalkUnfolds(rows, cursor, limit);
    if next.Some? {
      NextIsShorter(rows, cursor, limit);
      WalkIsSorted(rows, next, limit);
      BoundaryStep(rows, rows, cursor, limit, Walk(rows, next, limit), watched);
      WalkShowsIff(rows, next, limit, watched);
    }
  }

  // Whatever tables the pages are read from, the walk is sorted, so nobody is shown twice, and nobody
  // unlisted is shown.
  lemma {:induction false} TablesWalkIsSorted(tables: seq<seq<Player>>, cursor: Option<Cursor>, limit: nat)
    requires tables != [] && limit > 0 && forall k :: 0 <= k < |tables| ==> Sorted(tables[k])
    ensures var shown := WalkTables(tables, cursor, limit);
            Sorted(shown) && forall p :: p in shown ==> Listed(p) && Below(p, cursor)
    decreases |tables|
  {
    var rows := tables[0];
    var found, next := Matching(rows, cursor), NextCursor(rows, cursor, limit);
    MatchingExact(rows, cursor);
    MatchingSorted(rows, cursor);
    if |tables| == 1 {
      WalkIsSorted(rows, cursor, limit);
    } else if next.Some? {
      TablesWalkIsSorted(tables[1..], next, limit);
      PageThenRest(found, limit, WalkTables(tables[1..], next, limit));
      CursorIsLower(found, limit, cursor);
    } else {
      assert PageOf(rows, cursor, limit) + [] == found;
    }
  }

  // However many players join while the pages are read: every watched player who was there from the
  // start is shown if and only if no page boundary passes over one of them.
  lemma {:induction false} TablesShowIff(tables: seq<seq<Player>>, cursor: Option<Cursor>, limit: nat, watched: set<Player>)
    requires tables != [] && limit > 0 && Growing(tables) && forall k :: 0 <= k < |tables| ==> Sorted(tables[k])
    requires forall p :: p in watched ==> p in tables[0]
    ensures ShowsAll(WalkTables(tables, cursor, limit), tables[0], cursor, watched) <==> TableBoundaries(tables, cursor, limit, watched)
    decreases |tables|
  {
    var rows := tables[0];
    var found, next := Matching(rows, cursor), NextCursor(rows, cursor, limit);
    MatchingExact(rows, cursor);
    if |tables| == 1 {
      WalkShowsIff(rows, cursor, limit, watched);
    } else if next.Some? {
      assert forall p :: p in rows ==> p in tables[1];
      TablesWalkIsSorted(tables[1..], next, limit);
      BoundaryStep(rows, tables[1], cursor, limit, WalkTables(tables[1..], next, limit), watched);
      TablesShowIff(tables[1..], next, limit, watched);
    } else {
      assert PageOf(rows, cursor, limit) + [] == found;
    }
  }

  // With timestamps on whole milliseconds no boundary passes over anybody, so every listed player who was
  // there from the start is shown, exactly once, and nobody unlisted ever is.
  lemma JoiningPlayersHideNobody(tables: seq<seq<Player>>, cursor: Option<Cursor>, limit: nat)
    requires tables != [] && limit > 0 && Growing(tables)
    requires forall k :: 0 <= k < |tables| ==> Sorted(tables[k]) && MillisecondAligned(tables[k])
    ensures var shown := WalkTables(tables, cursor, limit);
            && Sorted(shown)
            && (forall p :: p in tables[0] && Listed(p) && Below(p, cursor) ==> p in shown)
            && (forall p :: p in shown ==> Listed(p) && Below(p, cursor))
  {
    var watched := set p | p in tables[0];
    TablesWalkIsSorted(tables, cursor, limit);
    AlignedTables(tables, cursor, limit, watched);
    TablesShowIff(tables, cursor, limit, watched);
  }

  lemma AlignedBoundary(rows: seq<Player>, cursor: Option<Cursor>, limit: nat, watched: set<Player>)
    requires Sorted(rows) && limit > 0 && MillisecondAligned(rows) && NextCursor(rows, cursor, limit).Some?
    ensures Boundary(Matching(rows, cursor), limit, NextCursor(rows, cursor, limit).value, watched)
  {
    var found := Matching(rows, cursor);
    MatchingExact(rows, cursor);
    MatchingSorted(rows, cursor);
    assert found[limit - 1] in found;
    forall p | p in found[limit..] ensures Below(p, Some(CursorOf(found[limit - 1]))) {
      var i :| 0 <= i < |found[limit..]| && found[limit..][i] == p;
      assert found[limit + i] == p && Older(found[limit + i], found[limit - 1]);
    }
  }

  lemma {:induction false} AlignedWalk(rows: seq<Player>, cursor: Option<Cursor>, limit: nat, watched: set<Player>)
    requires Sorted(rows) && limit > 0 && MillisecondAligned(rows)
    ensures Boundaries(rows, cursor, limit, watched)
    decreases |Matching(rows, cursor)|
  {
    if NextCursor(rows, cursor, limit).Some? {
      NextIsShorter(rows, cursor, limit);
      AlignedBoundary(rows, cursor, limit, watched);
      AlignedWalk(rows, NextCursor(rows, cursor, limit), limit, watched);
    }
  }

  lemma {:induction false} AlignedTables(tables: seq<seq<Player>>, cursor: Option<Cursor>, limit: nat, watched: set<Player>)
    requires tables != [] && limit > 0
    requires forall k :: 0 <= k < |tables| ==> Sorted(tables[k]) && MillisecondAligned(tables[k])
    ensures TableBoundaries(tables, cursor, limit, watched)
    decreases |tables|
  {
    if |tables| == 1 {
      AlignedWalk(tables[0], cursor, limit, watched);
    } else if NextCursor(tables[0], cursor, limit).Some? {
      AlignedBoundary(tables[0], cursor, limit, watched);
      AlignedTables(tables[1..], NextCursor(tables[0], cursor, limit), limit, watched);
    }
  }

  lemma PageThenRest(found: seq<Player>, limit: nat, rest: seq<Player>)
    requires Sorted(found) && 0 < limit < |found| && Sorted(rest)
    requires forall p :: p in rest ==> Below(p, Some(CursorOf(found[limit - 1])))
    ensures Sorted(found[..limit] + rest)
  {
    assert forall j :: 0 <= j < |rest| ==> rest[j] in rest;
    WalkBelow(found[..limit], rest, CursorOf(found[limit - 1]));
  }

  // ----- The paging loop -----

  // Collects pages until the cursor runs out, and gives up after `maxPages` of them.
  method CollectPages(rows: seq<Player>, limit: nat, maxPages: nat) returns (shown: seq<Player>, terminated: bool)
    requires Sorted(rows) && limit > 0
    ensures terminated <==> Pages(rows, None, limit) <= maxPages
    ensures terminated ==> shown == Walk(rows, None, limit)
  {
    shown := [];
    ghost var whole, total := Walk(rows, None, limit), Pages(rows, None, limit);
    PagesAreFew(rows, None, limit);
    var cursor: Option<Cursor> := None;
    var pageNo := 0;
    while pageNo < maxPages
      invariant 0 <= pageNo <= maxPages
      invariant shown + Walk(rows, cursor, limit) == whole
      invariant total == pageNo + Pages(rows, cursor, limit) && Pages(rows, cursor, limit) >= 1
    {
      WalkUnfolds(rows, cursor, limit);
      PagesUnfold(rows, cursor, limit);
      var page, next := PageOf(rows, cursor, limit), NextCursor(rows, cursor, limit);
      if next.Some? {
        PagesAreFew(rows, next, limit);
        Associates(shown, page, Walk(rows, next, limit));
      }
      shown := shown + page;
      if next.None? {
        return shown, true;
      }
      cursor := next;
      pageNo := pageNo + 1;
    }
    terminated := false;
  }
}
