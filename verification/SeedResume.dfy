/** The seed procedures: staged transactions that are run again after being killed anywhere. */
module SeedResume {
  import opened Wrappers

  // ----- Data model -----

  datatype Status = Draft | Validated | Published

  // The seed's ruleset row; chart: its type matchups are in place.
  datatype Ruleset = Ruleset(status: Status, chart: bool)

  // The seed's release row; bound: its default ruleset is the seed's own; content: seeded or cloned.
  datatype Release = Release(status: Status, bound: bool, content: bool)

  datatype ActiveRelease = Nobody | Parent | Target

  // parentPublished: the release to clone from exists and is published.
  datatype Db = Db(ruleset: Option<Ruleset>, release: Option<Release>, active: ActiveRelease, parentPublished: bool)

  // One transaction of a seed script.
  datatype Action =
    | Prepare | EnsureRuleset | ValidateRuleset | PublishRuleset
    | EnsureRelease | Clone | Rebind | ValidateRelease | PublishRelease | Activate

  // The transactions a process still has to do, in order.
  datatype Todo = End | Do(action: Action, rest: Todo)

  // A process is idle (finished, refused or killed) or at work.
  datatype Process = Idle | Doing(todo: Todo)

  const PHASE4 := Do(Prepare, End)
  const PHASE11 := Do(EnsureRuleset, Do(EnsureRelease, End))

  // What a status read at the start leaves to be done, for the ruleset and for the release.
  function RulesetPlan(status: Status, rest: Todo): Todo {
    match status
    case Draft => Do(ValidateRuleset, Do(PublishRuleset, rest))
    case Validated => Do(PublishRuleset, rest)
    case Published => rest
  }

  function ReleasePlan(status: Status): Todo {
    match status
    case Draft => Do(ValidateRelease, Do(PublishRelease, Do(Activate, End)))
    case Validated => Do(PublishRelease, Do(Activate, End))
    case Published => Do(Activate, End)
  }

  // Cloning, binding, and everything after it.
  const CLONE_PLAN := Do(Clone, Do(Rebind, ReleasePlan(Draft)))

  function SeededRuleset(db: Db): Ruleset {
    match db.ruleset
    case None => Ruleset(Draft, true)
    case Some(r) => if r.status.Draft? then r.(chart := true) else r
  }

  function SeededRelease(db: Db): Release {
    match db.release
    case None => Release(Draft, true, true)
    case Some(r) => if r.status.Draft? then r.(content := true) else r
  }

  // A transaction either commits, with the work that remains, or throws and ends the process.
  function Execute(db: Db, action: Action, rest: Todo): Option<(Db, Todo)> {
    match action
    case Prepare =>
      if db.release.Some? && !db.release.value.bound then None
      else
        var ruleset, release := SeededRuleset(db), SeededRelease(db);
        Some((db.(ruleset := Some(ruleset), release := Some(release)),
              RulesetPlan(ruleset.status, ReleasePlan(release.status))))
    case EnsureRuleset =>
      var ruleset := SeededRuleset(db);
      Some((db.(ruleset := Some(ruleset)), RulesetPlan(ruleset.status, rest)))
    case ValidateRuleset =>
      if db.ruleset.Some? && db.ruleset.value.status.Draft? && db.ruleset.value.chart then
        Some((db.(ruleset := Some(db.ruleset.value.(status := Validated))), rest))
      else None
    case PublishRuleset =>
      if db.ruleset.Some? && db.ruleset.value.status.Validated? then
        Some((db.(ruleset := Some(db.ruleset.value.(status := Published))), rest))
      else None
    case EnsureRelease =>
      if db.release.Some? then
        if db.release.value.bound then Some((db, ReleasePlan(db.release.value.status))) else None
      else if db.parentPublished then Some((db, CLONE_PLAN))
      else None
    case Clone =>
      if db.parentPublished && db.release.None? then Some((db.(release := Some(Release(Draft, false, true))), rest)) else None
    case Rebind =>
      if db.release.Some? && db.release.value.status.Draft? then
        Some((db.(release := Some(db.release.value.(bound := true))), rest))
      else None
    case ValidateRelease =>
      if db.release.Some? && db.release.value.status.Draft? && db.release.value.content then
        Some((db.(release := Some(db.release.value.(status := Validated))), rest))
      else None
    case PublishRelease =>
      if db.release.Some? && db.release.value.status.Validated? && RulesetPublished(db) then
        Some((db.(release := Some(db.release.value.(status := Published))), rest))
      else None
    case Activate =>
      if db.release.Some? && db.release.value.status.Published? then Some((db.(active := Target), rest)) else None
  }

  // The default ruleset of the release: its own, or the parent's published one before rebinding.
  predicate RulesetPublished(db: Db)
    requires db.release.Some?
  {
    db.release.value.bound ==> db.ruleset.Some? && db.ruleset.value.status.Published?
  }

  datatype Event = Start | Step | Kill

  datatype State = State(db: Db, process: Process)

  function Next(s: State, script: Todo, e: Event): State {
    match e
    case Start => if s.process.Idle? then s.(process := Doing(script)) else s
    case Kill => s.(process := Idle)
    case Step =>
      if s.process.Idle? then s
      else if s.process.todo.End? then s.(process := Idle)
      else
        var done := Execute(s.db, s.process.todo.action, s.process.todo.rest);
        if done.None? then s.(process := Idle) else State(done.value.0, Doing(done.value.1))
  }

  function Run(s: State, script: Todo, es: seq<Event>): State
    decreases |es|
  {
    if es == [] then s else Run(Next(s, script, es[0]), script, es[1..])
  }

  // A script carried on with nobody killing it, for at most `steps` transactions.
  function Drive(db: Db, todo: Todo, steps: nat): State
    decreases steps
  {
    if todo.End? then State(db, Idle)
    else if steps == 0 then State(db, Doing(todo))
    else
      var done := Execute(db, todo.action, todo.rest);
      if done.None? then State(db, Idle) else Drive(done.value.0, done.value.1, steps - 1)
  }

  predicate Ready(db: Db) {
    && db.ruleset.Some? && db.ruleset.value.status.Published?
    && db.release.Some? && db.release.value.status.Published? && db.release.value.bound
    && db.active.Target?
  }

  // A release that was cloned and never bound: the one state no rerun accepts.
  predicate Stranded(db: Db) {
    db.release.Some? && !db.release.value.bound
  }

  // ----- Invariants -----

  // What every run keeps, wherever it is killed.
  predicate Sound(db: Db) {
    && (db.ruleset.Some? ==> db.ruleset.value.chart)
    && (db.release.Some? ==>
          && db.release.value.content
          && (!db.release.value.bound ==> db.release.value.status.Draft?)
          && (db.release.value.bound && db.release.value.status.Published? ==>
                db.ruleset.Some? && db.ruleset.value.status.Published?))
    && (db.active.Target? ==> db.release.Some? && db.release.value.status.Published?)
  }

  // Past the ruleset stage: what the process still has to do fits the release row.
  predicate AtRelease(db: Db, todo: Todo) {
    && db.ruleset.Some? && db.ruleset.value.status.Published?
    && (|| (todo.End? && Ready(db))
        || (db.release.Some? && db.release.value.bound && todo == ReleasePlan(db.release.value.status))
        || (db.release.None? && todo == CLONE_PLAN)
        || (Stranded(db) && todo == CLONE_PLAN.rest))
  }

  // At the ruleset stage, with `rest` to follow.
  predicate AtRuleset(db: Db, todo: Todo, rest: Todo) {
    db.ruleset.Some? && todo == RulesetPlan(db.ruleset.value.status, rest)
  }

  predicate Position(db: Db, todo: Todo) {
    || todo == PHASE4 || todo == PHASE11
    || AtRuleset(db, todo, Do(EnsureRelease, End))
    || (db.release.Some? && db.release.value.bound && AtRuleset(db, todo, ReleasePlan(db.release.value.status)))
    || AtRelease(db, todo)
  }

  predicate Inv(s: State) {
    && Sound(s.db)
    && (s.process.Doing? ==> Position(s.db, s.process.todo))
  }

  lemma ExecuteKeepsInv(db: Db, todo: Todo)
    requires Sound(db) && Position(db, todo) && todo.Do?
    ensures var done := Execute(db, todo.action, todo.rest);
            done.Some? ==> Sound(done.value.0) && Position(done.value.0, done.value.1)
  {
  }

  lemma StepKeepsInv(s: State, script: Todo, e: Event)
    requires Inv(s) && script in {PHASE4, PHASE11}
    ensures Inv(Next(s, script, e))
  {
    if e.Step? && s.process.Doing? && s.process.todo.Do? {
      ExecuteKeepsInv(s.db, s.process.todo);
    }
  }

  lemma {:induction false} RunKeepsInv(s: State, script: Todo, es: seq<Event>)
    requires Inv(s) && script in {PHASE4, PHASE11}
    ensures Inv(Run(s, script, es))
    decreases |es|
  {
    if es != [] {
      StepKeepsInv(s, script, es[0]);
      RunKeepsInv(Next(s, script, es[0]), script, es[1..]);
    }
  }

  function Fresh(active: ActiveRelease, parentPublished: bool): State {
    State(Db(None, None, active, parentPublished), Idle)
  }

  // ----- Main results -----

  // Wherever the seeds are killed and however often they are run again: an unbound release is never
  // validated, and the active release only ever shows a published release.
  lemma NeverValidatedUnbound(active: ActiveRelease, parentPublished: bool, script: Todo, es: seq<Event>)
    requires script in {PHASE4, PHASE11} && !active.Target?
    ensures Sound(Run(Fresh(active, parentPublished), script, es).db)
  {
    RunKeepsInv(Fresh(active, parentPublished), script, es);
  }

  lemma PublishedFinishes(db: Db, n: nat)
    requires db.release.Some? && db.release.value.status.Published? && n >= 1
    ensures Drive(db, ReleasePlan(Published), n) == State(db.(active := Target), Idle)
  {
    assert Drive(db.(active := Target), End, n - 1) == State(db.(active := Target), Idle);
  }

  lemma ValidatedFinishes(db: Db, n: nat)
    requires db.ruleset.Some? && db.ruleset.value.status.Published? && n >= 2
    requires db.release.Some? && db.release.value.status.Validated?
    ensures Drive(db, ReleasePlan(Validated), n)
            == State(db.(release := Some(db.release.value.(status := Published)), active := Target), Idle)
  {
    PublishedFinishes(db.(release := Some(db.release.value.(status := Published))), n - 1);
  }

  lemma ReleaseFinishes(db: Db, n: nat)
    requires db.ruleset.Some? && db.ruleset.value.status.Published? && n >= 3
    requires db.release.Some? && db.release.value.bound && db.release.value.content
    ensures var t := Drive(db, ReleasePlan(db.release.value.status), n);
            Ready(t.db) && t.process.Idle?
  {
    match db.release.value.status
    case Published => PublishedFinishes(db, n);
    case Validated => ValidatedFinishes(db, n);
    case Draft => ValidatedFinishes(db.(release := Some(db.release.value.(status := Validated))), n - 1);
  }

  lemma RulesetFinishes(db: Db, rest: Todo, n: nat)
    requires db.ruleset.Some? && db.ruleset.value.chart && n >= 2
    ensures var done := db.(ruleset := Some(db.ruleset.value.(status := Published)));
            exists left :: n - 2 <= left <= n && Drive(db, RulesetPlan(db.ruleset.value.status, rest), n) == Drive(done, rest, left)
  {
    var done := db.(ruleset := Some(db.ruleset.value.(status := Published)));
    var mid := db.(ruleset := Some(db.ruleset.value.(status := Validated)));
    match db.ruleset.value.status
    case Published => assert Drive(db, rest, n) == Drive(done, rest, n);
    case Validated => assert Drive(db, Do(PublishRuleset, rest), n) == Drive(done, rest, n - 1);
    case Draft =>
      assert Drive(mid, Do(PublishRuleset, rest), n - 1) == Drive(done, rest, n - 2);
      assert Drive(db, Do(ValidateRuleset, Do(PublishRuleset, rest)), n) == Drive(done, rest, n - 2);
  }

  // The Phase 4 seed converges from every state it can be killed in.
  lemma Phase4Converges(s: State, n: nat)
    requires Inv(s) && !Stranded(s.db) && n >= 6
    ensures var t := Drive(s.db, PHASE4, n); Ready(t.db) && t.process.Idle?
  {
    var ruleset, release := SeededRuleset(s.db), SeededRelease(s.db);
    var db := s.db.(ruleset := Some(ruleset), release := Some(release));
    assert Drive(s.db, PHASE4, n) == Drive(db, RulesetPlan(ruleset.status, ReleasePlan(release.status)), n - 1);
    RulesetFinishes(db, ReleasePlan(release.status), n - 1);
    var done := db.(ruleset := Some(ruleset.(status := Published)));
    var left :| n - 3 <= left <= n - 1
                && Drive(db, RulesetPlan(ruleset.status, ReleasePlan(release.status)), n - 1) == Drive(done, ReleasePlan(release.status), left);
    ReleaseFinishes(done, left);
  }

  // A Phase 4 process only ever works on a release bound to its own ruleset.
  predicate BoundOnly(s: State) {
    && !Stranded(s.db)
    && (s.process.Doing? && s.process.todo != PHASE4 ==>
          && s.db.release.Some?
          && (AtRuleset(s.db, s.process.todo, ReleasePlan(s.db.release.value.status)) || AtRelease(s.db, s.process.todo)))
  }

  lemma BoundOnlyStep(s: State, e: Event)
    requires Inv(s) && BoundOnly(s)
    ensures BoundOnly(Next(s, PHASE4, e))
  {
  }

  lemma {:induction false} BoundOnlyRun(s: State, es: seq<Event>)
    requires Inv(s) && BoundOnly(s)
    ensures BoundOnly(Run(s, PHASE4, es)) && Inv(Run(s, PHASE4, es))
    decreases |es|
  {
    if es != [] {
      StepKeepsInv(s, PHASE4, es[0]);
      BoundOnlyStep(s, es[0]);
      BoundOnlyRun(Next(s, PHASE4, es[0]), es[1..]);
    }
  }

  // Killed anywhere any number of times, the Phase 4 seed still converges on its next undisturbed run.
  lemma Phase4AlwaysConverges(active: ActiveRelease, parentPublished: bool, es: seq<Event>, n: nat)
    requires !active.Target? && n >= 6
    ensures var t := Drive(Run(Fresh(active, parentPublished), PHASE4, es).db, PHASE4, n); Ready(t.db) && t.process.Idle?
  {
    BoundOnlyRun(Fresh(active, parentPublished), es);
    Phase4Converges(Run(Fresh(active, parentPublished), PHASE4, es), n);
  }

  // A rerun of the Phase 11 seed from any state a killed run left behind ends with everything
  // published and active, if and only if the release was not left cloned but unbound.
  lemma Phase11ConvergesIff(s: State, n: nat)
    requires Inv(s) && n >= 9 && (s.db.release.None? ==> s.db.parentPublished)
    ensures Ready(Drive(s.db, PHASE11, n).db) <==> !Stranded(s.db)
  {
    var ruleset := SeededRuleset(s.db);
    var db := s.db.(ruleset := Some(ruleset));
    var rest := Do(EnsureRelease, End);
    assert Drive(s.db, PHASE11, n) == Drive(db, RulesetPlan(ruleset.status, rest), n - 1);
    RulesetFinishes(db, rest, n - 1);
    var done := db.(ruleset := Some(ruleset.(status := Published)));
    var left :| n - 3 <= left <= n - 1 && Drive(db, RulesetPlan(ruleset.status, rest), n - 1) == Drive(done, rest, left);
    if Stranded(s.db) {
      assert Drive(done, rest, left) == State(done, Idle);
    } else if s.db.release.Some? {
      assert Drive(done, rest, left) == Drive(done, ReleasePlan(done.release.value.status), left - 1);
      ReleaseFinishes(done, left - 1);
    } else {
      CloneFinishes(done, left - 1);
      assert Drive(done, rest, left) == Drive(done, CLONE_PLAN, left - 1);
    }
  }

  lemma CloneFinishes(db: Db, n: nat)
    requires db.ruleset.Some? && db.ruleset.value.status.Published? && db.release.None? && db.parentPublished && n >= 5
    ensures var t := Drive(db, CLONE_PLAN, n); Ready(t.db) && t.process.Idle?
  {
    var cloned := db.(release := Some(Release(Draft, false, true)));
    var bound := db.(release := Some(Release(Draft, true, true)));
    assert Drive(cloned, CLONE_PLAN.rest, n - 1) == Drive(bound, ReleasePlan(Draft), n - 2);
    ReleaseFinishes(bound, n - 2);
  }

  // Once stranded with nobody at work, no rerun of either script ever changes the release again.
  lemma {:induction false} StrandedForEver(s: State, script: Todo, es: seq<Event>)
    requires Inv(s) && script in {PHASE4, PHASE11} && Stranded(s.db)
    requires s.process.Doing? ==> s.process.todo != CLONE_PLAN.rest
    ensures var t := Run(s, script, es);
            t.db.release == s.db.release && t.db.active == s.db.active
            && (t.process.Doing? ==> t.process.todo != CLONE_PLAN.rest)
    decreases |es|
  {
    if es != [] {
      StepKeepsInv(s, script, es[0]);
      StrandedStep(s, script, es[0]);
      StrandedForEver(Next(s, script, es[0]), script, es[1..]);
    }
  }

  lemma StrandedStep(s: State, script: Todo, e: Event)
    requires Inv(s) && script in {PHASE4, PHASE11} && Stranded(s.db)
    requires s.process.Doing? ==> s.process.todo != CLONE_PLAN.rest
    ensures var t := Next(s, script, e);
            t.db.release == s.db.release && t.db.active == s.db.active
            && (t.process.Doing? ==> t.process.todo != CLONE_PLAN.rest)
  {
  }

  // A kill exactly between the clone and the rebinding.
  predicate KilledUnbound(s: State, e: Event) {
    e.Kill? && s.process.Doing? && s.process.todo == CLONE_PLAN.rest
  }

  predicate EverKilledUnbound(s: State, script: Todo, es: seq<Event>)
    decreases |es|
  {
    es != [] && (KilledUnbound(s, es[0]) || EverKilledUnbound(Next(s, script, es[0]), script, es[1..]))
  }

  // Nobody at work and the release stranded.
  predicate Abandoned(s: State) {
    Stranded(s.db) && (s.process.Doing? ==> s.process.todo != CLONE_PLAN.rest)
  }

  lemma AbandonStep(s: State, script: Todo, e: Event)
    requires Inv(s) && script in {PHASE4, PHASE11} && !Abandoned(s)
    ensures Abandoned(Next(s, script, e)) <==> KilledUnbound(s, e)
  {
  }

  // A run abandons its release if and only if it is killed, at some point, exactly between the
  // clone and the rebinding.
  lemma {:induction false} AbandonedIffKilledUnbound(s: State, script: Todo, es: seq<Event>)
    requires Inv(s) && script in {PHASE4, PHASE11} && !Abandoned(s)
    ensures Abandoned(Run(s, script, es)) <==> EverKilledUnbound(s, script, es)
    decreases |es|
  {
    if es != [] {
      AbandonStep(s, script, es[0]);
      StepKeepsInv(s, script, es[0]);
      if KilledUnbound(s, es[0]) {
        StrandedForEver(Next(s, script, es[0]), script, es[1..]);
      } else {
        AbandonedIffKilledUnbound(Next(s, script, es[0]), script, es[1..]);
      }
    }
  }

  lemma {:induction false} ParentStays(s: State, script: Todo, es: seq<Event>)
    ensures Run(s, script, es).db.parentPublished == s.db.parentPublished
    decreases |es|
  {
    if es != [] {
      ParentStays(Next(s, script, es[0]), script, es[1..]);
    }
  }

  // Over whole histories of the Phase 11 seed: the next undisturbed run converges if and only if no
  // kill so far fell exactly between the clone and the rebinding.
  lemma Phase11RerunConvergesIff(active: ActiveRelease, es: seq<Event>, n: nat)
    requires !active.Target? && n >= 9
    requires Run(Fresh(active, true), PHASE11, es).process.Idle?
    ensures Ready(Drive(Run(Fresh(active, true), PHASE11, es).db, PHASE11, n).db)
            <==> !EverKilledUnbound(Fresh(active, true), PHASE11, es)
  {
    var s := Fresh(active, true);
    RunKeepsInv(s, PHASE11, es);
    ParentStays(s, PHASE11, es);
    AbandonedIffKilledUnbound(s, PHASE11, es);
    Phase11ConvergesIff(Run(s, PHASE11, es), n);
  }

  // ----- The script as it is run -----

  class Seeder {
    var ruleset: Option<Ruleset>
    var release: Option<Release>
    var active: ActiveRelease
    const parentPublished: bool

    function Contents(): Db
      reads this
    {
      Db(ruleset, release, active, parentPublished)
    }

    constructor (active: ActiveRelease, parentPublished: bool)
      ensures Contents() == Db(None, None, active, parentPublished)
    {
      ruleset, release, this.active, this.parentPublished := None, None, active, parentPublished;
    }

    // One catalog or seed transaction: it commits as a whole or changes nothing, never leaves an unbound
    // release validated or an unpublished one active, and what remains to be done fits the rows again.
    method Commit(action: Action, rest: Todo) returns (left: Option<Todo>)
      modifies `ruleset, `release, `active
      ensures var done := Execute(old(Contents()), action, rest);
              if done.None? then left == None && Contents() == old(Contents())
              else left == Some(done.value.1) && Contents() == done.value.0
      ensures old(Sound(Contents()) && Position(Contents(), Do(action, rest))) ==>
                Sound(Contents()) && (left.Some? ==> Position(Contents(), left.value))
    {
      if Sound(Contents()) && Position(Contents(), Do(action, rest)) {
        ExecuteKeepsInv(Contents(), Do(action, rest));
      }
      left := None;
      match action {
        case Prepare =>
          if release.Some? && !release.value.bound {
            return;
          }
          SeedRuleset();
          if release.None? {
            release := Some(Release(Draft, true, true));
          } else if release.value.status == Draft {
            release := Some(release.value.(content := true));
          }
          left := Some(RulesetPlan(ruleset.value.status, ReleasePlan(release.value.status)));
        case EnsureRuleset =>
          SeedRuleset();
          left := Some(RulesetPlan(ruleset.value.status, rest));
        case ValidateRuleset =>
          if ruleset.Some? && ruleset.value.status == Draft && ruleset.value.chart {
            ruleset, left := Some(ruleset.value.(status := Validated)), Some(rest);
          }
        case PublishRuleset =>
          if ruleset.Some? && ruleset.value.status == Validated {
            ruleset, left := Some(ruleset.value.(status := Published)), Some(rest);
          }
        case EnsureRelease =>
          if release.Some? {
            if release.value.bound {
              left := Some(ReleasePlan(release.value.status));
            }
          } else if parentPublished {
            left := Some(CLONE_PLAN);
          }
        case Clone =>
          if parentPublished && release.None? {
            release, left := Some(Release(Draft, false, true)), Some(rest);
          }
        case Rebind =>
          if release.Some? && release.value.status == Draft {
            release, left := Some(release.value.(bound := true)), Some(rest);
          }
        case ValidateRelease =>
          if release.Some? && release.value.status == Draft && release.value.content {
            release, left := Some(release.value.(status := Validated)), Some(rest);
          }
        case PublishRelease =>
          if release.Some? && release.value.status == Validated && RulesetPublished(Contents()) {
            release, left := Some(release.value.(status := Published)), Some(rest);
          }
        case Activate =>
          if release.Some? && release.value.status == Published {
            active, left := Target, Some(rest);
          }
      }
    }

    method SeedRuleset()
      modifies `ruleset
      ensures ruleset == Some(SeededRuleset(old(Contents())))
    {
      if ruleset.None? {
        ruleset := Some(Ruleset(Draft, true));
      } else if ruleset.value.status == Draft {
        ruleset := Some(ruleset.value.(chart := true));
      }
    }

    // The main procedure, killed after `survives` transactions.
    method RunScript(script: Todo, survives: nat) returns (process: Process)
      modifies `ruleset, `release, `active
      ensures State(Contents(), process) == Drive(old(Contents()), script, survives)
    {
      var todo, left := script, survives;
      while todo.Do? && left > 0
        invariant 0 <= left <= survives
        invariant Drive(old(Contents()), script, survives) == Drive(Contents(), todo, left)
        decreases left
      {
        var next := Commit(todo.action, todo.rest);
        if next.None? {
          return Idle;
        }
        todo, left := next.value, left - 1;
      }
      process := if todo.End? then Idle else Doing(todo);
    }
  }
}
