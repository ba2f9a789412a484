/** Catalog drafts: keyed mutations of a release under an optimistic revision, and the claims that
  * record them.
  */
module Drafts {
  import opened Wrappers

  type ReleaseId = nat

  // A resource belongs to its kind.
  datatype ResourceId = ResourceId(kind: nat, id: nat)

  datatype ReleaseStatus = Draft | NotDraft

  datatype Data = Data(content: nat, active: bool)

  datatype Release = Release(status: ReleaseStatus, revision: nat, resources: map<ResourceId, Data>)

  datatype Operation = Create(content: nat) | Replace(content: nat) | Deactivate

  // For a CREATE, `resource` is the identity it is given; `admitted` is the verdict of references and constraints.
  datatype Request = Request(key: nat, release: ReleaseId, operation: Operation, resource: ResourceId,
                             expectedRevision: nat, fingerprint: nat, admitted: bool)

  datatype Claim = Claim(key: nat, release: ReleaseId, operation: Operation, resource: ResourceId, fingerprint: nat,
                         beforeRevision: nat, before: Option<Data>, after: Data)

  datatype State = State(releases: map<ReleaseId, Release>, claims: seq<Claim>)

  datatype Outcome =
    | Persisted(claim: Claim) | Replayed(claim: Claim) | IdempotencyConflict | NotFound | NotADraft
    | RevisionConflict(actual: nat) | InvalidResource | ResourceConflict

  function FindClaim(claims: seq<Claim>, key: nat): Option<Claim> {
    if claims == [] then None
    else if claims[0].key == key then Some(claims[0])
    else FindClaim(claims[1..], key)
  }

  predicate SameKind(a: Operation, b: Operation) {
    (a.Create? && b.Create?) || (a.Replace? && b.Replace?) || (a.Deactivate? && b.Deactivate?)
  }

  predicate Compatible(c: Claim, r: Request) {
    && SameKind(c.operation, r.operation) && c.release == r.release
    && c.resource.kind == r.resource.kind && (r.operation.Create? || c.resource == r.resource)
    && c.fingerprint == r.fingerprint
  }

  function After(before: Option<Data>, operation: Operation): Data {
    match operation
    case Create(content) => Data(content, true)
    case Replace(content) => Data(content, true)
    case Deactivate => Data(if before.Some? then before.value.content else 0, false)
  }

  function Lookup(resources: map<ResourceId, Data>, id: ResourceId): Option<Data> {
    if id in resources then Some(resources[id]) else None
  }

  // One transaction under the release's and the key's locks.
  function Mutate(s: State, r: Request): (State, Outcome) {
    var claim := FindClaim(s.claims, r.key);
    if claim.Some? then (s, if Compatible(claim.value, r) then Replayed(claim.value) else IdempotencyConflict)
    else if r.release !in s.releases then (s, NotFound)
    else
      var release := s.releases[r.release];
      var before := if r.operation.Create? then None else Lookup(release.resources, r.resource);
      if release.status.NotDraft? then (s, NotADraft)
      else if release.revision != r.expectedRevision then (s, RevisionConflict(release.revision))
      else if !r.operation.Create? && before.None? then (s, NotFound)
      else if !r.admitted then (s, InvalidResource)
      else if r.operation.Create? && r.resource in release.resources then (s, ResourceConflict)
      else
        var after := After(before, r.operation);
        var c := Claim(r.key, r.release, r.operation, r.resource, r.fingerprint, release.revision, before, after);
        (State(s.releases[r.release := release.(revision := release.revision + 1,
                                                resources := release.resources[r.resource := after])],
               s.claims + [c]),
         Persisted(c))
  }

  datatype Event = DoMutate(r: Request) | Publish(release: ReleaseId)

  function Next(s: State, e: Event): State {
    match e
    case DoMutate(r) => Mutate(s, r).0
    case Publish(id) =>
      if id in s.releases then s.(releases := s.releases[id := s.releases[id].(status := NotDraft)]) else s
  }

  function Run(s: State, es: seq<Event>): State
    decreases |es|
  {
    if es == [] then s else Run(Next(s, es[0]), es[1..])
  }

  // ----- Claims and revisions -----

  // The claims of one release, in order.
  function ClaimsOf(claims: seq<Claim>, id: ReleaseId): seq<Claim> {
    if claims == [] then []
    else ClaimsOf(claims[..|claims| - 1], id) + if claims[|claims| - 1].release == id then [claims[|claims| - 1]] else []
  }

  // What a list of claims turns a release's resources into.
  function Rebuild(resources: map<ResourceId, Data>, claims: seq<Claim>): map<ResourceId, Data> {
    if claims == [] then resources
    else Rebuild(resources, claims[..|claims| - 1])[claims[|claims| - 1].resource := claims[|claims| - 1].after]
  }

  lemma ClaimsOfAppend(claims: seq<Claim>, c: Claim, id: ReleaseId)
    ensures ClaimsOf(claims + [c], id) == ClaimsOf(claims, id) + if c.release == id then [c] else []
  {
    assert (claims + [c])[..|claims|] == claims;
  }

  lemma RebuildAppend(resources: map<ResourceId, Data>, claims: seq<Claim>, c: Claim)
    ensures Rebuild(resources, claims + [c]) == Rebuild(resources, claims)[c.resource := c.after]
  {
    assert (claims + [c])[..|claims|] == claims;
  }

  // The k-th claim of a release took its revision from initial + k, saw the resource as the earlier
  // claims had left it, and left what its operation makes of it.
  ghost predicate ChainedAt(initial: Release, own: seq<Claim>, k: nat)
    requires k < |own|
  {
    && own[k].beforeRevision == initial.revision + k
    && (!own[k].operation.Create? ==> own[k].before == Lookup(Rebuild(initial.resources, own[..k]), own[k].resource))
    && (own[k].operation.Create? ==> own[k].before.None?)
    && own[k].after == After(own[k].before, own[k].operation)
  }

  ghost predicate ReleaseSound(start: State, s: State, id: ReleaseId) {
    id in start.releases ==>
      && id in s.releases
      && var own := ClaimsOf(s.claims, id);
         && s.releases[id].revision == start.releases[id].revision + |own|
         && s.releases[id].resources == Rebuild(start.releases[id].resources, own)
         && forall k :: 0 <= k < |own| ==> ChainedAt(start.releases[id], own, k)
  }

  ghost predicate Inv(start: State, s: State) {
    && s.releases.Keys == start.releases.Keys
    && (forall id :: ReleaseSound(start, s, id))
    && (forall i, j :: 0 <= i < j < |s.claims| ==> s.claims[i].key != s.claims[j].key)
  }

  lemma {:induction false} FindClaimNone(claims: seq<Claim>, key: nat)
    requires FindClaim(claims, key).None?
    ensures forall i :: 0 <= i < |claims| ==> claims[i].key != key
  {
    if claims != [] {
      FindClaimNone(claims[1..], key);
      forall i | 0 <= i < |claims| ensures claims[i].key != key {
        if i > 0 { assert claims[1..][i - 1] == claims[i]; }
      }
    }
  }

  lemma OwnReleaseKeeps(initial: Release, own: seq<Claim>, c: Claim)
    requires forall k :: 0 <= k < |own| ==> ChainedAt(initial, own, k)
    requires c.beforeRevision == initial.revision + |own| && c.after == After(c.before, c.operation)
    requires if c.operation.Create? then c.before.None?
             else c.before == Lookup(Rebuild(initial.resources, own), c.resource)
    ensures forall k :: 0 <= k < |own + [c]| ==> ChainedAt(initial, own + [c], k)
    ensures Rebuild(initial.resources, own + [c]) == Rebuild(initial.resources, own)[c.resource := c.after]
  {
    var more := own + [c];
    RebuildAppend(initial.resources, own, c);
    forall k | 0 <= k < |more| ensures ChainedAt(initial, more, k) {
      if k < |own| {
        assert ChainedAt(initial, own, k) && more[..k] == own[..k];
      } else {
        assert more[..k] == own;
      }
    }
  }

  lemma PersistedKeepsRelease(start: State, s: State, r: Request, id: ReleaseId)
    requires Mutate(s, r).1.Persisted? && ReleaseSound(start, s, id)
    ensures ReleaseSound(start, Mutate(s, r).0, id)
  {
    if id in start.releases {
      var c := Mutate(s, r).1.claim;
      var own := ClaimsOf(s.claims, id);
      ClaimsOfAppend(s.claims, c, id);
      if r.release == id {
        OwnReleaseKeeps(start.releases[id], own, c);
      } else {
        assert ClaimsOf(s.claims + [c], id) == own;
      }
    }
  }

  lemma StepKeepsInv(start: State, s: State, e: Event)
    requires Inv(start, s)
    ensures Inv(start, Next(s, e))
  {
    match e
    case DoMutate(r) =>
      if Mutate(s, r).1.Persisted? {
        forall id ensures ReleaseSound(start, Mutate(s, r).0, id) {
          assert ReleaseSound(start, s, id);
          PersistedKeepsRelease(start, s, r, id);
        }
        FindClaimNone(s.claims, r.key);
      }
    case Publish(p) =>
      forall id ensures ReleaseSound(start, Next(s, e), id) {
        assert ReleaseSound(start, s, id);
      }
  }

  lemma {:induction false} RunKeepsInv(start: State, s: State, es: seq<Event>)
    requires Inv(start, s)
    ensures Inv(start, Run(s, es))
    decreases |es|
  {
    if es != [] {
      StepKeepsInv(start, s, es[0]);
      RunKeepsInv(start, Next(s, es[0]), es[1..]);
    }
  }

  // ----- Main results -----

  // For any mutations racing on any releases: a release's revision has advanced once per claim on
  // it, each revision was won by exactly one claim, and the claims alone rebuild the draft: each
  // recorded before value is what the earlier claims had left.
  lemma ClaimsAreTheHistory(start: State, es: seq<Event>, id: ReleaseId)
    requires start.claims == [] && id in start.releases
    ensures var t := Run(start, es);
            var own := ClaimsOf(t.claims, id);
            && id in t.releases
            && t.releases[id].revision - start.releases[id].revision == |own|
            && (forall k :: 0 <= k < |own| ==> ChainedAt(start.releases[id], own, k))
            && (forall j, k :: 0 <= j < k < |own| ==> own[j].beforeRevision != own[k].beforeRevision)
            && t.releases[id].resources == Rebuild(start.releases[id].resources, own)
  {
    StartInv(start);
    RunKeepsInv(start, start, es);
    var t := Run(start, es);
    assert ReleaseSound(start, t, id);
    var own := ClaimsOf(t.claims, id);
    forall j, k | 0 <= j < k < |own| ensures own[j].beforeRevision != own[k].beforeRevision {
      assert ChainedAt(start.releases[id], own, j) && ChainedAt(start.releases[id], own, k);
    }
  }

  lemma StartInv(start: State)
    requires start.claims == []
    ensures Inv(start, start)
  {
    forall id ensures ReleaseSound(start, start, id) {
      assert ClaimsOf(start.claims, id) == [];
    }
  }

  // How many of a list of requests are persisted, processed in this order.
  function Winners(s: State, rs: seq<Request>): nat
    decreases |rs|
  {
    if rs == [] then 0 else (if Mutate(s, rs[0]).1.Persisted? then 1 else 0) + Winners(Mutate(s, rs[0]).0, rs[1..])
  }

  lemma {:induction false} LateIsStale(s: State, rs: seq<Request>, id: ReleaseId)
    requires id in s.releases
    requires forall i :: 0 <= i < |rs| ==> rs[i].release == id && rs[i].expectedRevision < s.releases[id].revision
    ensures Winners(s, rs) == 0
    decreases |rs|
  {
    if rs != [] {
      LateIsStale(Mutate(s, rs[0]).0, rs[1..], id);
    }
  }

  // Any number of requests racing for the same revision, in any order: at most one is persisted,
  // and exactly one if any of them is acceptable on its own.
  lemma {:induction false} OneWinnerPerRevision(s: State, rs: seq<Request>, id: ReleaseId)
    requires id in s.releases
    requires forall i :: 0 <= i < |rs| ==> rs[i].release == id && rs[i].expectedRevision == s.releases[id].revision
    ensures Winners(s, rs) <= 1
    ensures Winners(s, rs) == 1 <==> exists i :: 0 <= i < |rs| && Mutate(s, rs[i]).1.Persisted?
    decreases |rs|
  {
    if rs != [] {
      if Mutate(s, rs[0]).1.Persisted? {
        LateIsStale(Mutate(s, rs[0]).0, rs[1..], id);
      } else {
        assert Mutate(s, rs[0]).0 == s;
        OneWinnerPerRevision(s, rs[1..], id);
        if Winners(s, rs[1..]) == 1 {
          var i :| 0 <= i < |rs[1..]| && Mutate(s, rs[1..][i]).1.Persisted?;
          assert rs[i + 1] == rs[1..][i];
        } else {
          forall i | 0 <= i < |rs| ensures !Mutate(s, rs[i]).1.Persisted? {
            if i > 0 { assert rs[i] == rs[1..][i - 1]; }
          }
        }
      }
    }
  }

  lemma {:induction false} FindAppend(claims: seq<Claim>, c: Claim, key: nat)
    ensures FindClaim(claims + [c], key) ==
            if FindClaim(claims, key).Some? then FindClaim(claims, key) else if c.key == key then Some(c) else None
  {
    if claims == [] {
      assert (claims + [c])[1..] == [];
    } else {
      assert (claims + [c])[1..] == claims[1..] + [c];
      FindAppend(claims[1..], c, key);
    }
  }

  lemma {:induction false} ClaimStays(s: State, es: seq<Event>, key: nat)
    requires FindClaim(s.claims, key).Some?
    ensures FindClaim(Run(s, es).claims, key) == FindClaim(s.claims, key)
    decreases |es|
  {
    if es != [] {
      if es[0].DoMutate? && Mutate(s, es[0].r).1.Persisted? {
        FindAppend(s.claims, Mutate(s, es[0].r).1.claim, key);
      }
      ClaimStays(Next(s, es[0]), es[1..], key);
    }
  }

  // The same fingerprint, release, operation and resource kind, and the same resource unless it is a CREATE,
  // whose resource is assigned.
  predicate AsksTheSame(r: Request, again: Request) {
    && again.fingerprint == r.fingerprint && again.release == r.release
    && (again.operation.Create? <==> r.operation.Create?) && (again.operation.Replace? <==> r.operation.Replace?)
    && again.resource.kind == r.resource.kind && (r.operation.Create? || again.resource == r.resource)
  }

  // What a persisted mutation writes. A CREATE or REPLACE leaves its own content active, a DEACTIVATE the old
  // content inactive; every other resource and release stays, and the new claim, the only one, records the
  // request with the resource's data before and after.
  ghost predicate Writes(s: State, t: State, r: Request, c: Claim) {
    && r.release in s.releases && t.releases.Keys == s.releases.Keys
    && (forall id :: id in s.releases && id != r.release ==> t.releases[id] == s.releases[id])
    && var old0, new0 := s.releases[r.release], t.releases[r.release];
       && old0.status.Draft? && new0.status.Draft? && old0.revision == r.expectedRevision && new0.revision == old0.revision + 1
       && new0.resources.Keys == old0.resources.Keys + {r.resource}
       && (forall x :: x in old0.resources && x != r.resource ==> new0.resources[x] == old0.resources[x])
       && (r.operation.Create? <==> r.resource !in old0.resources)
       && new0.resources[r.resource]
          == Data(if r.operation.Deactivate? then old0.resources[r.resource].content else r.operation.content, !r.operation.Deactivate?)
       && t.claims == s.claims + [c]
       && c == Claim(r.key, r.release, r.operation, r.resource, r.fingerprint, old0.revision,
                     if r.resource in old0.resources then Some(old0.resources[r.resource]) else None, new0.resources[r.resource])
  }

  // A new key persists exactly on a draft at the expected revision, for an admitted request whose resource is
  // there unless it is to be created.
  predicate Persistable(s: State, r: Request) {
    && r.admitted && (forall k :: 0 <= k < |s.claims| ==> s.claims[k].key != r.key)
    && r.release in s.releases && s.releases[r.release].status.Draft? && s.releases[r.release].revision == r.expectedRevision
    && (r.operation.Create? <==> r.resource !in s.releases[r.release].resources)
  }

  lemma {:induction false} FindsKey(claims: seq<Claim>, key: nat)
    ensures FindClaim(claims, key).Some? ==> exists k :: 0 <= k < |claims| && claims[k].key == key
  {
    if claims != [] && claims[0].key != key && FindClaim(claims, key).Some? {
      FindsKey(claims[1..], key);
      var k :| 0 <= k < |claims[1..]| && claims[1..][k].key == key;
      assert claims[k + 1].key == key;
    }
  }

  lemma PersistsIff(s: State, r: Request)
    ensures Mutate(s, r).1.Persisted? <==> Persistable(s, r)
  {
    if FindClaim(s.claims, r.key).Some? {
      FindsKey(s.claims, r.key);
    } else {
      FindClaimNone(s.claims, r.key);
    }
  }

  lemma PersistedWrites(s: State, r: Request)
    requires Mutate(s, r).1.Persisted?
    ensures Writes(s, Mutate(s, r).0, r, Mutate(s, r).1.claim)
  {
  }

  // A refused new key is told the first thing that is in its way.
  lemma RefusedBecause(s: State, r: Request)
    requires forall k :: 0 <= k < |s.claims| ==> s.claims[k].key != r.key
    ensures var outcome := Mutate(s, r).1;
            && (r.release !in s.releases ==> outcome == NotFound)
            && (r.release in s.releases ==>
                  var release := s.releases[r.release];
                  && (outcome == NotADraft <==> release.status.NotDraft?)
                  && (outcome.RevisionConflict? <==> release.status.Draft? && release.revision != r.expectedRevision)
                  && (outcome.RevisionConflict? ==> outcome.actual == release.revision)
                  && (outcome == NotFound ==> r.resource !in release.resources && !r.operation.Create?)
                  && (outcome == InvalidResource ==> !r.admitted)
                  && (outcome == ResourceConflict ==> r.admitted && r.operation.Create? && r.resource in release.resources))
  {
    if FindClaim(s.claims, r.key).Some? {
      FindsKey(s.claims, r.key);
    }
  }

  // A published release is frozen: nothing changes it any more, and no new request is persisted on it.
  lemma PublishedIsFrozen(s: State, id: ReleaseId, es: seq<Event>)
    requires id in s.releases
    ensures var t := Run(Next(s, Publish(id)), es);
            && id in t.releases && t.releases[id] == s.releases[id].(status := NotDraft)
            && forall r: Request :: r.release == id ==> !Mutate(t, r).1.Persisted?
  {
    FrozenRun(Next(s, Publish(id)), id, es);
  }

  lemma {:induction false} FrozenRun(s: State, id: ReleaseId, es: seq<Event>)
    requires id in s.releases && s.releases[id].status.NotDraft?
    ensures var t := Run(s, es); id in t.releases && t.releases[id] == s.releases[id]
    decreases |es|
  {
    if es != [] {
      FrozenRun(Next(s, es[0]), id, es[1..]);
    }
  }

  // The claim is looked up before the revision: after any later revisions, and even after the
  // release was published, an exact repetition returns its original result, a changed one is an
  // idempotency conflict, and neither changes anything.
  lemma ReplayBeforeRevision(s: State, r: Request, later: seq<Event>, again: Request)
    requires Mutate(s, r).1.Persisted? && again.key == r.key
    ensures var (t, outcome) := Mutate(s, r);
            var u := Run(t, later);
            Mutate(u, again) == (u, if AsksTheSame(r, again) then Replayed(outcome.claim) else IdempotencyConflict)
  {
    FindAppend(s.claims, Mutate(s, r).1.claim, r.key);
    ClaimStays(Mutate(s, r).0, later, r.key);
  }

  // ----- The draft tables -----

  ghost predicate Reachable(start: State, s: State) {
    start.claims == [] && exists es :: s == Run(start, es)
  }

  lemma {:induction false} RunAppend(s: State, es: seq<Event>, e: Event)
    ensures Run(s, es + [e]) == Next(Run(s, es), e)
    decreases |es|
  {
    if es == [] {
      assert (es + [e])[1..] == [];
    } else {
      assert (es + [e])[1..] == es[1..] + [e];
      RunAppend(Next(s, es[0]), es[1..], e);
    }
  }

  // A persisted request takes the release one revision on and repeating it replays; whatever the outcome,
  // the claims of the release count its revisions and rebuild its resources.
  lemma ApplyGives(start: State, s: State, r: Request)
    requires Reachable(start, s)
    ensures var (t, outcome) := Mutate(s, r);
            && Reachable(start, t)
            && (outcome.Persisted? <==> Persistable(s, r))
            && (outcome.Persisted? ==>
                  && r.release in s.releases && r.release in t.releases
                  && Writes(s, t, r, outcome.claim)
                  && Mutate(t, r) == (t, Replayed(outcome.claim)))
            && (r.release in start.releases ==> History(start, t, r.release))
  {
    var es :| s == Run(start, es);
    RunAppend(start, es, DoMutate(r));
    assert Mutate(s, r).0 == Run(start, es + [DoMutate(r)]);
    PersistsIff(s, r);
    if Mutate(s, r).1.Persisted? {
      ReplayBeforeRevision(s, r, [], r);
      PersistedWrites(s, r);
    }
    if r.release in start.releases {
      ClaimsAreTheHistory(start, es + [DoMutate(r)], r.release);
    }
  }

  ghost predicate History(start: State, s: State, id: ReleaseId)
    requires id in start.releases
  {
    && id in s.releases
    && s.releases[id].revision - start.releases[id].revision == |ClaimsOf(s.claims, id)|
    && s.releases[id].resources == Rebuild(start.releases[id].resources, ClaimsOf(s.claims, id))
  }

  class DraftStore {
    ghost const start: State
    var releases: map<ReleaseId, Release>
    var claims: seq<Claim>

    ghost predicate Valid()
      reads this
    {
      Reachable(start, State(releases, claims))
    }

    constructor (releases: map<ReleaseId, Release>)
      ensures State(this.releases, claims) == State(releases, []) == start && Valid()
    {
      assert Run(State(releases, []), []) == State(releases, []);
      start := State(releases, []);
      this.releases, claims := releases, [];
    }

    // A persisted request wins exactly the revision it expected, writes its own content and replays from then
    // on; the claims stay the whole history of the release.
    method Apply(r: Request) returns (outcome: Outcome)
      requires Valid()
      modifies `releases, `claims
      ensures (State(releases, claims), outcome) == Mutate(old(State(releases, claims)), r)
      ensures Valid()
      ensures outcome.Persisted? <==> Persistable(old(State(releases, claims)), r)
      ensures outcome.Persisted? ==>
                && Writes(old(State(releases, claims)), State(releases, claims), r, outcome.claim)
                && Mutate(State(releases, claims), r) == (State(releases, claims), Replayed(outcome.claim))
      ensures !outcome.Persisted? ==> releases == old(releases) && claims == old(claims)
      ensures r.release in start.releases ==> History(start, State(releases, claims), r.release)
    {
      ApplyGives(start, State(releases, claims), r);
      var claim := FindClaim(claims, r.key);
      if claim.Some? {
        return if Compatible(claim.value, r) then Replayed(claim.value) else IdempotencyConflict;
      }
      if r.release !in releases {
        return NotFound;
      }
      var release := releases[r.release];
      if release.status != Draft {
        return NotADraft;
      }
      if release.revision != r.expectedRevision {
        return RevisionConflict(release.revision);
      }
      var before := None;
      if !r.operation.Create? {
        before := Lookup(release.resources, r.resource);
        if before == None {
          return NotFound;
        }
      }
      if !r.admitted {
        return InvalidResource;
      }
      if r.operation.Create? && r.resource in release.resources {
        return ResourceConflict;
      }
      var after := After(before, r.operation);
      releases := releases[r.release := release.(revision := release.revision + 1,
                                                 resources := release.resources[r.resource := after])];
      var c := Claim(r.key, r.release, r.operation, r.resource, r.fingerprint, release.revision, before, after);
      claims := claims + [c];
      outcome := Persisted(c);
    }
  }
}
