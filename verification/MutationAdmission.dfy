/** The durable budget in front of state-changing requests: one bucket per subject, surface and
  * policy, one charge per dedupe key, exact replays free for ever.
  */
module MutationAdmission {
  import opened Wrappers

  datatype Policy = Policy(maxEvents: nat, windowMs: nat)

  datatype BucketKey = BucketKey(subject: nat, surface: nat, policy: Policy)

  datatype Bucket = Bucket(startedAt: nat, used: nat)

  datatype Charge = Charge(key: BucketKey, dedupe: nat, fingerprint: nat, startedAt: nat)

  datatype Request = Request(key: BucketKey, dedupe: nat, fingerprint: nat)

  datatype State = State(buckets: map<BucketKey, Bucket>, charges: seq<Charge>)

  datatype Decision = Allowed(replayed: bool) | Blocked(retryAfterMs: nat) | FingerprintMismatch | ValidationFailed

  const MAX_WINDOW_MS := 86_400_000
  const INITIAL := State(map[], [])

  predicate ValidPolicy(p: Policy) {
    p.maxEvents > 0 && 0 < p.windowMs <= MAX_WINDOW_MS
  }

  function Prior(charges: seq<Charge>, key: BucketKey, dedupe: nat): Option<Charge> {
    if charges == [] then None
    else if charges[0].key == key && charges[0].dedupe == dedupe then Some(charges[0])
    else Prior(charges[1..], key, dedupe)
  }

  function Expired(s: State, key: BucketKey, now: nat): bool {
    key !in s.buckets || now >= s.buckets[key].startedAt + key.policy.windowMs
  }

  function Current(s: State, key: BucketKey, now: nat): Bucket {
    if Expired(s, key, now) then Bucket(now, 0) else s.buckets[key]
  }

  // One transaction under the bucket's lock.
  function Consume(s: State, r: Request, now: nat): (State, Decision) {
    var prior := Prior(s.charges, r.key, r.dedupe);
    var current := Current(s, r.key, now);
    if !ValidPolicy(r.key.policy) then (s, ValidationFailed)
    else if prior.Some? then
      (s, if prior.value.fingerprint == r.fingerprint then Allowed(true) else FingerprintMismatch)
    else if current.used >= r.key.policy.maxEvents then
      var elapsed := now - current.startedAt;
      (s, Blocked(if elapsed + 1 > r.key.policy.windowMs then 1 else r.key.policy.windowMs - elapsed))
    else
      (State(s.buckets[r.key := Bucket(current.startedAt, current.used + 1)],
             s.charges + [Charge(r.key, r.dedupe, r.fingerprint, current.startedAt)]),
       Allowed(false))
  }

  function ConsumeAll(s: State, rs: seq<(Request, nat)>): State
    decreases |rs|
  {
    if rs == [] then s else ConsumeAll(Consume(s, rs[0].0, rs[0].1).0, rs[1..])
  }

  function InWindow(charges: seq<Charge>, key: BucketKey, w: nat): nat {
    if charges == [] then 0
    else
      var last := charges[|charges| - 1];
      InWindow(charges[..|charges| - 1], key, w) + if last.key == key && last.startedAt == w then 1 else 0
  }

  ghost predicate KeySound(s: State, key: BucketKey) {
    && (key in s.buckets ==>
          && s.buckets[key].used == InWindow(s.charges, key, s.buckets[key].startedAt)
          && 1 <= s.buckets[key].used <= key.policy.maxEvents)
    && (forall w: nat :: InWindow(s.charges, key, w) <= key.policy.maxEvents)
    && (forall w: nat :: InWindow(s.charges, key, w) > 0 ==> key in s.buckets && w <= s.buckets[key].startedAt)
  }

  ghost predicate Inv(s: State) {
    && (forall key: BucketKey :: ValidPolicy(key.policy) ==> KeySound(s, key))
    && (forall i, j :: 0 <= i < j < |s.charges| ==>
          !(s.charges[i].key == s.charges[j].key && s.charges[i].dedupe == s.charges[j].dedupe))
  }

  lemma InWindowAppend(charges: seq<Charge>, c: Charge, key: BucketKey, w: nat)
    ensures InWindow(charges + [c], key, w) == InWindow(charges, key, w) + if c.key == key && c.startedAt == w then 1 else 0
  {
    assert (charges + [c])[..|charges|] == charges;
  }

  lemma {:induction false} PriorNone(charges: seq<Charge>, key: BucketKey, dedupe: nat)
    requires Prior(charges, key, dedupe).None?
    ensures forall i :: 0 <= i < |charges| ==> !(charges[i].key == key && charges[i].dedupe == dedupe)
  {
    if charges != [] {
      PriorNone(charges[1..], key, dedupe);
      forall i | 0 <= i < |charges| ensures !(charges[i].key == key && charges[i].dedupe == dedupe) {
        if i > 0 { assert charges[1..][i - 1] == charges[i]; }
      }
    }
  }

  lemma ConsumeKeepsKey(s: State, r: Request, now: nat, key: BucketKey)
    requires ValidPolicy(key.policy) && KeySound(s, key)
    ensures KeySound(Consume(s, r, now).0, key)
  {
    var t := Consume(s, r, now).0;
    if t != s {
      var c := t.charges[|s.charges|];
      forall w: nat
        ensures InWindow(t.charges, key, w) == InWindow(s.charges, key, w) + if c.key == key && c.startedAt == w then 1 else 0
      {
        InWindowAppend(s.charges, c, key, w);
      }
    }
  }

  lemma ConsumeKeepsInv(s: State, r: Request, now: nat)
    requires Inv(s)
    ensures Inv(Consume(s, r, now).0)
  {
    forall key: BucketKey | ValidPolicy(key.policy) ensures KeySound(Consume(s, r, now).0, key) {
      ConsumeKeepsKey(s, r, now, key);
    }
    if Prior(s.charges, r.key, r.dedupe).None? {
      PriorNone(s.charges, r.key, r.dedupe);
    }
  }

  lemma {:induction false} RunKeepsInv(s: State, rs: seq<(Request, nat)>)
    requires Inv(s)
    ensures Inv(ConsumeAll(s, rs))
    decreases |rs|
  {
    if rs != [] {
      ConsumeKeepsInv(s, rs[0].0, rs[0].1);
      RunKeepsInv(Consume(s, rs[0].0, rs[0].1).0, rs[1..]);
    }
  }

  // In every run: the counter equals the charge rows of the current window, no window exceeds its
  // limit, and no dedupe key is charged twice.
  lemma BudgetIsExact(rs: seq<(Request, nat)>, key: BucketKey, w: nat)
    requires ValidPolicy(key.policy)
    ensures var t := ConsumeAll(INITIAL, rs);
            && (key in t.buckets ==> t.buckets[key].used == InWindow(t.charges, key, t.buckets[key].startedAt))
            && InWindow(t.charges, key, w) <= key.policy.maxEvents
            && forall i, j :: 0 <= i < j < |t.charges| ==>
                 !(t.charges[i].key == t.charges[j].key && t.charges[i].dedupe == t.charges[j].dedupe)
  {
    RunKeepsInv(INITIAL, rs);
    assert KeySound(ConsumeAll(INITIAL, rs), key);
  }

  lemma {:induction false} PriorStays(s: State, rs: seq<(Request, nat)>, key: BucketKey, dedupe: nat)
    requires Prior(s.charges, key, dedupe).Some?
    ensures Prior(ConsumeAll(s, rs).charges, key, dedupe) == Prior(s.charges, key, dedupe)
    decreases |rs|
  {
    if rs != [] {
      var t := Consume(s, rs[0].0, rs[0].1).0;
      if t != s {
        PriorAppend(s.charges, t.charges[|s.charges|], key, dedupe);
      }
      PriorStays(t, rs[1..], key, dedupe);
    }
  }

  lemma {:induction false} PriorAppend(charges: seq<Charge>, c: Charge, key: BucketKey, dedupe: nat)
    ensures Prior(charges + [c], key, dedupe) ==
            if Prior(charges, key, dedupe).Some? then Prior(charges, key, dedupe)
            else if c.key == key && c.dedupe == dedupe then Some(c) else None
  {
    if charges == [] {
      assert (charges + [c])[1..] == [];
    } else {
      assert (charges + [c])[1..] == charges[1..] + [c];
      PriorAppend(charges[1..], c, key, dedupe);
    }
  }

  // Once admitted, a request is admitted for ever: after any later requests, in any window and with
  // the budget used up, its exact repetition is allowed and charges nothing, while the same dedupe
  // key with other content is refused and charges nothing.
  lemma AdmittedForEver(s: State, r: Request, at: nat, between: seq<(Request, nat)>, later: nat, other: nat)
    requires Consume(s, r, at).1.Allowed?
    ensures var t := ConsumeAll(Consume(s, r, at).0, between);
            && Consume(t, r, later) == (t, Allowed(true))
            && (other != r.fingerprint ==> Consume(t, r.(fingerprint := other), later) == (t, FingerprintMismatch))
  {
    var s1 := Consume(s, r, at).0;
    if s1 != s {
      PriorAppend(s.charges, s1.charges[|s.charges|], r.key, r.dedupe);
    }
    PriorStays(s1, between, r.key, r.dedupe);
  }

  // ----- The durable tables -----

  ghost predicate Reachable(s: State) {
    exists rs :: s == ConsumeAll(INITIAL, rs)
  }

  lemma {:induction false} RunAppend(s: State, xs: seq<(Request, nat)>, x: (Request, nat))
    ensures ConsumeAll(s, xs + [x]) == Consume(ConsumeAll(s, xs), x.0, x.1).0
    decreases |xs|
  {
    if xs == [] {
      assert (xs + [x])[1..] == [];
    } else {
      assert (xs + [x])[1..] == xs[1..] + [x];
      RunAppend(Consume(s, xs[0].0, xs[0].1).0, xs[1..], x);
    }
  }

  // The charge row an admitted request keeps for ever.
  predicate HasCharge(s: State, r: Request) {
    Prior(s.charges, r.key, r.dedupe).Some? && Prior(s.charges, r.key, r.dedupe).value.fingerprint == r.fingerprint
  }

  predicate Unseen(charges: seq<Charge>, r: Request) {
    forall i :: 0 <= i < |charges| ==> !(charges[i].key == r.key && charges[i].dedupe == r.dedupe)
  }

  // There is room in no bucket yet, in one whose window is over, and in one with less than its budget used.
  predicate HasRoom(buckets: map<BucketKey, Bucket>, key: BucketKey, now: nat) {
    key in buckets ==> now >= buckets[key].startedAt + key.policy.windowMs || buckets[key].used < key.policy.maxEvents
  }

  lemma {:induction false} PriorIff(charges: seq<Charge>, r: Request)
    ensures Prior(charges, r.key, r.dedupe).None? <==> Unseen(charges, r)
  {
    if Prior(charges, r.key, r.dedupe).None? {
      PriorNone(charges, r.key, r.dedupe);
    } else if !(charges[0].key == r.key && charges[0].dedupe == r.dedupe) {
      PriorIff(charges[1..], r);
      var i :| 0 <= i < |charges[1..]| && charges[1..][i].key == r.key && charges[1..][i].dedupe == r.dedupe;
      assert charges[i + 1] == charges[1..][i];
    }
  }

  // An admission holds for every later time; a block means that the live window holds its full budget of
  // charges, and it ends when that window does.
  lemma AdmitGives(s: State, r: Request, now: nat)
    requires Reachable(s)
    ensures var (t, decision) := Consume(s, r, now);
            && Reachable(t)
            && (decision.Allowed? ==> HasCharge(t, r) && forall later :: Consume(t, r, later) == (t, Allowed(true)))
            && (decision.ValidationFailed? <==>
                  !(r.key.policy.maxEvents > 0 && 0 < r.key.policy.windowMs <= 86_400_000))
            && (decision == Allowed(false) <==> ValidPolicy(r.key.policy) && Unseen(s.charges, r) && HasRoom(s.buckets, r.key, now))
            && (decision.Blocked? <==> ValidPolicy(r.key.policy) && Unseen(s.charges, r) && !HasRoom(s.buckets, r.key, now))
            && (decision.Blocked? ==>
                  && t == s && r.key in s.buckets
                  && InWindow(s.charges, r.key, s.buckets[r.key].startedAt) == r.key.policy.maxEvents
                  && (now >= s.buckets[r.key].startedAt ==>
                        now + decision.retryAfterMs == s.buckets[r.key].startedAt + r.key.policy.windowMs))
  {
    var rs :| s == ConsumeAll(INITIAL, rs);
    var (t, decision) := Consume(s, r, now);
    PriorIff(s.charges, r);
    RunAppend(INITIAL, rs, (r, now));
    assert t == ConsumeAll(INITIAL, rs + [(r, now)]);
    if decision.Allowed? && t != s {
      PriorAppend(s.charges, t.charges[|s.charges|], r.key, r.dedupe);
    }
    if decision.Blocked? {
      RunKeepsInv(INITIAL, rs);
      assert KeySound(s, r.key);
    }
  }

  class AdmissionStore {
    var buckets: map<BucketKey, Bucket>
    var charges: seq<Charge>

    ghost predicate Valid()
      reads this
    {
      Reachable(State(buckets, charges))
    }

    constructor ()
      ensures State(buckets, charges) == INITIAL && Valid()
    {
      assert ConsumeAll(INITIAL, []) == INITIAL;
      buckets, charges := map[], [];
    }

    // Whoever is admitted stays admitted; whoever is blocked faces a full window and learns when it ends.
    method Admit(r: Request, now: nat) returns (decision: Decision)
      requires Valid()
      modifies this
      ensures (State(buckets, charges), decision) == Consume(State(old(buckets), old(charges)), r, now)
      ensures Valid()
      ensures decision.Allowed? ==> forall later :: Consume(State(buckets, charges), r, later) == (State(buckets, charges), Allowed(true))
      ensures decision.ValidationFailed? <==> !(r.key.policy.maxEvents > 0 && 0 < r.key.policy.windowMs <= 86_400_000)
      ensures decision == Allowed(false) <==> ValidPolicy(r.key.policy) && Unseen(old(charges), r) && HasRoom(old(buckets), r.key, now)
      ensures decision.Blocked? <==> ValidPolicy(r.key.policy) && Unseen(old(charges), r) && !HasRoom(old(buckets), r.key, now)
      ensures decision.Blocked? ==>
                && r.key in buckets
                && InWindow(charges, r.key, buckets[r.key].startedAt) == r.key.policy.maxEvents
                && (now >= buckets[r.key].startedAt ==>
                      now + decision.retryAfterMs == buckets[r.key].startedAt + r.key.policy.windowMs)
    {
      AdmitGives(State(buckets, charges), r, now);
      if !ValidPolicy(r.key.policy) {
        return ValidationFailed;
      }
      var prior := Prior(charges, r.key, r.dedupe);
      if prior.Some? {
        return if prior.value.fingerprint == r.fingerprint then Allowed(true) else FingerprintMismatch;
      }
      var start, used := now, 0;
      if r.key in buckets && now - buckets[r.key].startedAt < r.key.policy.windowMs {
        start, used := buckets[r.key].startedAt, buckets[r.key].used;
      }
      if used >= r.key.policy.maxEvents {
        var left := r.key.policy.windowMs - (now - start);
        return Blocked(if left < 1 then 1 else left);
      }
      buckets := buckets[r.key := Bucket(start, used + 1)];
      charges := charges + [Charge(r.key, r.dedupe, r.fingerprint, start)];
      decision := Allowed(false);
    }
  }
}
