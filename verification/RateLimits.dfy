/** Multi-bucket message admission: several rate buckets are charged together or not at all, once per
  * message, under concurrent deliveries of the same message.
  */
module RateLimits {
  import opened Wrappers

  type MsgId = nat
  type CallId = nat

  // ----- Data model -----

  datatype Scope = PlayerScope | ChatScope | ActionScope

  // A policy key is versioned, so it stands for its limit and window.
  datatype Policy = Policy(maxEvents: nat, windowMs: nat)

  datatype PolicySet = PolicySet(player: Policy, chat: Policy, action: Policy)

  // Whom a rule counts: a sensitive action is counted per player.
  datatype Subject = OfPlayer(player: nat) | OfChat(chat: nat) | OfAction(player: nat, action: nat)

  // A rule resolved for a subject; it is also the key of its bucket.
  datatype Rule = Rule(scope: Scope, subject: Subject, policy: Policy)

  datatype Message = Message(id: MsgId, player: nat, chat: nat, action: Option<nat>)

  datatype Bucket = Bucket(startedAt: int, used: nat)

  datatype Charge = Charge(msg: MsgId, rule: Rule, startedAt: int)

  datatype State = State(buckets: map<Rule, Bucket>, charges: seq<Charge>, calls: map<CallId, Message>)

  datatype Decision =
    | Allowed
    | ReplayAllowed
    | Pending
    | Limited(scope: Scope, retryAfterMs: int)
    | InvalidRule
    | Conflict
    | NoSuchCall

  const DEFAULT_POLICIES := PolicySet(Policy(20, 10_000), Policy(100, 10_000), Policy(5, 10_000))

  // The rules of a message: player and chat always, the sensitive action when there is one.
  function RulesFor(m: Message, policies: PolicySet): (rules: seq<Rule>)
    ensures forall i, j :: 0 <= i < j < |rules| ==> rules[i].scope != rules[j].scope
  {
    [Rule(PlayerScope, OfPlayer(m.player), policies.player), Rule(ChatScope, OfChat(m.chat), policies.chat)]
    + if m.action.Some? then [Rule(ActionScope, OfAction(m.player, m.action.value), policies.action)] else []
  }

  predicate ValidRules(rules: seq<Rule>) {
    forall i :: 0 <= i < |rules| ==> rules[i].policy.maxEvents > 0 && rules[i].policy.windowMs > 0
  }

  predicate ChargedAny(charges: seq<Charge>, msg: MsgId) {
    exists i :: 0 <= i < |charges| && charges[i].msg == msg
  }

  // The primary key of a charge: message, scope and policy.
  predicate ChargedFor(charges: seq<Charge>, msg: MsgId, rule: Rule) {
    exists i :: 0 <= i < |charges| && charges[i].msg == msg
                && charges[i].rule.scope == rule.scope && charges[i].rule.policy == rule.policy
  }

  // ----- One admission -----

  predicate Exhausted(buckets: map<Rule, Bucket>, rule: Rule, now: int) {
    && rule in buckets
    && now - buckets[rule].startedAt < rule.policy.windowMs
    && buckets[rule].used >= rule.policy.maxEvents
  }

  function FirstExhausted(buckets: map<Rule, Bucket>, rules: seq<Rule>, now: int): (full: Option<Rule>)
    ensures full.Some? ==> Exhausted(buckets, full.value, now)
  {
    if rules == [] then None
    else if Exhausted(buckets, rules[0], now) then Some(rules[0])
    else FirstExhausted(buckets, rules[1..], now)
  }

  // A missing or expired bucket opens a new window at `now`; a live one counts one more.
  function Charged(buckets: map<Rule, Bucket>, rule: Rule, now: int): Bucket {
    if rule !in buckets || now - buckets[rule].startedAt >= rule.policy.windowMs then Bucket(now, 1)
    else buckets[rule].(used := buckets[rule].used + 1)
  }

  function ChargeOne(s: State, msg: MsgId, rule: Rule, now: int): State {
    var bucket := Charged(s.buckets, rule, now);
    s.(buckets := s.buckets[rule := bucket], charges := s.charges + [Charge(msg, rule, bucket.startedAt)])
  }

  // None when a charge violates the primary key: the transaction rolls back.
  function ChargeAll(s: State, msg: MsgId, rules: seq<Rule>, now: int): Option<State>
    decreases |rules|
  {
    if rules == [] then Some(s)
    else if ChargedFor(s.charges, msg, rules[0]) then None
    else ChargeAll(ChargeOne(s, msg, rules[0], now), msg, rules[1..], now)
  }

  function RetryAfter(bucket: Bucket, windowMs: nat, now: int): int {
    var left := windowMs - (now - bucket.startedAt);
    if left < 1 then 1 else left
  }

  // The replay check runs before any lock is taken.
  function Begin(s: State, call: CallId, m: Message, policies: PolicySet): (State, Decision) {
    if !ValidRules(RulesFor(m, policies)) then (s, InvalidRule)
    else if ChargedAny(s.charges, m.id) then (s, ReplayAllowed)
    else (s.(calls := s.calls[call := m]), Pending)
  }

  // The locked part: every bucket is checked before any is charged.
  function Consume(s: State, msg: MsgId, rules: seq<Rule>, now: int): (State, Decision) {
    var full := FirstExhausted(s.buckets, rules, now);
    if full.Some? then
      (s, Limited(full.value.scope, RetryAfter(s.buckets[full.value], full.value.policy.windowMs, now)))
    else
      var charged := ChargeAll(s, msg, rules, now);
      if charged.None? then (s, Conflict) else (charged.value, Allowed)
  }

  function Admit(s: State, call: CallId, policies: PolicySet, now: int): (State, Decision) {
    if call !in s.calls then (s, NoSuchCall)
    else Consume(s.(calls := s.calls - {call}), s.calls[call].id, RulesFor(s.calls[call], policies), now)
  }

  datatype Event =
    | DoBegin(call: CallId, m: Message)
    | DoAdmit(call: CallId, now: int)
    | Crash(call: CallId)

  function Step(s: State, policies: PolicySet, e: Event): (State, Decision) {
    match e
    case DoBegin(call, m) => Begin(s, call, m, policies)
    case DoAdmit(call, now) => Admit(s, call, policies, now)
    case Crash(call) => (s.(calls := s.calls - {call}), NoSuchCall)
  }

  function Run(s: State, policies: PolicySet, es: seq<Event>): State
    decreases |es|
  {
    if es == [] then s else Run(Step(s, policies, es[0]).0, policies, es[1..])
  }

  const INITIAL := State(map[], [], map[])

  // ----- Counting charges -----

  // Charges of one bucket in the window that started at w.
  function InWindow(charges: seq<Charge>, rule: Rule, w: int): nat {
    if charges == [] then 0
    else
      var last := charges[|charges| - 1];
      InWindow(charges[..|charges| - 1], rule, w) + if last.rule == rule && last.startedAt == w then 1 else 0
  }

  function ChargesOf(charges: seq<Charge>, msg: MsgId, rule: Rule): nat {
    if charges == [] then 0
    else
      var last := charges[|charges| - 1];
      ChargesOf(charges[..|charges| - 1], msg, rule) + if last.msg == msg && last.rule == rule then 1 else 0
  }

  lemma InWindowAppend(charges: seq<Charge>, c: Charge, rule: Rule, w: int)
    ensures InWindow(charges + [c], rule, w) == InWindow(charges, rule, w) + if c.rule == rule && c.startedAt == w then 1 else 0
  {
    assert (charges + [c])[..|charges|] == charges;
  }

  lemma ChargesOfAppend(charges: seq<Charge>, c: Charge, msg: MsgId, rule: Rule)
    ensures ChargesOf(charges + [c], msg, rule) == ChargesOf(charges, msg, rule) + if c.msg == msg && c.rule == rule then 1 else 0
  {
    assert (charges + [c])[..|charges|] == charges;
  }

  // ----- Invariant -----

  ghost predicate BucketSound(s: State, rule: Rule) {
    && (rule in s.buckets ==>
          && s.buckets[rule].used == InWindow(s.charges, rule, s.buckets[rule].startedAt)
          && 1 <= s.buckets[rule].used <= rule.policy.maxEvents)
    && (forall w: int :: InWindow(s.charges, rule, w) <= rule.policy.maxEvents)
    && (forall w: int :: InWindow(s.charges, rule, w) > 0 ==> rule in s.buckets && w <= s.buckets[rule].startedAt)
  }

  ghost predicate BucketsSound(s: State) {
    forall rule: Rule :: rule.policy.maxEvents > 0 && rule.policy.windowMs > 0 ==> BucketSound(s, rule)
  }

  lemma ChargeOneBucket(s: State, msg: MsgId, rule: Rule, now: int)
    requires BucketSound(s, rule) && rule.policy.maxEvents > 0 && rule.policy.windowMs > 0
    requires !Exhausted(s.buckets, rule, now)
    ensures BucketSound(ChargeOne(s, msg, rule, now), rule)
  {
    var t := ChargeOne(s, msg, rule, now);
    var c := Charge(msg, rule, t.buckets[rule].startedAt);
    forall w: int
      ensures InWindow(t.charges, rule, w) == InWindow(s.charges, rule, w) + if w == c.startedAt then 1 else 0
    {
      InWindowAppend(s.charges, c, rule, w);
    }
  }

  lemma ChargeOneKeepsBuckets(s: State, msg: MsgId, rule: Rule, now: int)
    requires BucketsSound(s) && rule.policy.maxEvents > 0 && rule.policy.windowMs > 0
    requires !Exhausted(s.buckets, rule, now)
    ensures BucketsSound(ChargeOne(s, msg, rule, now))
  {
    var t := ChargeOne(s, msg, rule, now);
    forall r: Rule | r.policy.maxEvents > 0 && r.policy.windowMs > 0 ensures BucketSound(t, r) {
      if r == rule {
        ChargeOneBucket(s, msg, rule, now);
      } else {
        forall w: int ensures InWindow(t.charges, r, w) == InWindow(s.charges, r, w) {
          InWindowAppend(s.charges, Charge(msg, rule, t.buckets[rule].startedAt), r, w);
        }
      }
    }
  }

  lemma {:induction false} FirstExhaustedNone(buckets: map<Rule, Bucket>, rules: seq<Rule>, now: int)
    ensures FirstExhausted(buckets, rules, now).None? <==> forall r :: r in rules ==> !Exhausted(buckets, r, now)
    ensures FirstExhausted(buckets, rules, now).Some? ==>
              FirstExhausted(buckets, rules, now).value in rules && Exhausted(buckets, FirstExhausted(buckets, rules, now).value, now)
  {
    if rules != [] {
      FirstExhaustedNone(buckets, rules[1..], now);
      assert rules == [rules[0]] + rules[1..];
    }
  }

  predicate DistinctScopes(rules: seq<Rule>) {
    forall i, j :: 0 <= i < j < |rules| ==> rules[i].scope != rules[j].scope
  }

  lemma {:induction false} ChargeAllKeepsBuckets(s: State, msg: MsgId, rules: seq<Rule>, now: int)
    requires BucketsSound(s) && ValidRules(rules) && DistinctScopes(rules)
    requires forall r :: r in rules ==> !Exhausted(s.buckets, r, now)
    requires ChargeAll(s, msg, rules, now).Some?
    ensures BucketsSound(ChargeAll(s, msg, rules, now).value)
    decreases |rules|
  {
    if rules != [] {
      var t := ChargeOne(s, msg, rules[0], now);
      ChargeOneKeepsBuckets(s, msg, rules[0], now);
      forall r | r in rules[1..] ensures !Exhausted(t.buckets, r, now) {
        assert r in rules && r.scope != rules[0].scope;
      }
      ChargeAllKeepsBuckets(t, msg, rules[1..], now);
    }
  }

  // ----- All or nothing, once per message -----

  // Every charge belongs to the current rules of its message, and a charged message is charged for
  // all of them exactly once. The rules of a message are fixed by `messages`.
  ghost predicate Whole(s: State, policies: PolicySet, messages: map<MsgId, Message>) {
    && (forall c :: c in s.calls ==> s.calls[c].id in messages && messages[s.calls[c].id] == s.calls[c])
    && (forall msg: MsgId, rule: Rule ::
          ChargesOf(s.charges, msg, rule) ==
          if ChargedAny(s.charges, msg) && msg in messages && rule in RulesFor(messages[msg], policies) then 1 else 0)
  }

  lemma {:induction false} ChargedAnyCount(charges: seq<Charge>, msg: MsgId, rule: Rule)
    ensures ChargesOf(charges, msg, rule) > 0 ==> ChargedAny(charges, msg) && ChargedFor(charges, msg, rule)
  {
    if charges != [] {
      var front := charges[..|charges| - 1];
      ChargedAnyCount(front, msg, rule);
      if ChargesOf(front, msg, rule) > 0 {
        var i :| 0 <= i < |front| && front[i].msg == msg
                 && front[i].rule.scope == rule.scope && front[i].rule.policy == rule.policy;
        assert charges[i] == front[i];
      }
    }
  }

  lemma {:induction false} ChargeAllCounts(s: State, msg: MsgId, rules: seq<Rule>, now: int, other: MsgId, rule: Rule)
    requires DistinctScopes(rules) && ChargeAll(s, msg, rules, now).Some?
    ensures var t := ChargeAll(s, msg, rules, now).value;
            && ChargesOf(t.charges, other, rule) == ChargesOf(s.charges, other, rule) + (if other == msg && rule in rules then 1 else 0)
            && t.calls == s.calls
    decreases |rules|
  {
    if rules != [] {
      var t := ChargeOne(s, msg, rules[0], now);
      ChargesOfAppend(s.charges, Charge(msg, rules[0], t.buckets[rules[0]].startedAt), other, rule);
      ChargeAllCounts(t, msg, rules[1..], now, other, rule);
      assert rules == [rules[0]] + rules[1..];
      if rule == rules[0] && rule in rules[1..] {
        assert false;
      }
    }
  }

  lemma {:induction false} ChargeAllGrows(s: State, msg: MsgId, rules: seq<Rule>, now: int)
    requires ChargeAll(s, msg, rules, now).Some?
    ensures var t := ChargeAll(s, msg, rules, now).value;
            && s.charges <= t.charges
            && (forall i :: |s.charges| <= i < |t.charges| ==> t.charges[i].msg == msg)
            && (rules != [] ==> |t.charges| > |s.charges|)
    decreases |rules|
  {
    if rules != [] {
      ChargeAllGrows(ChargeOne(s, msg, rules[0], now), msg, rules[1..], now);
    }
  }

  lemma {:induction false} ChargeAllSucceeds(s: State, msg: MsgId, rules: seq<Rule>, now: int)
    requires DistinctScopes(rules) && forall r :: r in rules ==> !ChargedFor(s.charges, msg, r)
    ensures ChargeAll(s, msg, rules, now).Some?
    decreases |rules|
  {
    if rules != [] {
      var t := ChargeOne(s, msg, rules[0], now);
      forall r | r in rules[1..] ensures !ChargedFor(t.charges, msg, r) {
        assert r in rules && r.scope != rules[0].scope;
        assert forall i :: 0 <= i < |s.charges| ==> t.charges[i] == s.charges[i];
      }
      ChargeAllSucceeds(t, msg, rules[1..], now);
    }
  }

  // A second delivery that slipped past the replay check runs into the primary key.
  lemma RacedAdmissionConflicts(s: State, policies: PolicySet, messages: map<MsgId, Message>, m: Message, now: int)
    requires Whole(s, policies, messages) && m.id in messages && messages[m.id] == m && ChargedAny(s.charges, m.id)
    ensures ChargeAll(s, m.id, RulesFor(m, policies), now).None?
  {
    var rule := RulesFor(m, policies)[0];
    assert rule in RulesFor(m, policies);
    assert ChargesOf(s.charges, m.id, rule) == 1;
    ChargedAnyCount(s.charges, m.id, rule);
  }

  lemma AdmitKeepsWhole(s: State, policies: PolicySet, messages: map<MsgId, Message>, call: CallId, now: int)
    requires Whole(s, policies, messages)
    ensures Whole(Admit(s, call, policies, now).0, policies, messages)
  {
    var t := Admit(s, call, policies, now).0;
    if Admit(s, call, policies, now).1.Allowed? {
      var m := s.calls[call];
      var rules := RulesFor(m, policies);
      var u := s.(calls := s.calls - {call});
      if ChargedAny(s.charges, m.id) {
        assert Whole(u, policies, messages);
        RacedAdmissionConflicts(u, policies, messages, m, now);
      }
      ChargeAllGrows(u, m.id, rules, now);
      assert t.charges[|s.charges|].msg == m.id;
      forall msg: MsgId, rule: Rule
        ensures ChargesOf(t.charges, msg, rule) ==
                if ChargedAny(t.charges, msg) && msg in messages && rule in RulesFor(messages[msg], policies) then 1 else 0
      {
        ChargeAllCounts(u, m.id, rules, now, msg, rule);
        AnyAfter(s.charges, t.charges, m.id, msg);
      }
      ChargeAllCounts(u, m.id, rules, now, m.id, rules[0]);
    }
  }

  lemma AnyAfter(before: seq<Charge>, after: seq<Charge>, id: MsgId, msg: MsgId)
    requires before <= after && |before| < |after|
    requires forall i :: |before| <= i < |after| ==> after[i].msg == id
    ensures ChargedAny(after, msg) <==> msg == id || ChargedAny(before, msg)
  {
    assert after[|before|].msg == id;
    if ChargedAny(before, msg) {
      var i :| 0 <= i < |before| && before[i].msg == msg;
      assert after[i] == before[i];
    }
  }

  lemma AdmitKeepsBuckets(s: State, policies: PolicySet, call: CallId, now: int)
    requires BucketsSound(s)
    requires forall c :: c in s.calls ==> ValidRules(RulesFor(s.calls[c], policies))
    ensures BucketsSound(Admit(s, call, policies, now).0)
  {
    var t := Admit(s, call, policies, now).0;
    if Admit(s, call, policies, now).1.Allowed? {
      var rules := RulesFor(s.calls[call], policies);
      FirstExhaustedNone(s.buckets, rules, now);
      SameTables(s, s.(calls := s.calls - {call}));
      ChargeAllKeepsBuckets(s.(calls := s.calls - {call}), s.calls[call].id, rules, now);
    } else {
      SameTables(s, t);
    }
  }

  lemma SameTables(s: State, t: State)
    requires BucketsSound(s) && t.buckets == s.buckets && t.charges == s.charges
    ensures BucketsSound(t)
  {
    forall rule: Rule | rule.policy.maxEvents > 0 && rule.policy.windowMs > 0 ensures BucketSound(t, rule) {
      assert BucketSound(s, rule);
    }
  }

  ghost predicate Inv(s: State, policies: PolicySet, messages: map<MsgId, Message>) {
    && BucketsSound(s)
    && Whole(s, policies, messages)
    && (forall c :: c in s.calls ==> ValidRules(RulesFor(s.calls[c], policies)))
  }

  // The inbox hands out one stored message per id.
  predicate FromInbox(messages: map<MsgId, Message>, es: seq<Event>) {
    forall i :: 0 <= i < |es| && es[i].DoBegin? ==> es[i].m.id in messages && messages[es[i].m.id] == es[i].m
  }

  lemma StepKeepsInv(s: State, policies: PolicySet, messages: map<MsgId, Message>, e: Event)
    requires Inv(s, policies, messages)
    requires e.DoBegin? ==> e.m.id in messages && messages[e.m.id] == e.m
    ensures Inv(Step(s, policies, e).0, policies, messages)
  {
    var t := Step(s, policies, e).0;
    match e
    case DoAdmit(call, now) =>
      AdmitKeepsBuckets(s, policies, call, now);
      AdmitKeepsWhole(s, policies, messages, call, now);
      if Admit(s, call, policies, now).1.Allowed? {
        var m := s.calls[call];
        ChargeAllCounts(s.(calls := s.calls - {call}), m.id, RulesFor(m, policies), now, m.id, RulesFor(m, policies)[0]);
      }
    case _ => SameTables(s, t);
  }

  lemma {:induction false} RunKeepsInv(s: State, policies: PolicySet, messages: map<MsgId, Message>, es: seq<Event>)
    requires Inv(s, policies, messages) && FromInbox(messages, es)
    ensures Inv(Run(s, policies, es), policies, messages)
    decreases |es|
  {
    if es != [] {
      StepKeepsInv(s, policies, messages, es[0]);
      RunKeepsInv(Step(s, policies, es[0]).0, policies, messages, es[1..]);
    }
  }

  lemma InitialInv(policies: PolicySet, messages: map<MsgId, Message>)
    ensures Inv(INITIAL, policies, messages)
  {
    assert !exists msg: MsgId :: ChargedAny(INITIAL.charges, msg);
  }

  // ----- Main results -----

  // In every run of concurrent admissions and crashes: a bucket's counter is its number of charge
  // rows in the current window, and no window of any bucket ever holds more than its limit.
  lemma BudgetNeverExceeded(policies: PolicySet, messages: map<MsgId, Message>, es: seq<Event>, rule: Rule, w: int)
    requires FromInbox(messages, es) && rule.policy.maxEvents > 0 && rule.policy.windowMs > 0
    ensures var t := Run(INITIAL, policies, es);
            && (rule in t.buckets ==>
                  1 <= t.buckets[rule].used == InWindow(t.charges, rule, t.buckets[rule].startedAt) <= rule.policy.maxEvents)
            && InWindow(t.charges, rule, w) <= rule.policy.maxEvents
  {
    InitialInv(policies, messages);
    RunKeepsInv(INITIAL, policies, messages, es);
    assert BucketSound(Run(INITIAL, policies, es), rule);
  }

  // A message is charged for all of its buckets, each exactly once, or for none of them.
  lemma ChargedOnceOrNotAtAll(policies: PolicySet, messages: map<MsgId, Message>, es: seq<Event>, id: MsgId)
    requires FromInbox(messages, es) && id in messages
    ensures var t := Run(INITIAL, policies, es);
            forall rule :: ChargesOf(t.charges, id, rule) ==
              if ChargedAny(t.charges, id) && rule in RulesFor(messages[id], policies) then 1 else 0
  {
    InitialInv(policies, messages);
    RunKeepsInv(INITIAL, policies, messages, es);
  }

  // Every charged message counts once against its player's limit and once against its chat's, and once against
  // its player's limit for the action if and only if it asks for a sensitive action; no window of that action's
  // bucket ever holds more messages than the action's own limit.
  lemma ChargedForEachScope(policies: PolicySet, messages: map<MsgId, Message>, es: seq<Event>, id: MsgId, action: nat, w: int)
    requires FromInbox(messages, es) && id in messages && policies.action.maxEvents > 0 && policies.action.windowMs > 0
    requires ChargedAny(Run(INITIAL, policies, es).charges, id)
    ensures var t, m := Run(INITIAL, policies, es), messages[id];
            var held := Rule(ActionScope, OfAction(m.player, action), policies.action);
            && ChargesOf(t.charges, id, Rule(PlayerScope, OfPlayer(m.player), policies.player)) == 1
            && ChargesOf(t.charges, id, Rule(ChatScope, OfChat(m.chat), policies.chat)) == 1
            && ChargesOf(t.charges, id, held) == (if m.action == Some(action) then 1 else 0)
            && InWindow(t.charges, held, w) <= policies.action.maxEvents
  {
    var m := messages[id];
    var held := Rule(ActionScope, OfAction(m.player, action), policies.action);
    ChargedOnceOrNotAtAll(policies, messages, es, id);
    BudgetNeverExceeded(policies, messages, es, held, w);
    assert RulesFor(m, policies)[0] in RulesFor(m, policies) && RulesFor(m, policies)[1] in RulesFor(m, policies);
    if m.action == Some(action) {
      assert RulesFor(m, policies)[2] == held;
    }
  }

  // The messages of a stress burst: twenty per player, a hundred per chat and five per sensitive action in ten
  // seconds.
  lemma DefaultBudgets(messages: map<MsgId, Message>, es: seq<Event>, player: nat, chat: nat, action: nat, w: int)
    requires FromInbox(messages, es)
    ensures var t := Run(INITIAL, DEFAULT_POLICIES, es);
            && InWindow(t.charges, Rule(PlayerScope, OfPlayer(player), Policy(20, 10_000)), w) <= 20
            && InWindow(t.charges, Rule(ChatScope, OfChat(chat), Policy(100, 10_000)), w) <= 100
            && InWindow(t.charges, Rule(ActionScope, OfAction(player, action), Policy(5, 10_000)), w) <= 5
  {
    BudgetNeverExceeded(DEFAULT_POLICIES, messages, es, Rule(PlayerScope, OfPlayer(player), DEFAULT_POLICIES.player), w);
    BudgetNeverExceeded(DEFAULT_POLICIES, messages, es, Rule(ChatScope, OfChat(chat), DEFAULT_POLICIES.chat), w);
    BudgetNeverExceeded(DEFAULT_POLICIES, messages, es, Rule(ActionScope, OfAction(player, action), DEFAULT_POLICIES.action), w);
  }

  lemma {:induction false} ChargesOnlyGrow(s: State, policies: PolicySet, es: seq<Event>)
    ensures s.charges <= Run(s, policies, es).charges
    decreases |es|
  {
    if es != [] {
      if es[0].DoAdmit? && es[0].call in s.calls && Admit(s, es[0].call, policies, es[0].now).1.Allowed? {
        var m := s.calls[es[0].call];
        ChargeAllGrows(s.(calls := s.calls - {es[0].call}), m.id, RulesFor(m, policies), es[0].now);
      }
      ChargesOnlyGrow(Step(s, policies, es[0]).0, policies, es[1..]);
    }
  }

  // Once admitted, a message is admitted again after any later history, even with its budgets used up, and
  // is not charged again.
  lemma AdmittedIsReplayed(s: State, policies: PolicySet, call: CallId, now: int, es: seq<Event>, again: CallId)
    requires Admit(s, call, policies, now).1.Allowed? && ValidRules(RulesFor(s.calls[call], policies))
    ensures var t := Run(Admit(s, call, policies, now).0, policies, es);
            Begin(t, again, s.calls[call], policies) == (t, ReplayAllowed)
  {
    var m, s1 := s.calls[call], Admit(s, call, policies, now).0;
    var t := Run(s1, policies, es);
    ChargeAllGrows(s.(calls := s.calls - {call}), m.id, RulesFor(m, policies), now);
    ChargesOnlyGrow(s1, policies, es);
    assert s1.charges[|s.charges|].msg == m.id && t.charges[|s.charges|] == s1.charges[|s.charges|];
  }

  predicate Live(bucket: Bucket, policy: Policy, at: int) { at < bucket.startedAt + policy.windowMs }

  // A refused admission names a bucket that is full in a live window, and charges nothing; waiting as long as
  // it says ends that window, and waiting less does not.
  lemma LimitedChargesNothing(s: State, policies: PolicySet, call: CallId, now: int)
    requires Admit(s, call, policies, now).1.Limited?
    ensures var (t, d) := Admit(s, call, policies, now);
            && t == s.(calls := s.calls - {call}) && d.retryAfterMs >= 1
            && exists rule :: rule in RulesFor(s.calls[call], policies) && rule.scope == d.scope && Exhausted(s.buckets, rule, now)
                 && forall at :: Live(s.buckets[rule], rule.policy, at) <==> at < now + d.retryAfterMs
  {
    FirstExhaustedNone(s.buckets, RulesFor(s.calls[call], policies), now);
  }

  // An admission is refused exactly when some bucket of the message is full in a live window.
  lemma LimitedIffFull(s: State, policies: PolicySet, call: CallId, now: int)
    requires call in s.calls
    ensures Admit(s, call, policies, now).1.Limited? <==>
              exists rule :: rule in RulesFor(s.calls[call], policies) && rule in s.buckets
                && s.buckets[rule].used >= rule.policy.maxEvents && Live(s.buckets[rule], rule.policy, now)
  {
    FirstExhaustedNone(s.buckets, RulesFor(s.calls[call], policies), now);
  }

  // ----- The burst formula -----

  function Room(buckets: map<Rule, Bucket>, rule: Rule, now: int): nat {
    if rule !in buckets || now - buckets[rule].startedAt >= rule.policy.windowMs then rule.policy.maxEvents
    else if buckets[rule].used >= rule.policy.maxEvents then 0
    else rule.policy.maxEvents - buckets[rule].used
  }

  function MinRoom(buckets: map<Rule, Bucket>, rules: seq<Rule>, now: int): nat
    requires rules != []
  {
    var first := Room(buckets, rules[0], now);
    if |rules| == 1 then first
    else
      var rest := MinRoom(buckets, rules[1..], now);
      if first < rest then first else rest
  }

  function WindowStart(buckets: map<Rule, Bucket>, rule: Rule, now: int): int {
    if rule !in buckets || now - buckets[rule].startedAt >= rule.policy.windowMs then now else buckets[rule].startedAt
  }

  // All messages of the burst arrive inside the window in which its first one falls.
  predicate OneWindow(buckets: map<Rule, Bucket>, rules: seq<Rule>, times: seq<int>) {
    forall r, i :: r in rules && 0 <= i < |times| ==>
      times[0] <= times[i] < WindowStart(buckets, r, times[0]) + r.policy.windowMs
  }

  function AdmitFresh(s: State, id: MsgId, rules: seq<Rule>, now: int): State {
    var charged := ChargeAll(s, id, rules, now);
    if FirstExhausted(s.buckets, rules, now).Some? || charged.None? then s else charged.value
  }

  // How many messages of a burst are blocked; messages carry distinct new ids.
  function Blocked(s: State, ids: seq<MsgId>, rules: seq<Rule>, times: seq<int>): nat
    requires |ids| == |times|
    decreases |ids|
  {
    if ids == [] then 0
    else
      (if FirstExhausted(s.buckets, rules, times[0]).Some? then 1 else 0)
      + Blocked(AdmitFresh(s, ids[0], rules, times[0]), ids[1..], rules, times[1..])
  }

  predicate Fresh(s: State, ids: seq<MsgId>) {
    && (forall i :: 0 <= i < |ids| ==> !ChargedAny(s.charges, ids[i]))
    && (forall i, j :: 0 <= i < j < |ids| ==> ids[i] != ids[j])
  }

  lemma {:induction false} ChargeAllBuckets(s: State, msg: MsgId, rules: seq<Rule>, now: int, rule: Rule)
    requires DistinctScopes(rules) && ChargeAll(s, msg, rules, now).Some?
    ensures var t := ChargeAll(s, msg, rules, now).value;
            if rule in rules then rule in t.buckets && t.buckets[rule] == Charged(s.buckets, rule, now)
            else (rule in t.buckets <==> rule in s.buckets) && (rule in s.buckets ==> t.buckets[rule] == s.buckets[rule])
    decreases |rules|
  {
    if rules != [] {
      ChargeAllBuckets(ChargeOne(s, msg, rules[0], now), msg, rules[1..], now, rule);
      assert rules == [rules[0]] + rules[1..];
      assert rules[0] !in rules[1..];
    }
  }

  lemma {:induction false} MinRoomIs(buckets: map<Rule, Bucket>, rules: seq<Rule>, now: int)
    requires rules != []
    ensures forall r :: r in rules ==> MinRoom(buckets, rules, now) <= Room(buckets, r, now)
    ensures exists r :: r in rules && MinRoom(buckets, rules, now) == Room(buckets, r, now)
  {
    assert rules == [rules[0]] + rules[1..];
    if |rules| > 1 {
      MinRoomIs(buckets, rules[1..], now);
    }
  }

  // After one admitted message every bucket of the burst has one place less.
  lemma AdmittedTakesOne(s: State, id: MsgId, rules: seq<Rule>, now: int, later: int)
    requires DistinctScopes(rules) && rules != [] && ValidRules(rules)
    requires FirstExhausted(s.buckets, rules, now).None? && ChargeAll(s, id, rules, now).Some?
    requires forall r :: r in rules ==> now <= later < WindowStart(s.buckets, r, now) + r.policy.windowMs
    ensures var t := ChargeAll(s, id, rules, now).value;
            && MinRoom(t.buckets, rules, later) == MinRoom(s.buckets, rules, now) - 1
            && forall r :: r in rules ==> WindowStart(t.buckets, r, later) == WindowStart(s.buckets, r, now)
  {
    var t := ChargeAll(s, id, rules, now).value;
    FirstExhaustedNone(s.buckets, rules, now);
    forall r | r in rules
      ensures Room(t.buckets, r, later) == Room(s.buckets, r, now) - 1
      ensures WindowStart(t.buckets, r, later) == WindowStart(s.buckets, r, now)
    {
      ChargeAllBuckets(s, id, rules, now, r);
      assert !Exhausted(s.buckets, r, now);
    }
    MinRoomIs(s.buckets, rules, now);
    MinRoomIs(t.buckets, rules, later);
  }

  lemma BlockedStaysBlocked(s: State, rules: seq<Rule>, now: int, later: int)
    requires rules != [] && FirstExhausted(s.buckets, rules, now).Some? && now <= later
    requires forall r :: r in rules ==> later < WindowStart(s.buckets, r, now) + r.policy.windowMs
    ensures MinRoom(s.buckets, rules, now) == 0 == MinRoom(s.buckets, rules, later)
    ensures FirstExhausted(s.buckets, rules, later).Some?
  {
    FirstExhaustedNone(s.buckets, rules, now);
    FirstExhaustedNone(s.buckets, rules, later);
    var full := FirstExhausted(s.buckets, rules, now).value;
    assert Exhausted(s.buckets, full, later);
    assert Room(s.buckets, full, now) == 0 && Room(s.buckets, full, later) == 0;
    MinRoomIs(s.buckets, rules, now);
    MinRoomIs(s.buckets, rules, later);
  }

  lemma {:induction false} AllBlocked(s: State, ids: seq<MsgId>, rules: seq<Rule>, times: seq<int>)
    requires |ids| == |times|
    requires forall i :: 0 <= i < |times| ==> FirstExhausted(s.buckets, rules, times[i]).Some?
    ensures Blocked(s, ids, rules, times) == |ids|
    decreases |ids|
  {
    if ids != [] {
      AllBlocked(s, ids[1..], rules, times[1..]);
    }
  }

  lemma FreshAfter(s: State, ids: seq<MsgId>, rules: seq<Rule>, now: int)
    requires ids != [] && Fresh(s, ids) && ChargeAll(s, ids[0], rules, now).Some?
    ensures Fresh(ChargeAll(s, ids[0], rules, now).value, ids[1..])
  {
    var t := ChargeAll(s, ids[0], rules, now).value;
    ChargeAllGrows(s, ids[0], rules, now);
    forall i | 0 <= i < |ids[1..]| ensures !ChargedAny(t.charges, ids[1..][i]) {
      var id := ids[1..][i];
      assert id == ids[i + 1] && !ChargedAny(s.charges, ids[i + 1]);
      forall k | 0 <= k < |t.charges| ensures t.charges[k].msg != id {
        if k < |s.charges| {
          assert s.charges[k] == t.charges[k];
        }
      }
    }
  }

  // A burst inside one window is blocked in exactly its excess over the smallest room left in any
  // of its buckets; with `used` of `max` taken in the tightest one that room is max - used.
  lemma {:induction false} BurstFormula(s: State, ids: seq<MsgId>, rules: seq<Rule>, times: seq<int>)
    requires |ids| == |times| && ids != [] && Fresh(s, ids)
    requires rules != [] && DistinctScopes(rules) && ValidRules(rules) && OneWindow(s.buckets, rules, times)
    requires forall i, j :: 0 <= i < j < |times| ==> times[i] <= times[j]
    ensures var room := MinRoom(s.buckets, rules, times[0]);
            Blocked(s, ids, rules, times) == if |ids| <= room then 0 else |ids| - room
    decreases |ids|
  {
    var now := times[0];
    if FirstExhausted(s.buckets, rules, now).Some? {
      forall i | 0 <= i < |times| ensures FirstExhausted(s.buckets, rules, times[i]).Some? {
        BlockedStaysBlocked(s, rules, now, times[i]);
      }
      BlockedStaysBlocked(s, rules, now, now);
      AllBlocked(s, ids, rules, times);
    } else {
      FreshIsUncharged(s, ids[0], rules);
      ChargeAllSucceeds(s, ids[0], rules, now);
      AdmittedTakesOne(s, ids[0], rules, now, now);
      if |ids| > 1 {
        AdmittedTakesOne(s, ids[0], rules, now, times[1]);
        FreshAfter(s, ids, rules, now);
        var t := ChargeAll(s, ids[0], rules, now).value;
        assert times[1..][0] == times[1];
        forall r, i | r in rules && 0 <= i < |times[1..]|
          ensures times[1..][0] <= times[1..][i] < WindowStart(t.buckets, r, times[1..][0]) + r.policy.windowMs
        {
          assert times[1..][i] == times[i + 1];
        }
        BurstFormula(t, ids[1..], rules, times[1..]);
      }
    }
  }

  lemma FreshIsUncharged(s: State, id: MsgId, rules: seq<Rule>)
    requires !ChargedAny(s.charges, id)
    ensures forall r :: r in rules ==> !ChargedFor(s.charges, id, r)
  {
  }

  function StoredUse(buckets: map<Rule, Bucket>, rule: Rule): nat {
    if rule in buckets then buckets[rule].used else 0
  }

  // The stress run predicts max(0, 25 - max(0, 20 - used)) blocked messages from the stored counter
  // alone. With enough room in the chat bucket this is right if and only if the stored window is
  // still live when the burst starts, or there is none.
  lemma SimulatorFormulaIff(s: State, player: nat, chat: nat, ids: seq<MsgId>, times: seq<int>)
    requires |ids| == |times| == 25 && Fresh(s, ids)
    requires forall i, j :: 0 <= i < j < |times| ==> times[i] <= times[j]
    requires var rules := RulesFor(Message(0, player, chat, None), DEFAULT_POLICIES);
             && OneWindow(s.buckets, rules, times)
             && BucketSound(s, rules[0])
             && Room(s.buckets, rules[1], times[0]) >= 20
    ensures var rules := RulesFor(Message(0, player, chat, None), DEFAULT_POLICIES);
            var used := StoredUse(s.buckets, rules[0]);
            Blocked(s, ids, rules, times) == 25 - (if used >= 20 then 0 else 20 - used)
            <==> rules[0] !in s.buckets || times[0] - s.buckets[rules[0]].startedAt < 10_000
  {
    var rules := RulesFor(Message(0, player, chat, None), DEFAULT_POLICIES);
    BurstFormula(s, ids, rules, times);
    assert rules[1..] == [rules[1]];
    assert MinRoom(s.buckets, rules, times[0]) == Room(s.buckets, rules[0], times[0]);
  }

  // ----- The repository's transaction -----

  class Limiter {
    var buckets: map<Rule, Bucket>
    var charges: seq<Charge>

    constructor ()
      ensures buckets == map[] && charges == []
    {
      buckets, charges := map[], [];
    }

    // Both passes over the rules: first the checks, then the charges; a conflict rolls back.
    method ConsumeRateLimits(msg: MsgId, rules: seq<Rule>, now: int) returns (decision: Decision)
      modifies this
      ensures (State(buckets, charges, map[]), decision) == Consume(State(old(buckets), old(charges), map[]), msg, rules, now)
    {
      var i := 0;
      while i < |rules|
        invariant 0 <= i <= |rules|
        invariant buckets == old(buckets) && charges == old(charges)
        invariant FirstExhausted(buckets, rules, now) == FirstExhausted(buckets, rules[i..], now)
      {
        assert rules[i..][1..] == rules[i + 1..];
        if rules[i] in buckets {
          var bucket := buckets[rules[i]];
          var elapsed := now - bucket.startedAt;
          if elapsed < rules[i].policy.windowMs && bucket.used >= rules[i].policy.maxEvents {
            return Limited(rules[i].scope, RetryAfter(bucket, rules[i].policy.windowMs, now));
          }
        }
        i := i + 1;
      }
      var startBuckets, startCharges := buckets, charges;
      i := 0;
      while i < |rules|
        invariant 0 <= i <= |rules|
        invariant ChargeAll(State(startBuckets, startCharges, map[]), msg, rules, now)
                  == ChargeAll(State(buckets, charges, map[]), msg, rules[i..], now)
        invariant startBuckets == old(buckets) && startCharges == old(charges)
      {
        assert rules[i..][1..] == rules[i + 1..];
        if ChargedFor(charges, msg, rules[i]) {
          buckets, charges := startBuckets, startCharges;
          return Conflict;
        }
        var bucket := Charged(buckets, rules[i], now);
        buckets := buckets[rules[i] := bucket];
        charges := charges + [Charge(msg, rules[i], bucket.startedAt)];
        i := i + 1;
      }
      decision := Allowed;
    }
  }
}
