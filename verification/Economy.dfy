/** The ledger-backed economy owner: balances, the append-only ledger and the keyed mutation that
  * every other protocol (admin operations, message handlers, capture, the fuzz loop) relies on.
  */
module Economy {
  import opened Wrappers

  // PostgreSQL BIGINT is the width of a stored balance.
  const BIGINT_MAX: nat := 0x7FFF_FFFF_FFFF_FFFF

  datatype Account = Item(player: nat, item: nat) | Wallet(player: nat, currency: nat)

  // Each kind of mutation has its own idempotency scope.
  datatype Scope = InventoryAdd | InventoryConsume | WalletCredit | WalletDebit

  // The caller that owns the idempotency key: key texts of different callers never coincide.
  datatype Key = AdminOperation(id: nat) | Message(id: nat) | Gameplay(id: nat)

  // audit stands for the ledger metadata that a replay must repeat exactly.
  datatype Mutation = Mutation(account: Account, delta: int, key: Key, audit: nat)

  datatype Row = Row(scope: Scope, key: Key, account: Account, delta: int, audit: nat, balanceAfter: nat)

  datatype Book = Book(balances: map<Account, nat>, rows: seq<Row>)

  datatype Reply = Ok(balance: nat, replayed: bool) | Rejected(error: EconomyError)
  datatype EconomyError = ValidationFailed | FingerprintMismatch | BalanceOverflow | InsufficientBalance

  function ScopeOf(account: Account, delta: int): Scope {
    match account
    case Item(_, _) => if delta > 0 then InventoryAdd else InventoryConsume
    case Wallet(_, _) => if delta > 0 then WalletCredit else WalletDebit
  }

  function Balance(balances: map<Account, nat>, account: Account): nat {
    if account in balances then balances[account] else 0
  }

  function Find(rows: seq<Row>, scope: Scope, key: Key): Option<Row> {
    if rows == [] then None
    else if rows[0].scope == scope && rows[0].key == key then Some(rows[0])
    else Find(rows[1..], scope, key)
  }

  predicate SameRequest(row: Row, m: Mutation) {
    row.account == m.account && row.delta == m.delta && row.audit == m.audit
  }

  function NewRow(b: Book, m: Mutation): Row
    requires 0 <= Balance(b.balances, m.account) + m.delta
  {
    Row(ScopeOf(m.account, m.delta), m.key, m.account, m.delta, m.audit,
        Balance(b.balances, m.account) + m.delta)
  }

  // One transaction: replay lookup, ledger claim, guarded balance update, or nothing at all.
  function Mutate(b: Book, m: Mutation): (Book, Reply) {
    var found := Find(b.rows, ScopeOf(m.account, m.delta), m.key);
    var after := Balance(b.balances, m.account) + m.delta;
    if m.delta == 0 || m.delta > BIGINT_MAX || -m.delta > BIGINT_MAX then (b, Rejected(ValidationFailed))
    else if found.Some? then
      (b, if SameRequest(found.value, m) then Ok(found.value.balanceAfter, true) else Rejected(FingerprintMismatch))
    else if after > BIGINT_MAX then (b, Rejected(BalanceOverflow))
    else if after < 0 then (b, Rejected(InsufficientBalance))
    else (Book(b.balances[m.account := after], b.rows + [NewRow(b, m)]), Ok(after, false))
  }

  // The owner's guard for a mutation whose key it has not seen.
  predicate Fits(b: Book, m: Mutation) {
    m.delta != 0 && m.delta <= BIGINT_MAX && -m.delta <= BIGINT_MAX && 0 <= Balance(b.balances, m.account) + m.delta <= BIGINT_MAX
  }

  function Apply(b: Book, m: Mutation): Book {
    Mutate(b, m).0
  }

  function ApplyAll(b: Book, ms: seq<Mutation>): Book
    decreases |ms|
  {
    if ms == [] then b else ApplyAll(Apply(b, ms[0]), ms[1..])
  }

  // ----- What the ledger says about the balances -----

  function Sum(rows: seq<Row>, account: Account): int {
    if rows == [] then 0
    else Sum(rows[..|rows| - 1], account) + if rows[|rows| - 1].account == account then rows[|rows| - 1].delta else 0
  }

  ghost predicate Unique(rows: seq<Row>) {
    forall i, j :: 0 <= i < j < |rows| ==> !(rows[i].scope == rows[j].scope && rows[i].key == rows[j].key)
  }

  // Row i recorded the balance that existed right after it was written.
  ghost predicate RowAt(opening: map<Account, nat>, rows: seq<Row>, i: nat)
    requires i < |rows|
  {
    && rows[i].balanceAfter == Balance(opening, rows[i].account) + Sum(rows[..i + 1], rows[i].account)
    && rows[i].scope == ScopeOf(rows[i].account, rows[i].delta)
    && rows[i].delta != 0 && rows[i].delta <= BIGINT_MAX && -rows[i].delta <= BIGINT_MAX
  }

  ghost predicate Balanced(opening: map<Account, nat>, b: Book) {
    && Unique(b.rows)
    && (forall a: Account :: Balance(b.balances, a) == Balance(opening, a) + Sum(b.rows, a))
    && (forall a: Account :: Balance(b.balances, a) <= BIGINT_MAX)
    && (forall i :: 0 <= i < |b.rows| ==> RowAt(opening, b.rows, i))
  }

  lemma SumAppend(rows: seq<Row>, row: Row, a: Account)
    ensures Sum(rows + [row], a) == Sum(rows, a) + if row.account == a then row.delta else 0
  {
    assert (rows + [row])[..|rows|] == rows;
  }

  lemma {:induction false} FindAppend(rows: seq<Row>, row: Row, scope: Scope, key: Key)
    ensures Find(rows + [row], scope, key) ==
            if Find(rows, scope, key).Some? then Find(rows, scope, key)
            else if row.scope == scope && row.key == key then Some(row) else None
  {
    if rows == [] {
      assert (rows + [row])[1..] == [];
    } else {
      assert (rows + [row])[1..] == rows[1..] + [row];
      FindAppend(rows[1..], row, scope, key);
    }
  }

  lemma {:induction false} FindExact(rows: seq<Row>, scope: Scope, key: Key)
    ensures Find(rows, scope, key).Some? <==> exists i :: 0 <= i < |rows| && rows[i].scope == scope && rows[i].key == key
    ensures Find(rows, scope, key).Some? ==>
              && Find(rows, scope, key).value in rows
              && Find(rows, scope, key).value.scope == scope
              && Find(rows, scope, key).value.key == key
  {
    if rows != [] {
      FindExact(rows[1..], scope, key);
      if rows[0].scope == scope && rows[0].key == key {
      } else if Find(rows[1..], scope, key).Some? {
        var i :| 0 <= i < |rows[1..]| && rows[1..][i].scope == scope && rows[1..][i].key == key;
        assert rows[i + 1].scope == scope;
      } else {
        forall i | 0 <= i < |rows| ensures !(rows[i].scope == scope && rows[i].key == key) {
          if i > 0 { assert rows[1..][i - 1] == rows[i]; }
        }
      }
    }
  }

  // In a ledger without duplicate keys the lookup returns the row that is there.
  lemma FindUnique(rows: seq<Row>, i: nat)
    requires Unique(rows) && i < |rows|
    ensures Find(rows, rows[i].scope, rows[i].key) == Some(rows[i])
  {
    FindExact(rows, rows[i].scope, rows[i].key);
  }

  // An unseen key is committed exactly when the guard lets it through; a refusal changes nothing.
  lemma FreshCommits(b: Book, m: Mutation)
    requires forall i :: 0 <= i < |b.rows| ==> b.rows[i].key != m.key
    ensures var (t, reply) := Mutate(b, m);
            && (reply.Ok? <==> Fits(b, m))
            && (Fits(b, m) ==> t.rows == b.rows + [NewRow(b, m)] && !reply.replayed)
            && (!Fits(b, m) ==> t == b)
  {
    FindExact(b.rows, ScopeOf(m.account, m.delta), m.key);
  }

  // ----- What an answer means -----

  // A key is used once per kind of account and direction: credits and debits, items and currencies each have
  // their own keys.
  predicate SameUse(row: Row, m: Mutation) {
    row.key == m.key && (row.account.Item? <==> m.account.Item?) && (row.delta > 0 <==> m.delta > 0)
  }

  ghost predicate Used(rows: seq<Row>, m: Mutation) {
    exists i :: 0 <= i < |rows| && SameUse(rows[i], m)
  }

  predicate InRange(delta: int) { delta != 0 && delta <= BIGINT_MAX && -delta <= BIGINT_MAX }

  lemma UsedIsFound(opening: map<Account, nat>, b: Book, m: Mutation)
    requires Balanced(opening, b)
    ensures var found := Find(b.rows, ScopeOf(m.account, m.delta), m.key);
            && (found.Some? <==> Used(b.rows, m))
            && (found.Some? ==> found.value in b.rows && SameUse(found.value, m))
  {
    FindExact(b.rows, ScopeOf(m.account, m.delta), m.key);
    forall i | 0 <= i < |b.rows|
      ensures SameUse(b.rows[i], m) <==> b.rows[i].scope == ScopeOf(m.account, m.delta) && b.rows[i].key == m.key
    {
      assert RowAt(opening, b.rows, i);
    }
  }

  // Which answer a mutation gets, told from the ledger and the balances before it: a used key is answered
  // from its row, a repetition with the row's balance and anything else with a mismatch; a new one is refused
  // exactly when its delta is out of range or the new balance would be.
  lemma AnswerIs(opening: map<Account, nat>, b: Book, m: Mutation)
    requires Balanced(opening, b)
    ensures var reply := Mutate(b, m).1;
            var balance := Balance(b.balances, m.account);
            var unseen := InRange(m.delta) && !Used(b.rows, m);
            && (reply == Rejected(ValidationFailed) <==> !InRange(m.delta))
            && (reply == Rejected(InsufficientBalance) <==> unseen && balance + m.delta < 0)
            && (reply == Rejected(BalanceOverflow) <==> unseen && balance + m.delta > BIGINT_MAX)
            && (reply.Ok? && !reply.replayed <==> unseen && 0 <= balance + m.delta <= BIGINT_MAX)
            && (reply.Ok? && reply.replayed <==>
                  InRange(m.delta) && exists i :: 0 <= i < |b.rows| && SameUse(b.rows[i], m) && SameRequest(b.rows[i], m))
            && (reply == Rejected(FingerprintMismatch) <==>
                  InRange(m.delta) && exists i :: 0 <= i < |b.rows| && SameUse(b.rows[i], m) && !SameRequest(b.rows[i], m))
  {
    UsedIsFound(opening, b, m);
    forall i | 0 <= i < |b.rows| && SameUse(b.rows[i], m)
      ensures Find(b.rows, ScopeOf(m.account, m.delta), m.key) == Some(b.rows[i])
    {
      assert RowAt(opening, b.rows, i);
      FindUnique(b.rows, i);
    }
  }

  // Every accepted or refused mutation keeps the ledger and the balances in agreement.
  lemma MutateKeepsBalanced(opening: map<Account, nat>, b: Book, m: Mutation)
    requires Balanced(opening, b)
    ensures Balanced(opening, Apply(b, m))
  {
    var t := Apply(b, m);
    if t != b {
      var row := NewRow(b, m);
      FindExact(b.rows, row.scope, row.key);
      forall a: Account
        ensures Balance(t.balances, a) == Balance(opening, a) + Sum(t.rows, a)
      {
        SumAppend(b.rows, row, a);
      }
      forall i | 0 <= i < |t.rows| ensures RowAt(opening, t.rows, i) {
        if i < |b.rows| {
          assert RowAt(opening, b.rows, i);
          assert t.rows[..i + 1] == b.rows[..i + 1];
        } else {
          assert t.rows[..i + 1] == t.rows;
          SumAppend(b.rows, row, row.account);
        }
      }
    }
  }

  lemma {:induction false} RunKeepsBalanced(opening: map<Account, nat>, b: Book, ms: seq<Mutation>)
    requires Balanced(opening, b)
    ensures Balanced(opening, ApplyAll(b, ms))
    decreases |ms|
  {
    if ms != [] {
      MutateKeepsBalanced(opening, b, ms[0]);
      RunKeepsBalanced(opening, Apply(b, ms[0]), ms[1..]);
    }
  }

  lemma {:induction false} ApplyAllAppend(b: Book, ms: seq<Mutation>, m: Mutation)
    ensures ApplyAll(b, ms + [m]) == Apply(ApplyAll(b, ms), m)
    decreases |ms|
  {
    if ms == [] {
      assert (ms + [m])[1..] == [];
    } else {
      assert (ms + [m])[1..] == ms[1..] + [m];
      ApplyAllAppend(Apply(b, ms[0]), ms[1..], m);
    }
  }

  // The ledger is append-only along every run.
  lemma {:induction false} LedgerOnlyGrows(b: Book, ms: seq<Mutation>)
    ensures b.rows <= ApplyAll(b, ms).rows
    decreases |ms|
  {
    if ms != [] {
      LedgerOnlyGrows(Apply(b, ms[0]), ms[1..]);
    }
  }

  lemma {:induction false} FindPrefix(rows: seq<Row>, longer: seq<Row>, scope: Scope, key: Key)
    requires rows <= longer
    requires Find(rows, scope, key).Some?
    ensures Find(longer, scope, key) == Find(rows, scope, key)
  {
    if !(rows[0].scope == scope && rows[0].key == key) {
      FindPrefix(rows[1..], longer[1..], scope, key);
    }
  }

  // Exactly-once: whatever happens in between, repeating an accepted mutation changes nothing and
  // returns the balance of the original commit, not the current one.
  lemma ReplayReturnsOriginal(b: Book, m: Mutation, between: seq<Mutation>)
    requires Mutate(b, m).1.Ok?
    ensures var later := ApplyAll(Apply(b, m), between);
            Mutate(later, m) == (later, Ok(Mutate(b, m).1.balance, true))
  {
    var first := Apply(b, m);
    var scope := ScopeOf(m.account, m.delta);
    if first != b {
      FindAppend(b.rows, NewRow(b, m), scope, m.key);
    }
    LedgerOnlyGrows(first, between);
    FindPrefix(first.rows, ApplyAll(first, between).rows, scope, m.key);
  }

  // The owner's tables, updated in place by one guarded transaction per call.
  class EconomyOwner {
    var balances: map<Account, nat>
    var rows: seq<Row>

    ghost function Contents(): Book
      reads this
    {
      Book(balances, rows)
    }

    constructor (opening: map<Account, nat>)
      requires forall a :: a in opening ==> opening[a] <= BIGINT_MAX
      ensures Contents() == Book(opening, []) && Balanced(opening, Contents())
    {
      balances := opening;
      rows := [];
    }

    method MutateAccount(ghost opening: map<Account, nat>, m: Mutation) returns (reply: Reply)
      requires Balanced(opening, Contents())
      modifies this
      ensures (Contents(), reply) == Mutate(old(Contents()), m)
      ensures Balanced(opening, Contents())
      ensures reply.Rejected? || reply.replayed ==> Contents() == old(Contents())
      ensures reply == Rejected(InsufficientBalance) <==>
                InRange(m.delta) && !Used(old(rows), m) && Balance(old(balances), m.account) + m.delta < 0
      ensures reply == Rejected(BalanceOverflow) <==>
                InRange(m.delta) && !Used(old(rows), m) && Balance(old(balances), m.account) + m.delta > BIGINT_MAX
      ensures reply.Ok? && !reply.replayed ==>
                var after := Balance(old(balances), m.account) + m.delta;
                && InRange(m.delta) && !Used(old(rows), m) && 0 <= after <= BIGINT_MAX && reply.balance == after
                && balances == old(balances)[m.account := after]
                && |rows| == |old(rows)| + 1 && rows[..|old(rows)|] == old(rows)
                && SameUse(rows[|old(rows)|], m) && SameRequest(rows[|old(rows)|], m) && rows[|old(rows)|].balanceAfter == after
    {
      AnswerIs(opening, Contents(), m);
      MutateKeepsBalanced(opening, Contents(), m);
      var amount := if m.delta < 0 then -m.delta else m.delta;
      if amount < 1 || amount > BIGINT_MAX {
        return Rejected(ValidationFailed);
      }
      var existing := Find(rows, ScopeOf(m.account, m.delta), m.key);
      if existing.Some? {
        if SameRequest(existing.value, m) {
          return Ok(existing.value.balanceAfter, true);
        }
        return Rejected(FingerprintMismatch);
      }
      var current := Balance(balances, m.account);
      if m.delta > 0 {
        if !(current <= BIGINT_MAX - amount) {
          return Rejected(BalanceOverflow);
        }
      } else if !(current >= amount) {
        return Rejected(InsufficientBalance);
      }
      var row := Row(ScopeOf(m.account, m.delta), m.key, m.account, m.delta, m.audit, current + m.delta);
      rows := rows + [row];
      balances := balances[m.account := current + m.delta];
      reply := Ok(current + m.delta, false);
    }
  }
}
