/** The economy reference-model loop: a fixed cycle of adds, consumes, credits and debits whose
  * ledger-backed balances are compared with two plain variables, then replayed.
  */
module EconomyFuzz {
  import opened Wrappers
  import opened Economy

  const POTION := Item(1, 1)
  const COIN := Wallet(1, 1)

  const OPENING_INVENTORY := 10_000
  const OPENING_WALLET := 100_000

  // ----- The cycle -----

  function Amount(index: nat): nat { index % 5 + 1 }

  // Every operation has a key of its own; keys 0 and 1 belong to the opening mutations.
  function Operation(index: nat): Mutation {
    var account := if index % 4 < 2 then POTION else COIN;
    var amount: int := Amount(index);
    var delta := if index % 2 == 0 then amount else -amount;
    Mutation(account, delta, Gameplay(index + 2), index)
  }

  // The reference model: what the two variables have gained after n operations.
  function InventoryGain(n: nat): int {
    if n == 0 then 0 else InventoryGain(n - 1) + if Operation(n - 1).account == POTION then Operation(n - 1).delta else 0
  }

  function WalletGain(n: nat): int {
    if n == 0 then 0 else WalletGain(n - 1) + if Operation(n - 1).account == COIN then Operation(n - 1).delta else 0
  }

  const OPEN_INVENTORY := Mutation(POTION, OPENING_INVENTORY, Gameplay(0), 0)
  const OPEN_WALLET := Mutation(COIN, OPENING_WALLET, Gameplay(1), 0)

  // The book after the opening and n operations of the loop.
  function After(n: nat): Book {
    if n == 0 then Apply(Apply(Book(map[], []), OPEN_INVENTORY), OPEN_WALLET) else Apply(After(n - 1), Operation(n - 1))
  }

  // ----- Closed form of the reference model -----

  function Part(index: nat, account: Account): int {
    if Operation(index).account == account then Operation(index).delta else 0
  }

  // What each variable has gained at position r of the cycle of twenty operations.
  function InventoryAt(r: nat): int {
    if r < 1 then 0 else if r < 2 then 1 else if r < 5 then -1 else if r < 6 then 4 else
    if r < 9 then 3 else if r < 10 then 7 else if r < 13 then 2 else if r < 14 then 5 else
    if r < 17 then 1 else if r < 18 then 3
    else 0
  }

  function WalletAt(r: nat): int {
    if r < 3 then 0 else if r < 4 then 3 else if r < 7 then -1 else if r < 8 then 1 else
    if r < 11 then -2 else if r < 12 then -1 else if r < 15 then -3 else if r < 16 then 2 else
    if r < 19 then 1
    else 5
  }

  lemma InventoryStep(r: nat)
    requires r < 20
    ensures InventoryAt(if r == 19 then 0 else r + 1) == InventoryAt(r) + Part(r, POTION)
  {
    match r
    case 0 => case 1 => case 2 => case 3 => case 4 =>
    case 5 => case 6 => case 7 => case 8 => case 9 =>
    case 10 => case 11 => case 12 => case 13 => case 14 =>
    case 15 => case 16 => case 17 => case 18 => case 19 =>
  }

  lemma WalletStep(r: nat)
    requires r < 20
    ensures WalletAt(if r == 19 then 0 else r + 1) == WalletAt(r) + Part(r, COIN)
  {
    match r
    case 0 => case 1 => case 2 => case 3 => case 4 =>
    case 5 => case 6 => case 7 => case 8 => case 9 =>
    case 10 => case 11 => case 12 => case 13 => case 14 =>
    case 15 => case 16 => case 17 => case 18 => case 19 =>
  }

  lemma ByFour(q: nat, r: nat)
    ensures (20 * q + r) % 4 == r % 4
  {
    var e := 5 * q + r / 4 - (20 * q + r) / 4;
    assert 4 * e == (20 * q + r) % 4 - r % 4;
  }

  lemma ByFive(q: nat, r: nat)
    ensures (20 * q + r) % 5 == r % 5
  {
    var e := 4 * q + r / 5 - (20 * q + r) / 5;
    assert 5 * e == (20 * q + r) % 5 - r % 5;
  }

  lemma ByTwo(q: nat, r: nat)
    ensures (20 * q + r) % 2 == r % 2
  {
    var e := 10 * q + r / 2 - (20 * q + r) / 2;
    assert 2 * e == (20 * q + r) % 2 - r % 2;
  }

  // What operation `index` adds depends on its position in the cycle only.
  lemma PartFollowsCycle(index: nat)
    ensures Part(index, POTION) == Part(index % 20, POTION) && Part(index, COIN) == Part(index % 20, COIN)
  {
    ByFour(index / 20, index % 20);
    ByFive(index / 20, index % 20);
    ByTwo(index / 20, index % 20);
  }

  lemma NextPosition(index: nat)
    ensures (index + 1) % 20 == if index % 20 == 19 then 0 else index % 20 + 1
  {
  }

  lemma {:induction false} GainsFollowCycle(n: nat)
    ensures InventoryGain(n) == InventoryAt(n % 20)
    ensures WalletGain(n) == WalletAt(n % 20)
  {
    if n > 0 {
      GainsFollowCycle(n - 1);
      PartFollowsCycle(n - 1);
      NextPosition(n - 1);
      InventoryStep((n - 1) % 20);
      WalletStep((n - 1) % 20);
    }
  }

  // For every operation count the two variables stay in their bands and are back at their opening
  // values after every twentieth operation, so no consume or debit can ever be refused.
  lemma ReferenceBands(n: nat)
    ensures 9999 <= OPENING_INVENTORY + InventoryGain(n) <= 10007
    ensures 99997 <= OPENING_WALLET + WalletGain(n) <= 100005
    ensures n % 20 == 0 ==> InventoryGain(n) == 0 == WalletGain(n)
  {
    GainsFollowCycle(n);
  }

  // ----- The owner follows the reference model -----

  // The ledger holds the opening rows and one row per operation, in order.
  ghost predicate LedgerIs(rows: seq<Row>, n: nat) {
    && |rows| == n + 2
    && (forall k :: 0 <= k < n + 2 ==> rows[k].key == Gameplay(k))
    && (forall k :: 0 <= k < n ==> SameRequest(rows[k + 2], Operation(k)) && rows[k + 2].scope == ScopeOf(Operation(k).account, Operation(k).delta))
  }

  const INVENTORY_ROW := Row(InventoryAdd, Gameplay(0), POTION, OPENING_INVENTORY, 0, OPENING_INVENTORY)
  const WALLET_ROW := Row(WalletCredit, Gameplay(1), COIN, OPENING_WALLET, 0, OPENING_WALLET)

  lemma OpeningBook()
    ensures After(0) == Book(map[POTION := OPENING_INVENTORY, COIN := OPENING_WALLET], [INVENTORY_ROW, WALLET_ROW])
  {
    var first := Book(map[POTION := OPENING_INVENTORY], [INVENTORY_ROW]);
    assert Apply(Book(map[], []), OPEN_INVENTORY) == first;
    assert [INVENTORY_ROW][1..] == [] && Find([INVENTORY_ROW], WalletCredit, Gameplay(1)) == None;
    assert [INVENTORY_ROW] + [WALLET_ROW] == [INVENTORY_ROW, WALLET_ROW];
  }

  lemma OpeningIsBalanced()
    ensures LedgerIs(After(0).rows, 0) && Balanced(map[], After(0))
  {
    OpeningBook();
    assert Balanced(map[], Book(map[], []));
    MutateKeepsBalanced(map[], Book(map[], []), OPEN_INVENTORY);
    MutateKeepsBalanced(map[], Apply(Book(map[], []), OPEN_INVENTORY), OPEN_WALLET);
  }

  // The keys 0, 1, 2, ... in ledger order.
  ghost predicate KeysInOrder(rows: seq<Row>) {
    forall k :: 0 <= k < |rows| ==> rows[k].key == Gameplay(k)
  }

  lemma KeyIsFresh(b: Book, n: nat)
    requires |b.rows| == n + 2 && KeysInOrder(b.rows)
    ensures Find(b.rows, ScopeOf(Operation(n).account, Operation(n).delta), Gameplay(n + 2)).None?
  {
    FindExact(b.rows, ScopeOf(Operation(n).account, Operation(n).delta), Gameplay(n + 2));
  }

  // With both balances in their bands, the n-th operation of the loop is fresh and accepted.
  lemma OperationIsFresh(b: Book, n: nat)
    requires |b.rows| == n + 2 && KeysInOrder(b.rows)
    requires 9999 <= Balance(b.balances, POTION) <= 10007 && 99997 <= Balance(b.balances, COIN) <= 100005
    ensures 0 <= Balance(b.balances, Operation(n).account) + Operation(n).delta
    ensures var (t, reply) := Mutate(b, Operation(n));
            && reply == Ok(Balance(t.balances, Operation(n).account), false)
            && t.rows == b.rows + [NewRow(b, Operation(n))]
            && Balance(t.balances, POTION) == Balance(b.balances, POTION) + Part(n, POTION)
            && Balance(t.balances, COIN) == Balance(b.balances, COIN) + Part(n, COIN)
  {
    KeyIsFresh(b, n);
  }

  lemma LedgerGrows(b: Book, n: nat)
    requires LedgerIs(b.rows, n) && 0 <= Balance(b.balances, Operation(n).account) + Operation(n).delta
    ensures LedgerIs(b.rows + [NewRow(b, Operation(n))], n + 1)
  {
  }

  // Ledger and balances of a book agree with the reference model after n operations.
  ghost predicate InStep(b: Book, n: nat) {
    && LedgerIs(b.rows, n) && Balanced(map[], b)
    && Balance(b.balances, POTION) == OPENING_INVENTORY + InventoryGain(n)
    && Balance(b.balances, COIN) == OPENING_WALLET + WalletGain(n)
  }

  lemma OperationKeepsStep(b: Book, n: nat)
    requires InStep(b, n)
    ensures InStep(Apply(b, Operation(n)), n + 1)
  {
    ReferenceBands(n);
    OperationIsFresh(b, n);
    LedgerGrows(b, n);
    MutateKeepsBalanced(map[], b, Operation(n));
  }

  lemma {:induction false} BookFollowsModel(n: nat)
    ensures InStep(After(n), n)
  {
    if n == 0 {
      OpeningBook();
      OpeningIsBalanced();
    } else {
      BookFollowsModel(n - 1);
      OperationKeepsStep(After(n - 1), n - 1);
    }
  }

  // For every operation count: the balances equal the reference variables and the sums of the
  // ledger deltas, and repeating any operation replays it and changes nothing.
  lemma LoopMatchesModel(n: nat, k: nat)
    requires k < n
    ensures var b := After(n);
            && Balance(b.balances, POTION) == OPENING_INVENTORY + InventoryGain(n) == Sum(b.rows, POTION)
            && Balance(b.balances, COIN) == OPENING_WALLET + WalletGain(n) == Sum(b.rows, COIN)
            && |b.rows| == n + 2
            && Mutate(b, Operation(k)).0 == b && Mutate(b, Operation(k)).1.Ok? && Mutate(b, Operation(k)).1.replayed
  {
    BookFollowsModel(n);
    ReplayOne(After(n), n, k);
  }

  lemma ReplayOne(b: Book, n: nat, k: nat)
    requires LedgerIs(b.rows, n) && k < n
    ensures Mutate(b, Operation(k)) == (b, Ok(b.rows[k + 2].balanceAfter, true))
  {
    FindUnique(b.rows, k + 2);
  }

  // ----- The loop -----

  // How many ledger rows an account has.
  function RowCount(rows: seq<Row>, account: Account): nat {
    if rows == [] then 0 else RowCount(rows[..|rows| - 1], account) + if rows[|rows| - 1].account == account then 1 else 0
  }

  lemma ModelStep(index: nat)
    ensures InventoryGain(index + 1) == InventoryGain(index) + if index % 4 < 2 then Operation(index).delta else 0
    ensures WalletGain(index + 1) == WalletGain(index) + if index % 4 < 2 then 0 else Operation(index).delta
  {
  }

  lemma OpeningTally()
    ensures Tallied(0, OPENING_INVENTORY, OPENING_WALLET, 1, 1)
  {
    OpeningBook();
    assert [INVENTORY_ROW, WALLET_ROW][..1] == [INVENTORY_ROW] && [INVENTORY_ROW][..0] == [];
    assert RowCount([INVENTORY_ROW], POTION) == 1 && RowCount([INVENTORY_ROW], COIN) == 0;
  }

  lemma CountsGrow(index: nat)
    ensures RowCount(After(index + 1).rows, POTION) == RowCount(After(index).rows, POTION) + if index % 4 < 2 then 1 else 0
    ensures RowCount(After(index + 1).rows, COIN) == RowCount(After(index).rows, COIN) + if index % 4 < 2 then 0 else 1
  {
    BookFollowsModel(index);
    ReferenceBands(index);
    OperationIsFresh(After(index), index);
    var rows := After(index + 1).rows;
    assert rows[..|rows| - 1] == After(index).rows;
  }

  // The two variables and the two counters agree with the reference model and the ledger after n operations.
  ghost predicate Tallied(n: nat, inventory: int, wallet: int, inventoryMutations: nat, walletMutations: nat) {
    && inventory == OPENING_INVENTORY + InventoryGain(n) && wallet == OPENING_WALLET + WalletGain(n)
    && inventoryMutations == RowCount(After(n).rows, POTION) && walletMutations == RowCount(After(n).rows, COIN)
  }

  lemma TallyInventory(n: nat, inventory: int, wallet: int, inventoryMutations: nat, walletMutations: nat)
    requires Tallied(n, inventory, wallet, inventoryMutations, walletMutations) && n % 4 < 2
    ensures Tallied(n + 1, inventory + Operation(n).delta, wallet, inventoryMutations + 1, walletMutations)
  {
    ModelStep(n);
    CountsGrow(n);
  }

  lemma TallyWallet(n: nat, inventory: int, wallet: int, inventoryMutations: nat, walletMutations: nat)
    requires Tallied(n, inventory, wallet, inventoryMutations, walletMutations) && n % 4 >= 2
    ensures Tallied(n + 1, inventory, wallet + Operation(n).delta, inventoryMutations, walletMutations + 1)
  {
    ModelStep(n);
    CountsGrow(n);
  }

  // One operation against the owner.
  method RunOne(owner: EconomyOwner, index: nat) returns (gained: int)
    requires owner.Contents() == After(index)
    modifies owner
    ensures owner.Contents() == After(index + 1) && gained == Operation(index).delta
  {
    BookFollowsModel(index);
    ReferenceBands(index);
    OperationIsFresh(After(index), index);
    var reply := owner.MutateAccount(map[], Operation(index));
    assert reply.Ok? && !reply.replayed;
    gained := Operation(index).delta;
  }

  // The first round of every tenth is kept for replay; every kept index has already run.
  function Keep(replays: seq<nat>, index: nat): (kept: seq<nat>)
    requires forall i :: 0 <= i < |replays| ==> replays[i] < index
    ensures forall i :: 0 <= i < |kept| ==> kept[i] < index + 1
    ensures index % 40 < 4 ==> index in kept
    ensures replays <= kept
  {
    if index % 40 < 4 then replays + [index] else replays
  }

  // The loop: runs the cycle against the owner next to the two variables and the two counters, and
  // collects the first round of every tenth for replay.
  method RunOperations(owner: EconomyOwner, operations: nat)
    returns (inventory: int, wallet: int, inventoryMutations: nat, walletMutations: nat, replays: seq<nat>)
    requires owner.Contents() == After(0)
    modifies owner
    ensures owner.Contents() == After(operations)
    ensures Tallied(operations, inventory, wallet, inventoryMutations, walletMutations)
    ensures forall i :: 0 <= i < |replays| ==> replays[i] < operations
  {
    OpeningTally();
    inventory, wallet, inventoryMutations, walletMutations := OPENING_INVENTORY, OPENING_WALLET, 1, 1;
    replays := [];
    for index := 0 to operations
      invariant owner.Contents() == After(index)
      invariant Tallied(index, inventory, wallet, inventoryMutations, walletMutations)
      invariant forall i :: 0 <= i < |replays| ==> replays[i] < index
    {
      var gained := RunOne(owner, index);
      if index % 4 < 2 {
        TallyInventory(index, inventory, wallet, inventoryMutations, walletMutations);
        inventory, inventoryMutations := inventory + gained, inventoryMutations + 1;
      } else {
        TallyWallet(index, inventory, wallet, inventoryMutations, walletMutations);
        wallet, walletMutations := wallet + gained, walletMutations + 1;
      }
      replays := Keep(replays, index);
    }
  }

  // Replays what the loop collected; every reply is a replay and nothing moves.
  method ReplayAll(owner: EconomyOwner, operations: nat, replays: seq<nat>)
    requires owner.Contents() == After(operations) && forall i :: 0 <= i < |replays| ==> replays[i] < operations
    modifies owner
    ensures owner.Contents() == After(operations)
  {
    BookFollowsModel(operations);
    var i := 0;
    while i < |replays|
      invariant 0 <= i <= |replays| && owner.Contents() == After(operations)
    {
      ReplayOne(After(operations), operations, replays[i]);
      var reply := owner.MutateAccount(map[], Operation(replays[i]));
      assert reply.Ok? && reply.replayed;
      i := i + 1;
    }
  }

  method Open() returns (owner: EconomyOwner)
    ensures fresh(owner) && owner.Contents() == After(0)
  {
    owner := new EconomyOwner(map[]);
    var reply := owner.MutateAccount(map[], OPEN_INVENTORY);
    reply := owner.MutateAccount(map[], OPEN_WALLET);
  }

  // The whole driver: open, run, replay. The variables still agree with the ledger afterwards, the
  // counters are its row counts, and both balances have stayed in their bands.
  method RunFuzz(operations: nat)
    returns (owner: EconomyOwner, inventory: int, wallet: int, inventoryMutations: nat, walletMutations: nat)
    ensures fresh(owner) && owner.Contents() == After(operations)
    ensures inventory == Balance(owner.balances, POTION) && 9999 <= inventory <= 10007
    ensures wallet == Balance(owner.balances, COIN) && 99997 <= wallet <= 100005
    ensures inventoryMutations == RowCount(owner.rows, POTION) && walletMutations == RowCount(owner.rows, COIN)
  {
    owner := Open();
    var replays;
    inventory, wallet, inventoryMutations, walletMutations, replays := RunOperations(owner, operations);
    ReplayAll(owner, operations, replays);
    ReferenceBands(operations);
    BookFollowsModel(operations);
  }
}
