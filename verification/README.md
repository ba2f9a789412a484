# Ledger protocols

A Dafny model of the crash-tolerant core of a chat-driven game backend: the places where the same
request may arrive twice, a process may die between two transactions, two workers may race, or a seed
may be killed half way, and where the stored rows must nevertheless tell one consistent story.

Each component is one or more modules.

| component | modules |
|---|---|
| keyed owner ledger of inventories and wallets | `Economy` |
| admin operations: gates, owner commit, evidence, compensation, recovery | `AdminProtocol`, `AdminSafety`, `AdminGates`, `AdminLedger`, `AdminCompensation`, `AdminRecovery`, `AdminDesk` |
| batches of admin operations over frozen targets | `Batch`, `BatchSafety`, `BatchExecution` |
| incoming messages and their handlers | `Inbox`, `InboxSafety`, `InboxExact`, `InboxRuns`, `InboxTables` |
| outgoing messages, worker and drain loop | `Outbox`, `OutboxSafety`, `OutboxExact`, `OutboxWorker`, `OutboxRuns` |
| message rate limits and mutation admission | `RateLimits`, `MutationAdmission` |
| Pokemon experience, trainer level and unlocks, moves, battle rewards | `Progression`, `Trainer`, `MoveLearning`, `BattleReward` |
| capture and roster placement | `Capture`, `Roster` |
| transaction retry, write skew, deadlock | `SafeRetry`, `OnCall`, `Deadlock` |
| resumable seeds | `SeedResume` |
| keyset pagination of the player search | `Pagination` |
| catalog drafts and their revisions | `Drafts` |
| the economy reference-model loop | `EconomyFuzz` |

**Form.** A table set is a value of type `State`; a transaction is a function from state to state and
outcome; a run is a sequence of events, and every event (a call, a crash, an unrelated mutation, the
clock moving on) may come at any time, so a lemma about `Run` quantifies over every interleaving of any
number of processes. Beside these functions stand the classes that change the tables in place
(`EconomyOwner`, `Desk`, `InboxStore`, `Worker`, `Limiter`, `AdmissionStore`, `TrainerRow`, `MoveSlots`,
`BatchStore`, `CaptureTables`, `Barrier`, `Seeder`, `DraftStore`): each method performs
exactly one step, keeps what every run keeps, and gives its caller what the step is for; the loops of the
source are loops here.

**What turned out false.** Where the code does not keep what its drivers suggest, the code is modelled
as it is, a concrete run shows the failure, and an if-and-only-if lemma says exactly when the property
holds.

- Two compensation operations of one source can both commit to the owner before either completes; the
  delta is then taken back twice (`DoubleReversal`, exact condition `ReversalsCancelIffClean`).
- A compensation that crashed after its owner commit is refused for ever once another compensation of
  its source has completed, with its inverse in the ledger (`SecondCompensationStuck`, exact condition
  `CrashWindowRecovers`).
- A handler without an idempotency key repeats its effect after a crash or an expired lease
  (`UnkeyedEffectDoubles`, `UnkeyedOnceIff`, `UndisturbedEffectOnce`), and a keyed one can be answered by
  an error although its effect happened (`ErrorReplyBesideEffect`, `ErrorBesideEffectIff`).
- An outbox row may be held by two workers (`OneHolderIffReleased`), delivered twice
  (`TwoHoldersDeliverTwice`, `AcceptedOnceIff`), or DEAD after having been delivered
  (`DeliveredThenDead`, `DeadMeansUndeliveredIff`).
- A battle reward does not reactivate a revoked trainer unlock (`RewardLeavesRevoked`,
  `RewardSyncsIff`, `InSyncIffRewardsFollow`), while an adjustment does.
- Experience stored on a Pokemon that is already at the level cap vanishes (`ConservedIff`).
- The same move can be taught twice through two choices (`TwoLevelsTeachTwice`,
  `DistinctIffNeverRepeated`); a release rules it out exactly when it offers every move at one level only
  (`SafeIffOneLevelEach`).
- With two runners on one batch a target can be recorded as failed although its mutation is in the
  ledger (`FailedButApplied`, `ContradictoryIffOverruled`).
- The pagination cursor keeps milliseconds, the rows keep microseconds, so a player can be skipped at a
  page boundary (`SameMillisecondIsSkipped`, `WalkCompleteIff`, `TablesShowIff`).
- The stress run's formula for blocked messages is right only while the stored window is live
  (`SimulatorFormulaIff`).
- A Phase 11 seed killed between cloning and rebinding can never be resumed (`StrandedForEver`,
  `Phase11RerunConvergesIff`).

**Where code and drivers disagree on a name.** A repeated draft key with a changed payload is an
idempotency conflict of the owner; the fingerprint mismatch named by the driver belongs to the layer
above. The model follows the owner.

**Assumptions.** Fingerprints and storage hashes are injective. A transaction is one atomic step. For
the write-skew runs, commit-time validation aborts a transaction whose read was overtaken by a commit;
for the deadlock runs, a lock is handed to its one waiter when the holder ends, and the database aborts
one of two mutually waiting transactions, either one. A message's rate buckets are the same at each of its
admissions, so its player is resolved to the same identity. A message that has been admitted once is never
limited again, because its charges are durable.

## Model

| member | source | states |
|---|---|---|
| Economy.MutateKeepsBalanced | src/modules/economy/service.ts:529-765 | any accepted, replayed or refused mutation keeps every balance equal to its opening value plus the sum of its ledger deltas, inside the bigint range, with each ledger row recording the balances before and after it and each scope and key used once |
| Economy.RunKeepsBalanced | src/modules/economy/service.ts:529-765 | the same over every sequence of mutations |
| Economy.ReplayReturnsOriginal | src/modules/economy/service.ts:529-765 | an accepted mutation, repeated after any other mutations, changes nothing and returns the balance of its original commit |
| Economy.AnswerIs | src/modules/economy/service.ts:529-765 | in any balanced book, which answer a mutation gets: a used key (per kind of account and direction) is answered from its row, a repetition with the row's balance and anything else as a mismatch; an unseen one is an insufficient balance exactly when a debit exceeds the balance, an overflow exactly when a credit passes the bound, and committed otherwise |
| Economy.EconomyOwner.MutateAccount | src/platform/economy/postgres-economy-repository.ts:274-344 | the in-place claim, guarded update and finalisation perform exactly one ledger mutation: an accepted one moves exactly its delta with one row, a debit above the balance and a credit past the bound are refused as such, and balance and ledger stay in agreement; refusal and replay leave everything alone |
| AdminDesk.Desk.PrepareMutation | src/platform/admin/postgres-admin-repository.ts:143-197 | a request is accepted exactly when it is authorized, has its reason and a new key; one that is not refused has one operation under its key, with the registry entry of its own kind and standing at its first open gate, and repeating it replays; the tables stay in a state some run of the protocol reaches |
| AdminDesk.Desk.SimulateOperation | src/modules/admin/service.ts:233-261 | only the proposer of an undrifted operation simulates; afterwards the operation stands at its next open gate and a second simulation is refused; the tables stay reachable |
| AdminDesk.Desk.ConfirmOperation | src/platform/admin/postgres-admin-repository.ts:235-282 | a confirmation that is not refused is the proposer's own, comes after simulation, stands with the operation's fingerprint, replays when repeated, and leaves the operation READY exactly when no approval is missing; the tables stay reachable |
| AdminDesk.Desk.ApproveOperation | src/platform/admin/postgres-admin-repository.ts:284-344 | nobody approves their own operation or one not yet simulated and confirmed; afterwards the operation is READY exactly when enough others have approved; a repeated approval replays and counts once; the tables stay reachable |
| AdminDesk.Desk.BeginApply | src/modules/admin/service.ts:314-328 | an apply call is let in only on a READY, undrifted operation that has passed every gate of its snapshot, a compensation only on its own player's settled source |
| AdminDesk.Desk.CommitOwner | src/modules/admin/domain-service.ts:129-194 | after the owner's transaction the operation has exactly one ledger row, and the call holds the balances around that row, however often it is asked; a refusal or replay leaves the ledger alone |
| AdminDesk.Desk.CompleteAppliedOperation | src/platform/admin/postgres-admin-operation-completion.ts:19-118 | a completion that is not refused leaves its operation settled with exactly one row, one change and one audit |
| AdminDesk.Desk.CompleteCompensatingOperation | src/platform/admin/postgres-admin-compensation-completion.ts:26-212 | a completion that is not refused leaves the compensation settled once, its source COMPENSATED and exactly one relation between them |
| AdminDesk.Desk.ApplyOperation | src/modules/admin/service.ts:314-328 | a whole apply call that is not refused leaves the operation settled with exactly one row, one change and one audit, a compensation with its one relation |
| AdminSafety.RunEvolves | src/platform/admin/postgres-admin-repository.ts:143-344 | over every run operations are never removed, their content never changes, a settled status never reopens, and signatures, ledger rows and evidence only grow |
| AdminSafety.RunKeepsInv | db/proofs/phase12_domain_admin_e2e.ts:261-350 | the protocol invariant (sound gates, evidence, relations, ledger and calls in flight) survives every run of calls, crashes and unrelated mutations |
| AdminSafety.EachOperationOnce | db/proofs/phase12_admin_audit_reconstruction_e2e.ts:188-268 | in every reachable state an operation has at most one ledger row, and as many changes as audits: one each once it is applied or compensated, none before; and the row is the original commit |
| AdminSafety.EvidenceIsOriginal | db/proofs/phase12_domain_admin_e2e.ts:296-350 | evidence written any time after the owner commit shows the balances at that commit, whatever moved the balance since |
| AdminSafety.AppliedPassedEveryGate | db/proofs/phase12_admin_registry_e2e.ts:223-401 | an applied operation was simulated, confirmed by its proposer with its own fingerprint, and approved by the required number of other principals, as its own policy snapshot asks |
| AdminSafety.GatesPassedInOrder | db/proofs/phase12_admin_registry_e2e.ts:223-401 | no confirmation exists before the simulation and no approval before simulation and confirmation; only the proposer confirms and never approves |
| AdminGates.ReadyIffGatesPassed | src/modules/admin/service.ts:32-43 | in every reachable state an unsettled operation waits exactly at the first gate its own snapshot asks for and it has not passed, told from the operation and the signatures alone; it is READY if and only if none is left |
| AdminGates.GatesLeadToReady | src/modules/admin/service.ts:233-312 | from any reachable state an undrifted operation is READY once its proposer has simulated and confirmed it and enough others have approved it, and no call or balance is touched |
| AdminGates.DriftIsChangedEntry | src/modules/admin/service.ts:59-89 | an operation has drifted if and only if the registry's entry for its kind is no longer the one it was prepared under |
| AdminGates.ConfirmAnswers | src/platform/admin/postgres-admin-repository.ts:235-282 | in every reachable state which answer a confirmation gets, by proposer, drift, authorization, standing signature and status; a standing signature always replays |
| AdminGates.ApproveAnswers | src/platform/admin/postgres-admin-repository.ts:284-344 | in every reachable state which answer an approval gets, by proposer, drift, authorization, reason, standing signature and status |
| AdminCompensation.CompensatedIffOneRelation | db/proofs/phase12_admin_compensation_e2e.ts:192-273 | a source is COMPENSATED exactly when one relation points to it; that relation's compensation is applied, undoes this source, and is itself never compensated |
| AdminCompensation.CancelsIffOneInverse | src/modules/admin/compensation-service.ts:78-306 | a reversed source's net ledger effect is its delta times one minus the number of inverses committed, so it is zero exactly when one was |
| AdminCompensation.CompensatedHasInverse | src/platform/admin/postgres-admin-compensation-completion.ts:26-212 | COMPENSATED is never recorded without an inverse in the ledger |
| AdminCompensation.InversesOnlyGrow | src/platform/admin/postgres-admin-compensation-completion.ts:26-212 | no run takes a committed inverse back |
| AdminCompensation.RowsDoTheirOperation | src/modules/admin/compensation-service.ts:78-306 | in every reachable state each ledger row of an operation is its own delta on its own account, a compensation's the negated source delta on the source's account, which belongs to its own player |
| AdminCompensation.ReversalsCancelIffClean | src/modules/admin/compensation-service.ts:78-306 | over whole runs, every reversed source cancels if and only if no gated, resolvable compensation without a row, whose delta fitted the balance, reached the owner while another inverse of its source was already in the ledger |
| AdminCompensation.DoubleReversal | src/modules/admin/compensation-service.ts:104-170 | a run with two compensation operations of one source takes its delta back twice under one relation |
| AdminLedger.AcceptedIffFirstCommit | src/modules/admin/domain-service.ts:129-194 | the owner takes on a mutation anew if and only if the call is gated, its operation resolvable and without a row, and the delta fits the balance, all of which can be told before the call |
| AdminRecovery.RefusedLeavesNoTrace | db/proofs/phase12_admin_compensation_e2e.ts:304-346 | an adjustment or inverse the owner refused moves no balance and changes no operation, and in every later state it has a ledger row if and only if a later commit met the balance guard; without one it has no status, change, audit or relation |
| AdminRecovery.NoRowNoTrace | db/proofs/phase12_admin_compensation_e2e.ts:304-346 | as long as the owner has not committed an operation it is not settled and has no change, audit or relation, wherever its calls crashed |
| AdminRecovery.DriftFreezes | src/modules/admin/service.ts:59-89 | over whole runs an operation whose snapshot has drifted passes no gate, gets no signature and no ledger row and is not settled, unless an apply call begun before the drift finishes it |
| AdminRecovery.ApplySettles | src/modules/admin/domain-service.ts:129-194 | one undisturbed apply of a READY adjustment settles it: status, revision, ledger and a change showing the balances around its own delta |
| AdminRecovery.AdjustmentRunsThrough | src/modules/admin/service.ts:233-328 | from any reachable state, an undrifted adjustment whose delta fits is applied by its proposer's and enough others' part in the gates and one apply call: exactly its delta moves, with one new row, and the change shows the balances around it |
| AdminRecovery.CrashWindowRecovers | db/proofs/phase12_domain_admin_e2e.ts:261-350 | after the owner commit, a crash and any later events, one more apply call settles an operation left READY if and only if it is an adjustment or its source is still APPLIED; no balance moves, the evidence is the original one, and a compensation adds exactly its one relation |
| AdminRecovery.SecondCompensationStuck | src/platform/admin/postgres-admin-compensation-completion.ts:26-212 | a compensation whose source another one has reversed is never settled in any later state, and a row it left in the ledger stays there without evidence |
| InboxTables.InboxStore.Claim | src/platform/messaging/postgres-messaging-repository.ts:101-213 | a claim is granted exactly to a new message or to the same content after a failed or outlived attempt, costs one attempt, otherwise writes nothing, keeps the protocol invariant, and a replay has its reply in the outbox |
| InboxTables.InboxStore.CompleteIncoming | src/platform/messaging/postgres-messaging-repository.ts:363-496 | status and replies are written together or not at all; in a state of the protocol no reply can conflict, so a PROCESSING message is always completed, with all its replies |
| InboxTables.InboxStore.Fail | src/platform/messaging/postgres-messaging-repository.ts:498-505 | a message that is still PROCESSING becomes FAILED, and anything else stays |
| InboxSafety.EffectAtMostOnce | db/proofs/phase13_messaging_foundation_e2e.ts:59-196 | over every run of workers, duplicates, crashes and reclaims a message has at most one ledger row and at most one reply |
| InboxSafety.ProcessedExactlyOnce | db/proofs/phase13_messaging_foundation_e2e.ts:59-196 | a message processed by a crediting handler has exactly one ledger row and exactly one reply, which reports the balance of the original credit |
| InboxSafety.ProcessedIsFinal | src/modules/messaging/service.ts:227-308 | PROCESSED and its result never change; a duplicate only replays it and a changed payload is refused |
| InboxSafety.OneClaimOneEffect | db/proofs/phase16_messaging_concurrency_faults_e2e.ts:271-351 | a handler takes effect at most once per claim, so a message claimed once and processed had its effect exactly once, or none if it was answered by an error |
| InboxExact.UnkeyedOnceIff | db/proofs/phase16_messaging_concurrency_faults_e2e.ts:271-351 | over whole runs an unkeyed effect happens at most once if and only if no claimant reaches the handler after an effect whose worker died, failed or lost the message, beside a worker that has had it, or after completion |
| InboxExact.UndisturbedEffectOnce | db/proofs/phase16_messaging_concurrency_faults_e2e.ts:271-351 | without a crash or failure between the unkeyed commit and the completion, and without a reclaim of a live claimant, the effect happens at most once and exactly once when the message is processed |
| InboxExact.LooseIsBumps | db/proofs/phase16_messaging_concurrency_faults_e2e.ts:271-351 | in every run an unkeyed balance is thirteen times the effects on it, and thirteen times one message's effects if only that message bumps the account |
| InboxRuns.RedeliveryConverges | db/proofs/phase16_messaging_concurrency_faults_e2e.ts:109-201 | a message whose last attempt failed or outlived its lease is processed by one more uninterrupted delivery; a credit already in the ledger is answered with its original balance and not repeated |
| InboxRuns.ThrownIsRedelivered | db/proofs/phase13_messaging_foundation_e2e.ts:124-138 | in every reachable state a message whose handler throws is granted at once, at the same time and for every lease, to any idle worker, and that delivery processes it without a second credit |
| InboxRuns.ProcessedIsAnswered | src/modules/messaging/service.ts:163-227 | a processed message has exactly one reply with its credited balance, or exactly one with its error, or none |
| InboxRuns.LimitedIsAnswered | src/modules/messaging/service.ts:268-287 | a message that admission refuses is answered with that error, moves no balance and reaches no handler |
| InboxRuns.UnkeyedEffectDoubles | db/proofs/phase16_messaging_concurrency_faults_e2e.ts:271-351 | a crash between the unkeyed commit and completion ends with 26 instead of 13 coins |
| InboxRuns.ErrorReplyBesideEffect | src/modules/messaging/service.ts:163-308 | a late worker's credit goes through after another worker's overflow answer completed the message |
| InboxExact.ErrorBesideEffectIff | src/modules/messaging/service.ts:163-308 | over whole runs a message answered by an error has a ledger row if and only if some claimant of it got its credit past the owner's balance guard while the error answer was held or recorded |
| InboxExact.UndisturbedErrorMeansNoRow | src/modules/messaging/service.ts:227-308 | without a reclaim of a live claimant an error reply means that nothing was credited |
| Outbox.CandidatesComplete | src/platform/messaging/postgres-messaging-repository.ts:507-576 | a claim passes over no eligible row unless it is full of earlier ones |
| Outbox.CandidatesAscending | src/platform/messaging/postgres-messaging-repository.ts:507-576 | a claim returns each row once, in claim order |
| OutboxSafety.BoundedDelivery | db/proofs/phase13_messaging_foundation_e2e.ts:199-287 | over every run no row is attempted or accepted more often than the limit, DEAD only at the limit, SENT only after an acceptance |
| OutboxSafety.ClaimUsesAttempts | src/platform/messaging/postgres-messaging-repository.ts:507-576 | the attempts left over all rows fall by exactly the number of messages claimed |
| OutboxSafety.ClaimsAreBounded | db/proofs/phase16_performance_coverage_e2e.ts:294-320 | however workers interleave, fail and crash, all claims together are at most the limit per row |
| OutboxSafety.EmptyClaimMeansDone | db/proofs/phase16_performance_coverage_e2e.ts:294-320 | an empty claim with room means that every row whose lease and backoff are over is SENT or DEAD |
| OutboxSafety.OneHolderIffReleased | src/platform/messaging/postgres-messaging-repository.ts:507-603 | over whole runs no row ever has two holders if and only if no claim meets a held row whose status, backoff or lease age puts it among the first `limit` claimable ones |
| OutboxWorker.SmoothRunsDeliverOnce | db/proofs/phase13_messaging_foundation_e2e.ts:199-287 | with no failure, crash or expired lease every row is accepted at most once, none is FAILED or DEAD, and SENT means accepted exactly once |
| OutboxSafety.ClaimTakesFirst | src/platform/messaging/postgres-messaging-repository.ts:507-576 | a claim takes exactly the first `limit` rows that are pending, failed with their backoff over, or whose lease is over, and that have attempts left, in claim order |
| OutboxSafety.ClaimWrites | src/platform/messaging/postgres-messaging-repository.ts:507-574 | what a claim does to every row, by its status, attempts, backoff, lease age and rank: SENDING from now on with one more attempt, DEAD, FAILED and due, or unchanged |
| OutboxSafety.FailedRowWaits | src/modules/messaging/service.ts:325-335 | after a failed delivery below the limit no claim takes the row before its delay is over and from then on each claim that reaches it does; the delay starts at the base and doubles per attempt up to twenty times and the maximum; at the limit the row is DEAD for ever |
| OutboxWorker.Worker.DeliverAll | src/modules/messaging/service.ts:349-393 | the delivery loop hands over the claimed rows in order, marks the accepted ones sent and the rejected ones failed or dead, and touches no other row |
| OutboxWorker.Worker.RunOnce | src/modules/messaging/service.ts:349-393 | one pass delivers or fails exactly what it claimed and its three counts add up |
| OutboxWorker.Worker.Drain | db/proofs/phase16_performance_coverage_e2e.ts:294-320 | claiming and marking until a claim is empty terminates, sends every claimable row with one more attempt, moves no other row, and its total is the attempts spent |
| OutboxRuns.DeliveredThenDead | src/platform/messaging/postgres-messaging-repository.ts:507-576 | a row can be DEAD although the adapter accepted it |
| OutboxExact.DeadMeansUndeliveredIff | src/modules/messaging/service.ts:349-393 | over whole runs a DEAD row was never accepted if and only if no acceptance of it was abandoned by a crash, a failed mark or a mark after the lease, and none is still waiting for its mark |
| OutboxExact.AcceptedOnceIff | src/modules/messaging/service.ts:349-393 | over whole runs a row is accepted at most once if and only if no delivery of it reaches the adapter after an abandoned acceptance, beside an accepted one, or after it was sent |
| OutboxExact.UndisturbedDeliversOnce | db/proofs/phase13_messaging_foundation_e2e.ts:199-287 | as long as leases outlive the work and no worker dies or fails between acceptance and mark, every row is accepted at most once and a DEAD row never, whatever fails before the acceptance |
| OutboxRuns.TwoHoldersDeliverTwice | src/platform/messaging/postgres-messaging-repository.ts:507-576 | a worker that outlives its lease delivers beside the one that reclaimed the row |
| RateLimits.BudgetNeverExceeded | db/proofs/phase13_messaging_hardening_e2e.ts:183-302 | under any concurrent admissions and crashes a bucket's counter equals its charge rows in the current window, and no window ever exceeds its limit |
| RateLimits.ChargedOnceOrNotAtAll | db/proofs/phase13_messaging_hardening_e2e.ts:183-302 | a message is charged once to each of its buckets or to none of them |
| RateLimits.LimitedChargesNothing | src/platform/messaging/postgres-messaging-repository.ts:215-361 | a refused admission charges nothing and names a bucket that is full in a live window; waiting as long as it says ends that window, waiting less does not |
| RateLimits.LimitedIffFull | src/platform/messaging/postgres-messaging-repository.ts:284-310 | an admission is refused if and only if some bucket of the message is full in a live window |
| RateLimits.ChargedForEachScope | src/modules/messaging/service.ts:40-81 | a charged message counts once against its player's limit, once against its chat's, and once against its player's limit for a sensitive action if and only if it asks for it; no window of that action's bucket holds more than the action's own limit |
| RateLimits.AdmittedIsReplayed | src/platform/messaging/postgres-messaging-repository.ts:229-238 | an admitted message is admitted again after any later history and is not charged again |
| RateLimits.RacedAdmissionConflicts | db/migrations/0021_messaging_operational_hardening.sql:17-25 | a second admission that passed the replay check in a race fails on the charge key instead of charging twice |
| RateLimits.BurstFormula | db/proofs/whatsapp_simulator_stress_uat.ts:549-598 | a burst inside one window is blocked in exactly its excess over the smallest room of any of its buckets |
| RateLimits.SimulatorFormulaIff | db/proofs/whatsapp_simulator_stress_uat.ts:549-598 | the stress run's formula holds if and only if the stored window is still live when the burst starts, or there is none |
| RateLimits.Limiter.ConsumeRateLimits | src/platform/messaging/postgres-messaging-repository.ts:215-361 | both passes over the rules, first all checks, then all charges, perform exactly one admission |
| MutationAdmission.BudgetIsExact | db/proofs/phase16_mutation_admission_e2e.ts:80-143 | in every run the counter equals the charge rows of its window, no window exceeds its limit, and no dedupe key is charged twice |
| MutationAdmission.AdmittedForEver | db/proofs/phase16_mutation_admission_e2e.ts:80-143 | an admitted request repeated after any later requests and in any window is allowed without a charge; with other content it is refused without a charge |
| MutationAdmission.AdmissionStore.Admit | src/platform/anti-abuse/postgres-mutation-admission.ts:58-181 | an unseen request is admitted exactly when its bucket has room or its window is over, and blocked exactly when not; whoever is admitted stays admitted uncharged; whoever is blocked faces a full live window and learns when it ends; a policy out of range is refused; the tables stay reachable |
| Progression.ApplyPokemonXp | src/modules/progression/rules.ts:20-81 | the loop with its validation computes the carry specification the other rows are about |
| Progression.CarryIsCubeRoot | src/modules/progression/rules.ts:15-81 | the level loop keeps level cubed plus experience, stops below the next threshold or at the cap, and so ends on the integer cube root of the total |
| Progression.AwardClosedForm | src/modules/progression/rules.ts:20-81 | level, remainder, discarded amount and crossed levels in closed form by the cube root and the cap |
| Progression.ConservedIff | src/modules/progression/rules.ts:20-81 | experience is conserved if and only if the Pokemon starts below the cap or holds none; the result is a valid input again |
| Progression.LevelsAre | src/modules/progression/rules.ts:20-81 | the levels crossed are the consecutive levels above the old one |
| Progression.AwardsAdd | src/modules/progression/rules.ts:20-81 | awarding a and then b equals awarding a + b in level, remainder, crossed levels, awarded and discarded amounts, cap or no cap |
| Progression.BattleXp | src/modules/progression/rules.ts:83-85 | battle experience is at least one and otherwise the seventh of base times level, rounded down |
| Trainer.TrainerLevelForPoints | src/modules/progression/rules.ts:102-113 | the downward search returns the highest level whose requirement is met, and nothing for unsafe points |
| Trainer.ReachesIffRequired | db/proofs/phase11_trainer_final_e2e.ts:42-65 | on both curves and for every level up to the cap, the level is reached if and only if its requirement is met |
| Trainer.LinearClosedForm | db/proofs/phase11_trainer_final_e2e.ts:42-53 | the linear level is a division cut off at 100 |
| Trainer.QuadraticClosedForm | db/proofs/phase11_trainer_final_e2e.ts:58-65 | the quadratic level is an integer square root cut off at 100 |
| Trainer.AdjustSyncs | src/platform/progression/postgres-progression-repository.ts:1043-1252 | after any accepted adjustment each configured unlock is active exactly when its points requirement is met |
| Trainer.SummaryIsAccurate | src/platform/progression/postgres-progression-repository.ts:1207-1220 | the answer of an accepted adjustment shows points and level before and after it, names each configured unlock that became active or ceased to be exactly once and no other, and is what the ledger keeps |
| Trainer.RewardSyncsIff | src/platform/progression/postgres-progression-repository.ts:965-1041 | under one ruleset a battle reward keeps unlocks in step if and only if it reaches no unlock that has a revoked row |
| Trainer.InSyncIffRewardsFollow | src/platform/progression/postgres-progression-repository.ts:965-1252 | over whole runs with rewards pinned to any rulesets, unlocks follow the level of the active ruleset at every point if and only if no reward gives the points another level, leaves out or finds revoked an unlock they reach, or grants one they do not |
| Trainer.RewardLeavesRevoked | src/platform/progression/postgres-progression-repository.ts:1005-1040 | earn, revoke, earn again by battle: the unlock stays revoked at the level that grants it |
| Trainer.PointsAreLedger | db/proofs/phase12_domain_admin_e2e.ts:352-428 | points are the sum of the ledger, never negative and never unsafe, over any accepted, refused and replayed requests |
| Trainer.InverseRestores | db/proofs/phase12_admin_compensation_e2e.ts:192-273 | an adjustment followed by its inverse restores points, level and the set of active unlocks |
| Trainer.AdjustmentReplays | src/platform/progression/postgres-progression-repository.ts:1043-1120 | a repeated adjustment returns its original summary after any history; another delta under the key is a conflict; neither writes |
| Trainer.TrainerRow.AdjustTrainerProgress | src/platform/progression/postgres-progression-repository.ts:1043-1252 | the in-place adjustment performs exactly one replay, refusal or update of points, level, unlocks and ledger, and its answer shows exactly what changed |
| Trainer.TrainerRow.ApplyBattleReward | src/platform/progression/postgres-progression-repository.ts:965-1041 | the in-place reward adds the points, derives the level and inserts only missing unlocks |
| MoveLearning.OfferedMovesAreSettled | db/proofs/phase11_progression_e2e.ts:889-896 | an offered move is known afterwards or has its one choice for its level, a new choice only when all four slots are taken; slots fill from the lowest, and learning removes nothing |
| MoveLearning.FullSlotsStay | src/platform/progression/postgres-progression-repository.ts:199-299 | once four slots are taken learning never changes them |
| MoveLearning.ResolutionIsFinal | db/proofs/phase11_progression_e2e.ts:1002-1078 | a resolved choice answers its own slot again for ever, refuses every other, and changes nothing |
| MoveLearning.DistinctIffNeverRepeated | src/platform/progression/postgres-progression-repository.ts:1254-1392 | over every run of learning and resolving no two slots ever know the same move if and only if no pending choice is resolved into an occupied slot while another slot knows its move |
| MoveLearning.SafeIffOneLevelEach | src/platform/progression/postgres-progression-repository.ts:199-303 | a learnset keeps the moves of every Pokemon without choices distinct over every run if and only if it offers each move at one level only |
| MoveLearning.TwoLevelsTeachTwice | src/platform/progression/postgres-progression-repository.ts:1254-1392 | for any move and any two levels, the run that offers it at both and resolves both choices teaches it twice |
| MoveLearning.MoveSlots.FindFreeSlot | src/platform/progression/postgres-progression-repository.ts:199-299 | the slot loop finds the lowest free slot or none |
| MoveLearning.MoveSlots.LearnMovesAtLevel | src/platform/progression/postgres-progression-repository.ts:199-299 | the loop over the level's moves performs the specified learning; everything reported as learned is known and everything reported as pending is a pending choice |
| BattleReward.RewardsAreOneAward | src/platform/progression/postgres-progression-repository.ts:508-673 | over every run of wins, retries, races and crashes each battle is rewarded once, and the Pokemon stands where one single award of everything offered would have put it |
| BattleReward.RewardReplays | db/proofs/phase11_progression_e2e.ts:849-893 | a rewarded battle replays its original result after any later history, under its own key and under any key no other battle used |
| BattleReward.RewardGives | src/platform/progression/postgres-progression-repository.ts:508-760 | a reward offers the seventh of base times level, rounded down and at least one; every move of every level reached on the way is known afterwards or has its choice, taken slots and earlier choices stay, and the trainer is rewarded for this battle |
| BattleReward.RewardedIff | src/platform/progression/postgres-progression-repository.ts:508-616 | a battle is rewarded if and only if it is won, has a base experience, neither it nor the key has been claimed, and the stored values are in range |
| BatchSafety.BatchIsConsistent | db/proofs/phase12_admin_batch_e2e.ts:227-389 | whatever runners do, crash and race, also between a child's two commits: a target is in the ledger at most once, an applied child has its row, a success its applied child, the revision advances once at completion, counts add up, COMPLETED iff none failed |
| BatchSafety.InterruptedChildResumes | db/proofs/phase12_admin_batch_e2e.ts:227-389 | a child killed after the owner's commit is applied by one more undisturbed attempt, no balance moves, and a pending target succeeds |
| BatchSafety.PlanIsFrozen | src/platform/admin/postgres-admin-batch-repository.ts:155-228 | no event changes which accounts are affected or by how much |
| BatchSafety.OneExecutor | src/platform/admin/postgres-admin-batch-repository.ts:237-305 | one execute operation owns the batch; others are refused for ever, and its own later claim replays past the stale revision |
| BatchExecution.SerialRunsAreSequential | db/proofs/phase12_admin_batch_e2e.ts:227-389 | for every chunking and any crashes, also between a child's owner commit and its evidence, and whatever happens to other accounts meanwhile, a finished batch leaves the target balances, child ledger rows and target results of applying the child once per target in ordinal order; left to itself, exactly that book |
| BatchExecution.OthersUntouched | db/proofs/phase12_admin_batch_e2e.ts:391-429 | over any run of any runners, crashes and foreign mutations, an account outside the frozen targets that no foreign mutation names, such as that of a player who joined later, keeps its balance |
| BatchExecution.ContradictoryIffOverruled | src/platform/admin/postgres-admin-batch-repository.ts:326-361 | over whole runs of any runners a failed target's mutation is in the ledger if and only if a refusal answered before another runner's owner commit of the same target is recorded, before that commit or after it |
| BatchExecution.BatchContradictsIff | src/modules/admin/batch-service.ts:268-316 | the same from the preview on; and if every target is taken only while PENDING and unheld, no failure is ever reported for a mutation in the ledger |
| BatchExecution.FailedButApplied | src/modules/admin/batch-service.ts:268-316 | a full run from the preview with two runners: the stale refusal is recorded first and the batch reports a failure for a target that is applied and in the ledger |
| BatchExecution.BatchStore.Claim | src/platform/admin/postgres-admin-batch-repository.ts:237-305 | whoever is let in is the executor, an executor is never replaced, only an open batch at the expected revision is entered, and the same claim repeated gets the same answer |
| BatchExecution.BatchStore.LoadPendingTargets | src/platform/admin/postgres-admin-batch-repository.ts:307-324 | the chunk is the first `limit` pending ordinals in ascending order: nothing pending is passed over unless the chunk is full of earlier ones |
| BatchExecution.BatchStore.Refresh | src/platform/admin/postgres-admin-batch-repository.ts:363-425 | a running batch ends exactly when no target is pending; its counts are those of the targets, and its checkpoint is the last ordinal before the first pending one |
| BatchExecution.BatchStore.RunTarget | src/modules/admin/batch-service.ts:268-316 | one target, killed before, between or after its five transactions, leaves the sequential execution up to it or including it |
| BatchExecution.BatchStore.RunChunk | src/modules/admin/batch-service.ts:268-316 | the loop over a chunk extends the sequential execution target by target |
| BatchExecution.BatchStore.RunPendingTargets | src/modules/admin/batch-service.ts:268-316 | the chunk loop, killed anywhere, leaves a prefix of the sequential execution, and its whole when it finishes |
| Roster.PlacementIsFirstFree | src/platform/player/postgres-roster-placement.ts:29-94 | the placement is valid, free and the first free one, so a box is used exactly when all six team slots are taken |
| Roster.FindPlacement | src/platform/player/postgres-roster-placement.ts:73-94 | the team loop and the box search find that placement |
| Capture.FailureEffect | db/proofs/phase10_capture_e2e.ts:569-617 | a failed capture takes one Ball and leaves one attempt and one message, no Pokemon, the encounter back in its old status |
| Capture.SuccessEffect | db/proofs/phase10_capture_e2e.ts:347-442 | a capture puts one new Pokemon in the first free slot, takes one Ball, and closes encounter and battle at version + 1 unless another wild Pokemon is active |
| Capture.CapturesAreAtomic | db/proofs/phase10_capture_e2e.ts:347-442 | over every run of requests, duplicates, retries and crashes attempts, Balls, messages, Pokemon, slots, revisions and battle versions stay in step, one each |
| Capture.RollDecides | src/modules/capture/service.ts:202-412 | an attempt takes effect exactly when its key is new, the tables show the expected revision, version and standing active wild Pokemon, and there is a Ball; it is then caught if and only if the roll succeeded, and no Ball is refused as such |
| Capture.CaptureReplays | src/modules/capture/service.ts:95-121 | a capture that took effect answers its outcome for ever and its key refuses other content; neither changes anything |
| Capture.CaptureTables.Execute | db/proofs/phase10_capture_e2e.ts:620-676 | killed after any number of port calls the request either commits whole or leaves the tables untouched; a Done answer is CAPTURED exactly when the roll succeeded, and comes only from tables that allowed the attempt |
| SafeRetry.WithSafeRetry | src/shared-kernel/retry.ts:53-73 | calls stop at the first one that commits, throws anything but a serialization failure or deadlock, or exhausts the policy, whose violations are refused before the first call; its result is the result |
| OnCall.SomebodyStaysOnCall | db/proofs/phase16_postgres_retry_e2e.ts:158-214 | with validation and retry, in every interleaving of any number of doctors somebody stays on call, exactly one at the end, and nobody is aborted more often than there are others |
| OnCall.UnvalidatedIffNeverOvertaken | db/proofs/phase16_postgres_retry_e2e.ts:158-214 | without validation somebody stays on call if and only if the last one on call never commits on a read that overlaps another's leaving |
| OnCall.WriteSkew | db/proofs/phase16_postgres_retry_e2e.ts:158-214 | the two-doctor run that empties the rota |
| Deadlock.ExactlyThreeCalls | db/proofs/phase16_postgres_retry_e2e.ts:95-148 | in every interleaving and with either victim both rows end at two after exactly three calls, with no partial update visible before |
| Deadlock.ProgressAlways | db/proofs/phase16_postgres_retry_e2e.ts:95-148 | every event leaves the state alone or comes closer to the end, and no reachable state is stuck |
| Deadlock.Barrier.Arrive | db/proofs/phase16_postgres_retry_e2e.ts:19-31 | the barrier lets callers pass exactly from the second arrival on |
| SeedResume.NeverValidatedUnbound | db/seeds/phase11_progression_slice.ts:91-183 | wherever the seeds are killed, an unbound release stays a draft and the active release is always a published one |
| SeedResume.Phase4Converges | db/seeds/phase4_vertical_slice.ts:763-806 | from every state the invariant allows without an unbound release, the Phase 4 seed ends published and active |
| SeedResume.Phase4AlwaysConverges | db/seeds/phase4_vertical_slice.ts:763-806 | killed anywhere any number of times, the Phase 4 seed converges on its next undisturbed run |
| SeedResume.Phase11ConvergesIff | db/seeds/phase11_progression_slice.ts:91-183 | a rerun of the Phase 11 seed converges if and only if no release was left cloned and unbound |
| SeedResume.Phase11RerunConvergesIff | db/seeds/phase11_trainer_final_slice.ts:88-192 | over whole histories the next undisturbed run converges if and only if no kill fell between the clone and the rebinding |
| SeedResume.StrandedForEver | db/seeds/phase11_trainer_final_slice.ts:103-139 | once the release is left cloned and unbound no rerun ever changes it |
| SeedResume.AbandonedIffKilledUnbound | db/seeds/phase11_progression_slice.ts:96-135 | a run abandons its release if and only if some kill falls exactly between the clone and the rebinding |
| SeedResume.Seeder.Commit | src/modules/catalog/service.ts:86-246 | each transaction commits as a whole or changes nothing, leaves no unbound release validated and no unpublished one active, and what remains to be done fits the rows again |
| SeedResume.Seeder.RunScript | db/seeds/phase11_progression_slice.ts:138-183 | the main procedure, killed after any number of transactions, leaves exactly the driven state |
| Pagination.WalkIsSorted | db/proofs/phase12_player360_e2e.ts:509-547 | the pages put together show only listed players, newest first and nobody twice |
| Pagination.PagesAreFew | db/proofs/phase12_player360_e2e.ts:509-547 | paging terminates for every limit: every page but the last is full |
| Pagination.WalkCompleteIff | src/platform/admin/postgres-player360-repository.ts:725-853 | the pages together are the whole sorted result if and only if no page boundary separates players the truncated cursor cannot tell apart |
| Pagination.CompleteWalkShows | db/proofs/phase12_player360_e2e.ts:509-530 | with every boundary seamless the pages show exactly the active and suspended players |
| Pagination.AlignedIsSeamless | src/platform/admin/postgres-player360-repository.ts:725-853 | with whole-millisecond timestamps every boundary is safe |
| Pagination.SameMillisecondIsSkipped | src/platform/admin/postgres-player360-repository.ts:23-25 | two players of one millisecond around a page boundary: the second is never shown |
| Pagination.TablesShowIff | db/proofs/phase12_player360_e2e.ts:509-547 | with players joining between the pages, every watched player from the start is shown if and only if no page boundary passes over one of them |
| Pagination.TablesWalkIsSorted | db/proofs/phase12_player360_e2e.ts:509-547 | whatever tables the pages are read from, nobody is shown twice or unlisted, newest first |
| Pagination.JoiningPlayersHideNobody | db/proofs/phase12_player360_e2e.ts:509-547 | with whole-millisecond timestamps every listed player from the start is shown exactly once, however many join between the pages |
| Pagination.CollectPages | db/proofs/phase12_player360_e2e.ts:509-530 | the bounded loop collects the whole walk exactly when it needs no more than its bound of pages |
| Drafts.ClaimsAreTheHistory | db/proofs/phase16_admin_concurrency_e2e.ts:137-227 | over any racing mutations a release's revision has advanced once per claim, each revision has one winner, and the claims alone rebuild the draft, each before value included |
| Drafts.OneWinnerPerRevision | db/proofs/phase16_admin_concurrency_e2e.ts:137-227 | of any requests for one revision at most one is persisted, and exactly one if any is acceptable |
| Drafts.ReplayBeforeRevision | src/platform/catalog/postgres-catalog-draft-repository.ts:86-116 | the claim is looked up before the revision: after any later revisions and after publication, the same fingerprint, release, operation, resource kind and (unless CREATE) resource returns the original result, any other is a conflict, and neither changes anything |
| Drafts.PersistsIff | src/platform/catalog/postgres-catalog-draft-repository.ts:208-257 | a request is persisted if and only if its key is new, the release is a draft at the expected revision, the request is admitted, and its resource is there unless it is to be created |
| Drafts.PublishedIsFrozen | src/platform/catalog/postgres-catalog-draft-repository.ts:230-236 | after publication no run changes the release any more and no new request is persisted on it |
| Drafts.DraftStore.Apply | src/platform/catalog/postgres-catalog-draft-repository.ts:208-310 | a request is persisted exactly when its release, revision, resource and key allow it; it then takes the revision it expected and replays from then on: a CREATE or REPLACE leaves its own content active, a DEACTIVATE the old content inactive, every other resource and release stays, and the one new claim records the resource before and after; anything else changes nothing, and the claims stay the whole history that rebuilds the release |
| EconomyFuzz.ReferenceBands | db/proofs/phase16_economy_fuzz_e2e.ts:67-147 | for every operation count the two variables stay in 9999..10007 and 99997..100005 and return to their start every twenty operations |
| EconomyFuzz.BookFollowsModel | db/proofs/phase16_economy_fuzz_e2e.ts:67-147 | for every operation count the ledger holds one row per operation in order and the balances equal the variables |
| EconomyFuzz.LoopMatchesModel | db/proofs/phase16_economy_fuzz_e2e.ts:67-163 | balances equal the variables and the sums of the ledger deltas, and repeating any operation replays it and changes nothing |
| EconomyFuzz.RunOperations | db/proofs/phase16_economy_fuzz_e2e.ts:67-147 | the loop against the owner keeps the variables in step with the reference model and the counters equal to the ledger's row counts |
| EconomyFuzz.ReplayAll | db/proofs/phase16_economy_fuzz_e2e.ts:149-163 | replaying any collected operations leaves the owner as it was |
| EconomyFuzz.RunFuzz | db/proofs/phase16_economy_fuzz_e2e.ts:44-163 | after run and replay the variables still equal the owner's balances, inside their bands, and the counters its row counts |

## Left out

- SQL, transactions as such, pools, clocks, query plans and timing: a transaction is one step, times are inputs.
- Principals, capabilities and scopes: the verdict of an authorization is an input of every gate.
- Message transport, menus, texts, media jobs and their retries, the runtime wiring, read-only operations: read-only or single-branch code that keeps no state of its own.
- Role assignment, Pokemon lifecycle corrections and effects, battle and encounter administration: single guarded updates on the same two-phase protocol.
- The expected revision an admin caller may pass with an adjustment: checked by the owners of other domains, not by inventory, wallet or trainer.
- Capture probability, damage and stat formulas and their random rolls: the outcome of a roll is an input.
- Integer widths: wallet and inventory balances are bounded by the bigint maximum and trainer points by the safe-integer maximum; experience is unbounded, without double rounding.
- Level caps above 100: the configuration schema allows none.
- Retry delays and jitter, evolution ability resolution and hit points, archived rulesets and releases.
- Messages with several ledger effects: one handler has one keyed or one unkeyed effect.
- Gate calls (simulate, confirm, approve) check the snapshot and write in one step; between the two the service re-checks only status and revision, which is what the step checks too.
- AdminDesk.Desk.BeginApply: for a compensation reads source and compensation in one step, while the service reads them one after the other; both are read again in the completion.
- AdminDesk.Desk.CommitOwner: models the inventory and wallet owners; the trainer owner is modelled by its own keyed ledger in `Trainer`.
- BatchSafety.BatchIsConsistent: a child operation has no gates, as batches admit only such operations; its owner commit and its evidence are two transactions here as everywhere, and an error that is no target failure ends the runner like a crash.
- BattleReward.RewardsAreOneAward: modelled on values for one Pokemon and its trainer; moves and evolution of the same reward are in `MoveLearning`.
- Capture.CapturesAreAtomic: one player and one encounter; the single ports have no rows of their own, since `Capture.CaptureTables.Execute` says what they come to.
- MoveLearning.OfferedMovesAreSettled: one Pokemon and one release.
- Trainer.InSyncIffRewardsFollow: between two activations; a newly activated ruleset is followed from the next accepted adjustment on (`Trainer.AdjustSyncs`).
- OutboxWorker.Worker.RunOnce: the worker claims only its adapters' channels, so the branch for a missing adapter cannot see a claimed row and is not modelled.
- OutboxWorker.Worker.Drain: the clock stands still during the loop.
- SeedResume.Phase4AlwaysConverges: one seed process at a time.
- SeedResume.Phase11RerunConvergesIff: the parent release is published, as the seed demands.
- OnCall.SomebodyStaysOnCall: validation aborts any transaction whose read was overtaken, which is stricter than serializable snapshot isolation.
- Deadlock.ExactlyThreeCalls: the hand-off of a freed lock to its waiter is an assumption.
