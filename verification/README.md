# OpenArc: verified models of the durable stores and the worker

This project models the parts of OpenArc that hold state, concurrency and arithmetic, and proves what they promise.
The models follow the TypeScript stores in `packages/db/src`, the worker in `apps/worker/src`, the import parser in
`packages/shared/src`, and the SQL of `packages/db/migrations` where a store's statements live there.
`dafny verify dfyconfig.toml` checks everything.

## What is here

- **The account store.** `AuthTables` and `AuthSpec` give every operation as one atomic change of the tables.
  `AuthStore` is the store as written, statement by statement, proved to be that change when it runs alone.
  `AuthPlans` lists the lock, check and write statements of each transaction; `AuthLocking`, `AuthDiscipline`,
  `AuthLawful` and `AuthCommit` show that locks protect what was read; `AuthInterleaving` concludes that every
  interleaving is serial. `AuthAnswers` says of every operation when it succeeds, what it then stores and which error
  it answers otherwise, in literal units and limits. `AuthOwnLocks`, `WaitGraphs` and `AuthDeadlock` say exactly which
  transactions can deadlock. `AuthEffects`, `AuthRuns` and `AuthHistory` make statements about whole runs: counters,
  challenges, recovery codes, logins, limits.
- **Rate limits.** `RateLimit`: the two statements on the table, runs of calls and purges, exact bounds.
- **Payments.** `PaymentAttempts`: the row, its table rules and the statements on it. `PaymentProtocol`: agents,
  observers, crashes, lost transactions, lost replies, leases.
- **The worker.** `Backoff`; `SettlementLoop`, `SettlementBatches`, `SettlementOrder` and `SettlementSweep` for
  settlement observation; `WorkerLoop`, `WorkerSafety` and `WorkerAborts` for notifications; `WorkerRuntime` for the process lifecycle.
- **Texts and encodings.** `Calendar`, `Timestamps`, `Utf16`, `Json`, `DigestPreimages`, `Base64Url`, `RevisionIds`.
- **Bounded reading.** `AgentImport` for the tree walk and the import checks; `KeysetPaging` for cursor pages.
- **Transactions.** `Transactions`: the wrapper every store call goes through, in its three variants.

## How the source's behaviour is represented

- Locks are the explicit advisory and row locks. A step of the interleaving model is one statement, one commit, one
  rollback or one tick of the clock; a statement that needs a lock held by another transaction is not enabled. Taking a
  lock already held is a step that changes nothing. Reads of other transactions' uncommitted rows do not happen; a
  value read under a lock is checked against the committed tables.
- Values a transaction will read are guessed when it starts. A guess that turns out wrong, like any failed check, makes
  the transaction roll back, so every guess is covered and none is trusted.
- Event-loop programs are steps between awaits. Stop, abort, deadline, timeout and store failure arrive as steps or
  script entries at every await. A timer runs only after the continuations of what has already settled.
- The network, the lane classifier, hash functions, random values, the wall clock, JSON parsing of the platform and the
  declared schemas are parameters: the results hold for every choice of them. Clocks never run backwards where a
  statement says so. Nothing is assumed about collisions of the hash functions.
- Strings are UTF-16 code units where surrogates matter (`Utf16`, `Json`, `DigestPreimages`) and characters elsewhere.
- Database order of ids is code-unit order, which any collation gives on ids of one fixed lower-case shape.

## Where the code does not do what it or its comments say

- The hash and wallet advisory locks share one key space. The lock order therefore does not exclude every deadlock: a
  deadlock needs, and two wallet logins can reach it with, two different keys that are each the key of an own hash and
  of an own address of the transactions involved (`AuthDeadlock.DeadlockNeedsTwoSharedKeys`,
  `AuthDeadlock.NeverDeadlocksIff`). Transactions that share at most one such key never deadlock.
- The account store puts COMMIT under the handler that rolls back, so a lost COMMIT reply is reported as an ordinary
  database error, and its release is unguarded (`Transactions.JointErrorsAreHonestIff`). The grant and payment stores
  let a throwing release replace the outcome of a committed call (`Transactions.BareErrorsAreHonestIff`).
- The notification worker's `abort()` is described as preventing late completions and failures. An acknowledgement can
  follow it exactly while no stop was requested and the loop has not ended (`WorkerAborts.AckCanFollowIff`); which
  events can still get one is `WorkerAborts.EventCanAckIff`, and which acknowledgements do follow is
  `WorkerAborts.AcksAfterAbort`. The settlement loop keeps the promise (`SettlementLoop.RequestsAreObeyed`).
- `ready` never settles exactly when a stop arrives during initialization (`WorkerRuntime.NeverReadyIff`).
- Normalised timestamps past the year 9999 lose their seconds and sort before all others; string order is time order
  exactly up to that year (`Timestamps.ComparesIff`, `Timestamps.LateOrder`).
- The endpoint review text is not injective on lone surrogates (`DigestPreimages.LoneSurrogatesCollide`).
- `policyRevisionResourceId` is described as starting at revision 2 but also prints revision 1, which the worker
  refuses (`RevisionIds.PrintedIsRecognisedIff`).
- A settlement claim that lists one attempt twice makes the sweep ask twice (`SettlementSweep.BatchAsksOnceIff`).
- The stored-row projection is weaker than the table's own check (`PaymentAttempts.ProjectionIsWeaker`).
- Several comments speak of `$` matching before a final newline; without the multiline flag JavaScript's `$` does not,
  and the patterns are modelled as the language defines them.

## Model

| member | source | states |
|---|---|---|
| `AuthLawful.EveryPlanIsLawful` | packages/db/src/auth-store.ts:508-866 | every statement of every locking operation, in its written order, obeys one locking discipline: a fact is read under the lock that guards it, child rows are taken only under their account or wallet lock, accounts in ascending order, and a write touches only rows covered by held locks |
| `AuthLocking.StableUnderWrite` | packages/db/src/auth-store.ts:972-1098 | a row change covered by one transaction's locks leaves every fact true that another transaction has read under a lock the first does not hold |
| `AuthCommit.EveryCommitIsAtomic` | packages/db/src/auth-store.ts:508-866 | if everything a finished transaction read still holds when it commits, its pending row changes give exactly the tables the operation gives when run alone at that instant |
| `AuthInterleaving.FactsSurviveCommit` | packages/db/src/auth-store.ts:945-1098 | everything an unfinished transaction has read under its locks is still true after any other transaction commits |
| `AuthInterleaving.InterleavingIsSerial` | packages/db/src/auth-store.ts:508-1338 | serializability: after any interleaving of any number of transactions, with lock waits, rollbacks and clock ticks, the tables are those of the committed operations run alone in commit order |
| `WaitGraphs.KnotNeedsTwoKeys` | packages/db/src/auth-store.ts:1037-1049 | a wait-for graph in which locks are exclusive and requests follow the order hash key, wallet key, accounts ascending, rows has a set that waits on itself only if two different advisory keys are shared between hash and wallet locks |
| `AuthOwnLocks.EveryPlanIsEarly` | packages/db/src/auth-store.ts:508-1338 | every operation asks for the advisory locks of its own hash and its own address only, and takes no lock but its hash lock before the last of them |
| `AuthOwnLocks.RunOwn` | packages/db/src/auth-store.ts:972-994 | in every reachable state a transaction that still has an advisory lock to ask for holds at most the lock of its own hash |
| `AuthDeadlock.DeadlockNeedsTwoSharedKeys` | packages/db/src/auth-store.ts:608-689 | in every reachable state, from any tables, a set of transactions that waits on itself has two different advisory keys, each the key of a member's own hash and of a member's own address |
| `AuthDeadlock.NoReachableDeadlock` | packages/db/src/auth-store.ts:608-689 | transactions whose own hashes and addresses share at most one advisory key are never deadlocked in any reachable state |
| `AuthDeadlock.SomeTransactionCanStep` | packages/db/src/auth-store.ts:838-865 | while transactions are unfinished and their own hashes and addresses share at most one advisory key, one of them can take its next statement or commit |
| `AuthDeadlock.TwoSharedKeysDeadlock` | packages/db/src/auth-store.ts:989-994 | for any two hashes and two addresses that collide crosswise in the advisory key space, the run of their two wallet logins from empty tables reaches a deadlock |
| `AuthDeadlock.NeverDeadlocksIff` | packages/db/src/auth-store.ts:1266-1338 | for any given hashes and addresses: no run of operations on them from empty tables ever deadlocks if and only if they map to at most one common advisory key |
| `AuthRuns.ConcurrentRunsAreHistories` | packages/db/src/auth-store.ts:945-970 | the commit log of every concurrent run is a sequential history that ends in the run's tables, so every statement about histories below is about concurrent runs |
| `AuthRuns.HistoriesAreSound` | packages/db/src/auth-store.ts:400-404 | in every table state of every history: no hash is both a session and a challenge, every row belongs to an account, user handles are unique, no account has more than 10 passkeys, 10 wallets or 8 codes, no single-device credential is backed up, and rows have the shape of their kind |
| `AuthHistory.CountersNeverFall` | packages/db/src/auth-store.ts:647-679 | a stored passkey is never lost or rebound and its counter never decreases over any stretch of any history |
| `AuthHistory.LoginRaisesCounter` | packages/db/src/auth-store.ts:589-689 | every committed passkey login strictly raises the stored counter, unless it was zero and stays zero |
| `AuthHistory.OneLoginPerSnapshot` | packages/db/src/auth-store.ts:589-689 | of all logins in a history that present the same credential snapshot with a nonzero new counter, at most one commits |
| `AuthHistory.SnapshotSurvivesIff` | packages/db/src/auth-store.ts:589-689 | after a login commits, its own snapshot would be accepted again exactly when the new counter is zero and the backup flag did not change |
| `AuthHistory.ChallengeOrigin` | packages/db/src/auth-store.ts:546-583 | every stored challenge has an issue with exactly its fields, and nothing issued or consumed that hash since |
| `AuthHistory.ConsumptionAnswersIssue` | packages/db/src/auth-store.ts:1143-1201 | every consumption answers an earlier issue that nothing consumed before, with the same binding and kind, before its five minutes are over; for a bound kind both present sessions of one active account that are unexpired and at most five minutes old on both clocks |
| `AuthHistory.NoDoubleConsumption` | packages/db/src/auth-store.ts:1143-1201 | between two consumptions of one hash lies a fresh issue of it |
| `AuthHistory.CodesAreConserved` | packages/db/src/auth-store.ts:797-866 | while an account's codes are not replaced, each of its codes is still stored or was redeemed exactly once |
| `AuthHistory.AtMostEightRedemptions` | packages/db/src/auth-store.ts:833-866 | between two replacements an account redeems at most eight codes |
| `AuthHistory.CodeOrigin` | packages/db/src/auth-store.ts:797-828 | every stored code was minted by a replacement of its account and neither redeemed nor replaced since |
| `AuthHistory.NoDoubleRedemption` | packages/db/src/auth-store.ts:833-866 | between two redemptions of one code it was minted again |
| `AuthHistory.RedemptionLeavesOneSession` | packages/db/src/auth-store.ts:833-866 | a redemption leaves its account exactly one session, a recovery session, and no account-bound challenge, and changes nothing of other accounts |
| `AuthHistory.NewCodesNeedProof` | packages/db/src/auth-store.ts:797-828 | after a redemption an account's codes are replaced only after a passkey or wallet login of that account: a recovery session cannot mint codes |
| `AuthHistory.LoginsOpenSessions` | packages/db/src/auth-store.ts:1206-1338 | every committed registration or login of any history leaves a session of one day from its own start, of the created, presented or wallet's account, recorded as passkey or as wallet, and that account is active |
| `AuthHistory.LoginsCanMint` | packages/db/src/auth-store.ts:797-828 | less than five minutes after any committed login its session can replace the account's codes by any eight distinct codes that no other account has: a replacement is not refused to those it is for |
| `AuthAnswers.IssueAnswer` | packages/db/src/auth-store.ts:508-583 | when a challenge is issued, for which account and until when (five minutes), and the error of every refusal in the order of the checks |
| `AuthAnswers.ConsumeAnswer` | packages/db/src/auth-store.ts:1143-1201 | exactly which presented challenge is deleted and returned, and the error of every other call |
| `AuthAnswers.CreateAnswer` | packages/db/src/auth-store.ts:1206-1250 | exactly when a registration succeeds; its account, passkey and one-day passkey session; the previous session goes only if it still belongs to the account found for it |
| `AuthAnswers.LoginPasskeyAnswer` | packages/db/src/auth-store.ts:589-689 | a passkey login succeeds exactly for an active account, an unused session hash, a rising or zero counter and a stored credential that is still the expected one; it writes counter, backup flag and one passkey session, nothing else |
| `AuthAnswers.LoginPasskeyRefusal` | packages/db/src/auth-store.ts:589-689 | the error of every refused passkey login, a disabled account among them |
| `AuthAnswers.KnownWalletAnswer` | packages/db/src/auth-store.ts:1255-1338 | a login with a known wallet: its wallet session, or the error, a disabled account among them |
| `AuthAnswers.NewWalletAnswer` | packages/db/src/auth-store.ts:1255-1338 | a login with a new wallet: its account, wallet and wallet session, or the error; the account of a previous session must be active |
| `AuthAnswers.LogoutAnswer` | packages/db/src/auth-store.ts:725-733 | a logout never fails and deletes at most its own session |
| `AuthAnswers.AddPasskeyAnswer` | packages/db/src/auth-store.ts:735-761 | exactly when a passkey is added, to whom, with fewer than ten stored, and every refusal |
| `AuthAnswers.LinkWalletAnswer` | packages/db/src/auth-store.ts:763-791 | exactly when a wallet is linked, to whom, with fewer than ten stored, and every refusal |
| `AuthAnswers.ReplaceAnswer` | packages/db/src/auth-store.ts:797-828 | a replacement succeeds exactly with eight distinct codes, none of another account, from a recent session of an active account not opened by recovery; the account then has these eight codes, and every refusal has its error |
| `AuthAnswers.RedeemAnswer` | packages/db/src/auth-store.ts:833-866 | a redemption succeeds exactly for a stored code of an active account and an unused session hash; it spends the code, ends every session and bound challenge of the account and opens one recovery session |
| `AuthAnswers.PurgeAnswer` | packages/db/src/auth-store.ts:899-922 | a purge takes the given rows exactly when all of them have expired, and nothing else |
| `AuthStoreModel.AuthStore.IssueChallenge` | packages/db/src/auth-store.ts:508-583 | running alone, the statement-by-statement method gives the specified tables and reply, or its error with the tables unchanged; so for each of the operations below |
| `AuthStoreModel.AuthStore.ConsumeChallenge` | packages/db/src/auth-store.ts:1143-1201 | settles as the specified consumption: the row is deleted only when binding, kind, expiry and bound account match |
| `AuthStoreModel.AuthStore.CreatePasskeyAccount` | packages/db/src/auth-store.ts:1206-1250 | settles as the specified creation of an account, its passkey and its session, revoking the previous session |
| `AuthStoreModel.AuthStore.LoginPasskey` | packages/db/src/auth-store.ts:589-689 | settles as the specified login, although the previous session is deleted before the snapshot is compared: a mismatch brings it back |
| `AuthStoreModel.AuthStore.CompareAndSet` | packages/db/src/auth-store.ts:647-679 | the update happens exactly when account, device type, counter, backup flag and public key are the expected ones, and changes nothing else |
| `AuthStoreModel.AuthStore.LoginWallet` | packages/db/src/auth-store.ts:1255-1338 | settles as the specified login of a known wallet, or as the creation of an account for a new one |
| `AuthStoreModel.AuthStore.Logout` | packages/db/src/auth-store.ts:725-733 | settles as the specified deletion of one session |
| `AuthStoreModel.AuthStore.AddPasskey` | packages/db/src/auth-store.ts:735-761 | settles as the specified insertion, with the ten-passkey limit |
| `AuthStoreModel.AuthStore.LinkWallet` | packages/db/src/auth-store.ts:763-791 | settles as the specified insertion, with the ten-wallet limit |
| `AuthStoreModel.AuthStore.ReplaceRecoveryCodes` | packages/db/src/auth-store.ts:797-828 | the one-by-one insertion of eight distinct codes after deleting the old ones settles as one replacement, or as none when any code is taken |
| `AuthStoreModel.AuthStore.RedeemRecoveryCode` | packages/db/src/auth-store.ts:833-866 | settles as the specified redemption |
| `AuthStoreModel.AuthStore.LockFreshSession` | packages/db/src/auth-store.ts:1051-1098 | returns exactly the sessions that are live and at most five minutes old on both the database clock and the process clock, of an active account |
| `AuthStoreModel.AuthStore.LockAccountsSorted` | packages/db/src/auth-store.ts:1042-1049 | the computed lock order is the ascending list of exactly the distinct given accounts |
| `AuthStoreModel.SortedOrderIsPlanned` | packages/db/src/auth-store.ts:1042-1049 | locking any such ascending list, null accounts dropped, is the lock sequence the concurrency results assume |
| `RateLimit.RateLimits.Consume` | packages/db/src/auth-store.ts:871-893 | one call's new rows and answer, including the range checks and the overflow of the counter column |
| `RateLimit.RateLimits.Purge` | packages/db/src/auth-store.ts:899-939 | the bounded purge (1 to 10000) deletes an oldest-first selection of the rows more than 86400 seconds old, of the size of the limit or all there are, and nothing else |
| `RateLimit.RefusedIff` | packages/db/src/auth-store.ts:871-893 | a call is refused exactly for a limit outside 1 to 1000000, a window outside 1 to 86400 seconds or a full counter, and then stores nothing |
| `RateLimit.CallCounts` | packages/db/src/auth-store.ts:871-893 | a counted call adds one to the row of the aligned window that holds its second, and is allowed exactly within its limit |
| `RateLimit.LiveRowsCountHits` | packages/db/src/auth-store.ts:228-234 | in every run of calls and purges with a clock that never runs backwards, the row of a window that can still be called into counts every earlier hit: the purge cannot have taken it |
| `RateLimit.AllowedIff` | packages/db/src/auth-store.ts:871-893 | a call is allowed exactly when fewer than its limit counted against its window before it, however purges interleave |
| `RateLimit.WindowBound` | packages/db/src/auth-store.ts:871-893 | at most the limit is allowed per aligned window |
| `RateLimit.IntervalBound` | packages/db/src/auth-store.ts:871-893 | at most twice the limit is allowed in any interval as long as the window, however it is aligned |
| `RateLimit.IntervalBoundIsReached` | packages/db/src/auth-store.ts:871-893 | for every limit and window some run is allowed twice the limit within one window length, so the bound is exact |
| `PaymentAttempts.ShapesCompared` | packages/db/src/control-payment-attempt-store.ts:566-575 | the table's state check is the projection's closed shape plus exactly the rules on when observed fields are set |
| `PaymentAttempts.ProjectionIsWeaker` | packages/db/src/control-payment-attempt-store.ts:508-575 | the projection alone admits a row the table's check refuses |
| `PaymentAttempts.EdgesGrow` | packages/db/migrations/0015_payment_attempts.sql:1114-1210 | every update the table's trigger lets through keeps binding, instants and recorded facts and never lowers the state |
| `PaymentAttempts.PersistIff` | packages/db/migrations/0015_payment_attempts.sql:1586-1810 | a first persist succeeds exactly when the binding is well formed and hashes to the digest for the chain's payee, grant and id are vacant and live, the grant is unexpired, the validity window fits in seconds, and the binding derived from the chain hashes to the same digest; it stores the presented binding |
| `PaymentAttempts.ReplayIff` | packages/db/migrations/0015_payment_attempts.sql:1586-1810 | a replay answers the grant's own attempt unchanged, exactly for its id, its digest and its bound fields |
| `PaymentAttempts.PersistRefusals` | packages/db/migrations/0015_payment_attempts.sql:1586-1810 | the error of each refused persist: an expired grant, a conflict and an invalid input each exactly when; anything else needs two bindings with one digest |
| `PaymentAttempts.PersistStoresBinding` | packages/db/migrations/0015_payment_attempts.sql:1586-1810 | what a success returns carries the presented binding under its own hash, even where digests collide |
| `PaymentAttempts.DispatchIff` | packages/db/migrations/0015_payment_attempts.sql:1813-1965 | a dispatch succeeds exactly on a persisted row of the same digest with a live, unexpired chain and enough validity left, sets only state and instant, and never succeeds on the result again |
| `PaymentAttempts.DispatchRefusals` | packages/db/migrations/0015_payment_attempts.sql:1813-1965 | the error of each refused dispatch: no attempt, or an expired grant or too little validity, each exactly when, and a conflict otherwise |
| `PaymentAttempts.ObserveIff` | packages/db/migrations/0015_payment_attempts.sql:1968-2066 | an observation is recorded exactly when it moves a dispatched attempt forward without changing a recorded fact |
| `PaymentAttempts.RecordableIff` | packages/db/migrations/0015_payment_attempts.sql:1968-2066 | the closed input of the recorder |
| `PaymentAttempts.ObserveLeasedIff` | packages/db/migrations/0017_settlement_observation.sql:132-300 | a leased recording is the plain one exactly while the caller's generation is the lease's and the lease has not run out, and otherwise records nothing |
| `PaymentAttempts.ClaimIff` | packages/db/migrations/0017_settlement_observation.sql:132-300 | an attempt can be claimed exactly while dispatched, not committed, claimed fewer than ten times and under no running lease; the claim opens the next generation for 120 seconds |
| `PaymentProtocol.SentAtMostOnce` | packages/db/src/control-payment-attempt-store.ts:614-690 | with any number of agents and observers, crashes, retries, lost transactions and lost commit replies, no attempt is sent twice |
| `PaymentProtocol.SendFollowsDurableDispatch` | packages/db/src/control-payment-attempt-store.ts:660-690 | a process that may send holds the only clearance of an attempt whose dispatch is durable, which was never sent, and whose digest is the dispatched one |
| `PaymentProtocol.AttemptsOnlyGrow` | packages/db/src/control-payment-attempt-store.ts:614-690 | over any continuation of any run an attempt keeps its binding and recorded facts and its state only rises through persisted, unknown, pending, committed |
| `PaymentProtocol.ReachableRowsProject` | packages/db/src/control-payment-attempt-store.ts:566-575 | every reachable row satisfies the closed shape the projection demands |
| `PaymentProtocol.LostClearanceIsFinal` | packages/db/src/control-payment-attempt-store.ts:885-895 | an attempt whose dispatch is durable but whose clearance is gone, by a lost reply or a crash, is never sent |
| `PaymentProtocol.ObservationsAreFenced` | packages/db/migrations/0017_settlement_observation.sql:132-300 | an attempt is recorded at most once per lease generation and at most ten times in all, and leases exist only for dispatched attempts |
| `PaymentProtocol.SomeRunSends` | packages/db/src/control-payment-attempt-store.ts:614-690 | the protocol is not empty: some run sends |
| `PaymentProtocol.CommitEffects` | packages/db/src/control-payment-attempt-store.ts:614-690 | a commit writes its one row and nothing else, or nothing at all when it inserts a payer and nonce that are taken; only a delivered dispatch clears its process to send |
| `PaymentProtocol.ClaimEffects` | packages/db/migrations/0017_settlement_observation.sql:132-300 | a claim leases exactly the attempts it names, each under its next generation |
| `PaymentProtocol.ReleaseEffects` | packages/db/migrations/0017_settlement_observation.sql:132-300 | a release ends the lease of its own generation and keeps its counts, and changes nothing under any other generation |
| `SettlementLoop.DecisionsArePositive` | apps/worker/src/settlement-observation.ts:229-286 | a decision records exactly for a positive exposure, with exactly the classified state, transfer, gateway status and batch, and what it records is in the recorder's closed input |
| `SettlementLoop.SettlementObservationLoop.RunLoop` | apps/worker/src/settlement-observation.ts:406-470 | the loop, with its processed set, back-off and error counter, computes the specified run for every script of claim results, answers, stops and aborts; it ends on its own only after a stop request or at its bound on failed claims |
| `SettlementLoop.SettlementObservationLoop.ProcessBatch` | apps/worker/src/settlement-observation.ts:472-497 | the batch loop processes the attempts in order until the deadline or an abort and returns the count of applied records; what it asks, records and releases is stated by the five rows below |
| `SettlementBatches.BatchDoesItsPlan` | apps/worker/src/settlement-observation.ts:472-541 | a batch that nothing cuts off asks, in order, about exactly the attempts whose binding parses and whose lease, if any, ends after the instant of their turn; it records exactly the positive answers, releases exactly the other questions and the unreadable attempts, and counts exactly the applied records |
| `SettlementBatches.QuestionsAreTheDue` | apps/worker/src/settlement-observation.ts:472-497 | so an attempt is asked about if and only if at one of its turns its binding parses and its lease is absent or still running |
| `SettlementBatches.LeasedAttemptCounts` | apps/worker/src/settlement-observation.ts:499-541 | an attempt under a running lease whose positive answer is applied is asked about, recorded as classified and counted as one |
| `SettlementBatches.CutBatchStops` | apps/worker/src/settlement-observation.ts:472-497 | from the deadline or an abort on, the batch does nothing more |
| `SettlementBatches.QuestionCutOff` | apps/worker/src/settlement-observation.ts:499-541 | a question during which the deadline fires or an abort arrives is the batch's last, and nothing is recorded after it |
| `SettlementLoop.SettlementObservationLoop.ProcessOne` | apps/worker/src/settlement-observation.ts:499-541 | asks, decides, then releases the lease or records, each await open to stop, abort and deadline; an attempt counts only if its question was not cut off, no abort came before the record and the record was applied |
| `SettlementLoop.RequestsAreObeyed` | apps/worker/src/settlement-observation.ts:394-404 | over every script: after an abort request nothing is asked and no observation is recorded, and after a stop request nothing is claimed |
| `SettlementSweep.EveryWriteIsJustified` | apps/worker/src/settlement-observation.ts:499-541 | every durable write follows an unaborted positive classification of the binding rebuilt from that same leased attempt, with at most stop requests in between, and records that classification's decision |
| `SettlementSweep.HoldsOnlyRelease` | apps/worker/src/settlement-observation.ts:499-541 | a question that ends in a hold is followed by the release of its lease, with only stop and abort requests in between, so by no write |
| `SettlementSweep.BatchCountsRecordings` | apps/worker/src/settlement-observation.ts:472-497 | each batch returns the number of confirmed recordings it made |
| `SettlementSweep.AskedOncePerSweep` | apps/worker/src/settlement-observation.ts:406-470 | if no claim lists an attempt twice, two questions about one attempt are separated by a clear of the processed set |
| `SettlementSweep.BatchAsksOnceIff` | apps/worker/src/settlement-observation.ts:472-497 | a batch asks about each attempt at most once, whatever happens during it, exactly when it lists none twice |
| `SettlementSweep.WaitsAreCappedDoublings` | apps/worker/src/settlement-observation.ts:406-470 | every wait is the poll interval doubled once per wait since the last advance, capped |
| `SettlementSweep.FailuresAreBounded` | apps/worker/src/settlement-observation.ts:406-470 | the error counter is the trailing run of failed claims, and reaching the bound stops the loop |
| `SettlementSweep.FailingStoreTotal` | apps/worker/src/settlement-observation.ts:406-470 | an always-failing store costs exactly the first bound-1 delays |
| `SettlementOrder.EventsAreOrdered` | apps/worker/src/settlement-observation.ts:406-470 | each event of the loop is fixed by the one before: a wait follows a failed claim, a clear or a batch without a record, a claim follows a wait or any other batch, and while it runs the loop is never left in between |
| `SettlementOrder.ClaimsAreSorted` | apps/worker/src/settlement-observation.ts:406-470 | every successful claim is followed by a batch of exactly its attempts that no claim since the last clear listed, or by a clear if there are none: after a clear every attempt can be asked about again |
| `SettlementOrder.LoopGoesOn` | apps/worker/src/settlement-observation.ts:406-470 | a loop that has not ended and is not asked to stop claims again |
| `Backoff.DelayClosedForm` | apps/worker/src/worker.ts:206-246 | after k waits the delay is the smaller of poll times two to the k and the cap |
| `Backoff.ClosedFormNeedsOrder` | apps/worker/src/config.ts:119 | that closed form holds for every k if and only if the poll interval does not exceed the cap, which the configuration checks |
| `Backoff.TotalIsGeometric` | apps/worker/src/settlement-observation.ts:406-470 | while the cap is not reached the waits sum to the geometric total |
| `Backoff.TotalIsCapped` | apps/worker/src/settlement-observation.ts:406-470 | the total wait never exceeds the number of waits times the cap |
| `WorkerLoop.Worker.ProcessEvent` | apps/worker/src/worker.ts:265-283 | the synchronous start of an event: its handler is called exactly when the event is valid, its lease is not over and the batch is not late; other events settle or, if nameable, are failed as invalid |
| `WorkerLoop.Worker.Invoked` | apps/worker/src/worker.ts:307-349 | the outcome of the race, for each case exactly when: a timeout wins over an abort, an abort or deadline over the handler's own result, and an undisturbed handler gets its own |
| `WorkerLoop.Worker.AcknowledgeEvent` | apps/worker/src/worker.ts:284-304 | after the handler: exactly one acknowledgement if and only if neither stop nor deadline nor an aborted outcome, a completion for a handler that returned and the matching failure code for each other outcome |
| `WorkerLoop.Worker.ClaimReturned` | apps/worker/src/worker.ts:226-240 | a claim's answer resets the error counter and then ends the loop after a stop, sleeps the current back-off on an empty claim, and otherwise starts a batch of all claimed events |
| `WorkerLoop.Worker.SleepEnded` | apps/worker/src/worker.ts:206-246 | a sleep doubles the back-off up to its cap and is followed by the next claim, or by the end after a stop |
| `WorkerLoop.Worker.ClaimRejected` | apps/worker/src/worker.ts:213-225 | a failed claim counts, and ends the loop exactly at the bound |
| `WorkerSafety.AcksAreSafe` | apps/worker/src/worker.ts:284-391 | over every run each claimed event gets at most one complete-or-fail call, and none after a stop request or after its batch's deadline |
| `WorkerSafety.CompletionsAreEarned` | apps/worker/src/worker.ts:265-349 | a completion is preceded, in this order, by the handler call of a claimed event that is valid, by that handler's own return, and by a decision made without timeout or abort |
| `WorkerSafety.FailuresAreEarned` | apps/worker/src/worker.ts:284-304 | a failure code names what happened: the handler threw, timed out or rejected the event, or the event never reached a handler |
| `WorkerSafety.ClaimsWait` | apps/worker/src/worker.ts:248-263 | no claim is issued after a stop, or before every dispatched event of earlier batches has settled |
| `WorkerSafety.SleepsAreCappedDoublings` | apps/worker/src/worker.ts:206-246 | every sleep is the poll interval doubled once per sleep since the last non-empty batch, capped |
| `WorkerSafety.ClaimFailuresAreBounded` | apps/worker/src/worker.ts:213-225 | the error counter is the trailing run of failed claims and the loop has ended when it reaches the bound |
| `WorkerSafety.FailingStoreTotal` | apps/worker/src/worker.ts:206-246 | an always-failing store costs exactly the first bound-1 delays, then the worker has ended |
| `WorkerAborts.AckCanFollowIff` | apps/worker/src/worker.ts:200-204 | from any point of any run, aborted or not, an acknowledgement can still follow if and only if no stop was requested and the loop has not ended: the promise written beside abort holds exactly when a stop was requested too, or the loop is over |
| `WorkerAborts.EventCanAckIff` | apps/worker/src/worker.ts:200-349 | event by event, at any point of any run: an event of the batch in hand can still be acknowledged if and only if no stop was requested, the batch is within its deadline, and the event is not yet started and valid or nameable, or has timed out, or its race is undecided, or its handler finished with no abort since, or it is decided other than aborted |
| `WorkerAborts.AcksAfterAbort` | apps/worker/src/worker.ts:200-304 | whatever is still acknowledged after an abort was decided before it, or is the failure of a handler that timed out, or of an event that reached no handler |
| `WorkerAborts.AbortedBatchCanStillFail` | apps/worker/src/worker.ts:307-349 | one such run: an abort before dispatch, no stop, and a handler timeout whose failure is acknowledged |
| `WorkerAborts.HandlersWake` | apps/worker/src/worker.ts:307-349 | a batch deadline and a first abort wake every running handler: each can decide at once, as timed out if it was, else as aborted |
| `WorkerRuntime.Runtime.Bootstrap` | apps/worker/src/runtime.ts:137-142 | the bootstrap up to the pending initialization: a pool or store that throws at the start rejects ready, fails the runtime and ends a created pool; otherwise initialization is pending and ready untouched |
| `WorkerRuntime.Runtime.Initialized` | apps/worker/src/runtime.ts:142-160 | initialization has resolved: nothing is built after a stop request, else a loop is built and ready resolves |
| `WorkerRuntime.Runtime.Shutdown` | apps/worker/src/runtime.ts:177-198 | a first shutdown request starts draining a running loop and tells it to stop, or goes straight to the wait for the bootstrap if there is none; a later one changes nothing at all |
| `WorkerRuntime.Runtime.DrainWaited` | apps/worker/src/runtime.ts:183-190 | a drain in time leads on; one that times out aborts the loop and waits again |
| `WorkerRuntime.ShutdownDrains` | apps/worker/src/runtime.ts:177-199 | in every reachable state the loop was told to stop exactly if one is built and a shutdown was requested, and the shutdown is past its drain only once the loop has settled or was aborted |
| `WorkerRuntime.DrainComesFirst` | apps/worker/src/runtime.ts:177-199 | over runs: with a loop built at the first stop request, the shutdown reaches its wait for the bootstrap, and so its pool close, only after a drain in which the loop settled, or a timed-out drain followed by that of the aborted loop; with none built it is there at once |
| `WorkerRuntime.Runtime.BootstrapClosed` | apps/worker/src/runtime.ts:169-173 | the end of the bootstrap settles stopped and the final state |
| `WorkerRuntime.PoolEndsOnce` | apps/worker/src/runtime.ts:124-135 | over every interleaving the pool end is called at most once, and exactly once by the time stopped settles if a pool was created |
| `WorkerRuntime.PromisesSettleOnce` | apps/worker/src/runtime.ts:102-122 | ready and stopped are settled at most once; ready resolves exactly when a loop was built and rejects exactly on failure |
| `WorkerRuntime.TerminalIsFinal` | apps/worker/src/runtime.ts:137-199 | once a stop is requested no loop is ever built, and failed and stopped are final |
| `WorkerRuntime.ShutdownAlwaysSettles` | apps/worker/src/runtime.ts:177-199 | once a stop is requested, in every run and however the bootstrap interleaves, the shutdown takes at most four steps of its own; while it has not finished its next wait can time out; and when it has finished, stopped has settled, the state is final and the pool is ended |
| `WorkerRuntime.ShutdownSettlesAlone` | apps/worker/src/runtime.ts:177-199 | from any state with a stop requested, at most four timeouts of the shutdown's own bounded waits settle stopped, even if initialization, the loop and the pool end hang for ever |
| `WorkerRuntime.NeverReadyIff` | apps/worker/src/runtime.ts:144-160 | during initialization, ready stays pending in every continuation if and only if a stop has been requested |
| `WorkerRuntime.ReadyPendingIff` | apps/worker/src/runtime.ts:142-167 | once initialization has settled, ready is pending if and only if a stop was requested before it settled |
| `WorkerRuntime.EarlyStopNeverReady` | apps/worker/src/runtime.ts:144-146 | a stop during initialization leaves ready pending for ever |
| `Calendar.DaysInMonthIsGregorian` | packages/db/src/control-action-store.ts:308-310 | the two-digit-year mapping of Date.UTC makes the month length differ from the Gregorian one for February of the year zero and for no other month of any year |
| `Calendar.DateRoundTrip` | packages/db/src/control-action-store.ts:330-345 | the day number of a valid date gives that date back |
| `Calendar.DayOrder` | packages/db/src/control-action-store.ts:330-345 | day numbers order valid dates exactly as dates are ordered |
| `Calendar.DaysAreCounted` | packages/db/src/control-action-store.ts:330-345 | day numbers from scratch: the epoch is day zero, each day of a month is one more than the one before, and the first of a month one more than the last of the month before, by the Gregorian lengths |
| `Timestamps.IsoOrdersInstants` | packages/db/src/control-action-store.ts:312-352 | two accepted texts whose normalised year is at most 9999 give equal strings exactly when they denote the same instant, and ordered strings exactly when the instants are so ordered |
| `Timestamps.IsoTextsOrderInstants` | packages/db/src/control-action-store.ts:312-352 | the same for the texts themselves, from the pattern match on |
| `Timestamps.ExpandedYearIff` | packages/db/src/control-action-store.ts:312-352 | the result always has 27 characters, and starts with a digit, not a sign, exactly when the normalised year is at most 9999 |
| `Timestamps.ComparesIff` | packages/db/src/control-action-store.ts:312-352 | an accepted text compares as its instant does with every accepted text of a year up to 9999 if and only if its own normalised year is at most 9999 |
| `Timestamps.LateSortsFirst` | packages/db/src/control-action-store.ts:312-352 | a text past the year 9999 sorts before every text that is not, although it is the later instant |
| `Timestamps.LateOrder` | packages/db/src/control-action-store.ts:312-352 | two texts past the year 9999 are equal exactly when their minute and microseconds agree, and are ordered by these two |
| `Timestamps.LateInstantsCollide` | packages/db/src/control-action-store.ts:312-352 | so past the year 9999 two different instants give one string |
| `Timestamps.ParsePrint` | packages/db/src/control-action-store.ts:312-330 | every printed database timestamp, in each of the three offset styles, is matched with exactly the fields it was printed from |
| `Timestamps.IsoIff` | packages/db/src/control-action-store.ts:312-345 | a matched text is normalised exactly when its fields name a Gregorian date of the years 1 to 9999, a time of day and an offset below 24 hours |
| `Timestamps.IsoReadsBack` | packages/db/src/control-action-store.ts:330-352 | up to the year 9999 the result is a date and time of UTC in fixed form, and its digits read back give the local time of the text less its offset, west negative, to the last digit of the fraction |
| `Json.ParseStringify` | packages/db/src/control-policy-mutations.ts:143-207 | the parser is a left inverse of JSON.stringify on strings, nulls, booleans, numbers, nested arrays and objects, escapes included |
| `Json.LongEscapes` | packages/db/src/control-policy-mutations.ts:143-207 | which units are written raw, and how controls and lone surrogates are escaped |
| `Json.PrintedMarks` | packages/db/src/control-policy-mutations.ts:143-207 | the punctuation of arrays, members and strings |
| `Json.BytesDetermineValue` | packages/db/src/control-policy-mutations.ts:169-207 | the UTF-8 bytes under a digest determine the printed value |
| `DigestPreimages.ContentIsDetermined` | packages/db/src/control-policy-mutations.ts:143-183 | two policy contents hash the same bytes only if every field, list order included, is the same |
| `DigestPreimages.ContentPositions` | packages/db/src/control-policy-mutations.ts:143-175 | the seventeen positions of a content preimage, in their order |
| `DigestPreimages.RequestIsDetermined` | packages/db/src/control-policy-mutations.ts:185-249 | two policy requests hash the same bytes only if they are the same operation with every field the same |
| `DigestPreimages.BindingIsDetermined` | packages/db/src/control-payment-attempt-store.ts:375-380 | the sorted-key object text determines the value of every key of a payment binding |
| `DigestPreimages.SortedKeysAreBindingKeys` | packages/db/src/control-payment-attempt-store.ts:375-380 | sorting the keys of a binding gives one fixed order, however the object was built |
| `DigestPreimages.EndpointTextIsDetermined` | packages/db/src/market-lifecycle-mutations.ts:132-142 | the line-feed-joined review text determines listing, version, origin and path |
| `DigestPreimages.EndpointBytesIff` | packages/db/src/market-lifecycle-mutations.ts:132-142 | two endpoints hash the same bytes exactly when their fields agree after lone surrogates are replaced |
| `DigestPreimages.WellFormedEndpointIsDetermined` | packages/db/src/market-lifecycle-mutations.ts:132-142 | on well-formed strings the bytes determine the endpoint |
| `DigestPreimages.LoneSurrogatesCollide` | packages/db/src/market-lifecycle-mutations.ts:78-84 | two accepted endpoints that differ in a lone surrogate hash the same bytes |
| `Utf16.SameBytesIff` | packages/db/src/control-policy-mutations.ts:87-90 | two strings have the same UTF-8 bytes exactly when they have the same scalars, lone surrogates all reading as the replacement character |
| `Utf16.SurrogateBytes` | packages/db/src/control-policy-mutations.ts:87-90 | a surrogate pair is the four bytes of its scalar, half a pair the three bytes of the replacement character |
| `Base64Url.BytesAreNumbers` | packages/db/src/auth-store.ts:470-472 | a byte written as four two-bit digits stands for exactly one of the numbers 0 to 255 |
| `Base64Url.DecodeEncode` | packages/db/src/auth-store.ts:301-313 | decoding undoes encoding for every byte string |
| `Base64Url.EncodeIsRadix` | packages/db/src/auth-store.ts:301-313 | three bytes and their four characters are the digits of one number, in base 256 and in base 64 |
| `Base64Url.EncodeEnds` | packages/db/src/auth-store.ts:301-313 | two last bytes become three characters and one last byte two, filled with zero bits and without padding |
| `Base64Url.AlphabetInOrder` | packages/db/src/auth-store.ts:301-313 | the alphabet of section 5 of RFC 4648, in its order |
| `Base64Url.EncodeDecodeIff` | packages/db/src/auth-store.ts:301-313 | encoding undoes decoding exactly on texts with no dangling character and no stray bits in the last one |
| `Base64Url.AcceptedAreEncodings` | packages/db/src/auth-store.ts:301-313 | the accepted texts are exactly the encodings of nonempty byte strings whose text length is in range |
| `Base64Url.FortyThree` | packages/db/src/auth-store.ts:216 | a 43-character text over the alphabet survives decode and re-encode exactly when its last character is one of AEIMQUYcgkosw048 |
| `Base64Url.TwentyTwo` | packages/db/src/credential-mutations.ts:104-122 | a 22-character text survives exactly when its last character is one of AQgw |
| `Base64Url.HandlesAreThirtyTwoBytes` | packages/db/src/auth-store.ts:470-472 | the user-handle pattern, the 32-byte credential parser and the encodings of 32 bytes accept one and the same set of texts |
| `Base64Url.SaltsAreSixteenBytes` | packages/db/src/credential-mutations.ts:104-122 | the 16-byte parser accepts exactly the encodings of 16 bytes |
| `JsonTree.InspectJson` | packages/shared/src/agent-import.ts:73-89 | the explicit-stack walk gives the answer of the recursive walk, error code included, after at most 8193 pops |
| `JsonTree.InspectionIff` | packages/shared/src/agent-import.ts:73-89 | a tree is accepted exactly when it has at most 8192 nodes, is at most 16 deep, and has no forbidden key or key-value pair at any depth |
| `JsonTree.RejectionIsTrue` | packages/shared/src/agent-import.ts:78-86 | each rejection names a fault the tree has: a signature entry, or too many nodes, too much depth or a reserved key |
| `ImportTimes.CompareIsExact` | packages/shared/src/primitives.ts:67-87 | the comparison of two readable timestamps is that of their instants at any precision that holds both, however many fractional digits each has |
| `ImportTimes.NotAfterTransitive` | packages/shared/src/primitives.ts:67-87 | not-after is transitive across different precisions |
| `AgentImport.LateEvents` | packages/shared/src/agent-import.ts:35-42 | the refinement finds exactly the events after the capture, in order, or throws exactly when some compared time cannot be read |
| `AgentImport.ParseAgentImport` | packages/shared/src/agent-import.ts:53-71 | the sequence of checks gives the specified result and error code |
| `AgentImport.ImportedIff` | packages/shared/src/agent-import.ts:61-71 | a parsed tree becomes an import exactly when it passes the walk, has the version and shape, and its times are readable and in order |
| `AgentImport.ThrownIff` | packages/shared/src/agent-import.ts:35-71 | an error that is none of the import's codes escapes exactly when the decoded tree is admitted by walk, version and schema and the capture time, an event's time or, with no event late, the evaluation time cannot be read |
| `AgentImport.ImportRefusals` | packages/shared/src/agent-import.ts:53-89 | what each error code says: too large, not UTF-8 and not JSON each exactly when; a signature, a version or a future capture is really there |
| `AgentImport.VersionIsTold` | packages/shared/src/agent-import.ts:61-71 | a wrong version is reported as such whenever the walk finds nothing wrong |
| `AgentImport.AcceptedIsOrdered` | packages/shared/src/agent-import.ts:35-71 | in an accepted import every event is no later than the capture, the capture no later than the evaluation, and so every event no later than the evaluation |
| `KeysetPaging.PageIsGapless` | packages/db/src/control-policy-store.ts:706-735 | a page holds rows of the table above the cursor in order, and skips none up to the cursor it hands out |
| `KeysetPaging.TraversalAscends` | packages/db/src/control-policy-store.ts:698-748 | following the cursors lists items in ascending order, so none twice, also while the table changes |
| `KeysetPaging.PresentIsListed` | packages/db/src/control-grant-store.ts:938-983 | a row present in every table read is listed, whatever is inserted or removed meanwhile |
| `KeysetPaging.ItemsWerePresent` | packages/db/src/control-grant-store.ts:938-983 | every listed item was in the table when its page was read |
| `KeysetPaging.TraversalEnds` | packages/db/src/control-policy-store.ts:698-748 | when only rows of a finite set ever appear, the traversal ends: each page but the last uses up a full limit of them |
| `KeysetPaging.StaticTraversal` | packages/db/src/control-policy-store.ts:698-748 | over an unchanging table, for every table and limit, the pages list each row exactly once in ascending order and end |
| `PagedLists.RequirePage` | packages/db/src/control-policy-store.ts:254-260 | no limit means 25, a number from 1 to 50 is taken, and any other is refused |
| `PagedLists.ListPolicyRoots` | packages/db/src/control-policy-store.ts:698-748 | the page is returned exactly when all looked-ahead rows are of the organization, strictly ascending and above the cursor, and is then the kept rows and their cursor |
| `PagedLists.ListPolicyRevisions` | packages/db/src/control-policy-store.ts:786-851 | the same for revisions in numeric order, with one policy and one subject for the whole page |
| `PagedLists.PageOfNumbers` | packages/db/src/control-policy-store.ts:786-851 | an accepted page of revision texts is the page of their numbers, and each text is its number's canonical decimal |
| `PagedLists.ListGrants` | packages/db/src/control-grant-store.ts:938-983 | the same for grants, where an empty answer is one marked row |
| `PagedLists.HonestRoots` | packages/db/migrations/0008_control_policies.sql:1364-1371 | what the database returns passes the store's checks and is the page of the keyset order; so for the two below |
| `PagedLists.HonestGrants` | packages/db/migrations/0018_operator_reads.sql:389-410 | the database's grant rows pass the checks and give the keyset page |
| `PagedLists.HonestRevisions` | packages/db/migrations/0008_control_policies.sql:1486-1493 | the database's revision rows pass the checks and give the numeric keyset page |
| `PagedLists.RevisionsListedOnce` | packages/db/src/control-policy-store.ts:786-851 | a client that follows the text cursors of the revisions over an unchanging table gets to the end and is given each revision's text exactly once, in numeric order |
| `RevisionIds.RevisionNumberIff` | packages/shared/src/commerce/control-policy.ts:44-61 | a revision text is the decimal text of a number from 1 to 999999999, and no other text is one |
| `RevisionIds.WorkerRevisionIff` | apps/worker/src/handlers.ts:140-147 | the worker's pattern accepts exactly the decimal texts of 2 to 999999999 |
| `RevisionIds.RecognisedIff` | apps/worker/src/handlers.ts:140-151 | the worker recognises exactly the texts policy@n with a canonical policy id and n from 2 to 999999999 |
| `RevisionIds.PolicyIdIff` | apps/worker/src/handlers.ts:140-151 | a canonical policy id is the fixed prefix and a lower-case UUID of a known version and variant |
| `RevisionIds.ResourceIdIsUnique` | packages/db/src/control-policy-mutations.ts:268-272 | a printed id determines its policy and its revision |
| `RevisionIds.PrintedIsRecognisedIff` | packages/db/src/control-policy-mutations.ts:267-272 | the worker recognises a printed id exactly when its revision is not 1, although the printing side is described as starting at 2 |
| `RevisionIds.AppendIsRecognised` | packages/db/src/control-policy-mutations.ts:110-121 | every revision accepted for an append has a successor from 2 to 999999999 whose id is recognised, and only the maximum is refused |
| `RevisionIds.AppendAddsNext` | packages/db/migrations/0008_control_policies.sql:1091-1130 | an append adds exactly the next revision, or changes nothing |
| `RevisionIds.AppendIff` | packages/db/migrations/0008_control_policies.sql:1091-1130 | an append succeeds exactly when it is admitted, expects the current revision and that is below the maximum; each refusal has its own exact condition |
| `RevisionIds.AppendedId` | packages/db/src/control-policy-store.ts:664-670 | the id the database mints is the one the store expects in the receipt |
| `RevisionIds.AppendedIsRecognised` | apps/worker/src/handlers.ts:140-151 | the worker recognises every id the database mints |
| `RevisionIds.MintedAreConsecutive` | packages/db/migrations/0008_control_policies.sql:1091-1130 | over any sequence of append attempts the minted ids are those of consecutive revisions, all recognised |
| `RevisionIds.MintedAreDistinct` | packages/db/migrations/0008_control_policies.sql:1091-1130 | no id is minted twice |
| `Transactions.Client.WithTransaction` | packages/db/src/control-policy-store.ts:1373-1410 | the wrapper, in its three variants, computes the specified world and outcome for every combination of replies, losses and throwing releases; what the outcome is for each is stated by the rows below |
| `Transactions.ReturnedIff` | packages/db/src/control-policy-store.ts:1373-1418 | the caller gets the work's result exactly when BEGIN and the set-up were answered, the work returned, COMMIT was answered and, outside the guarded stores, the release did not throw |
| `Transactions.UnknownIff` | packages/db/src/control-policy-store.ts:1373-1418 | the outcome is unknown exactly when the work returned, the COMMIT reply failed, the store is not the account store and no release error was seen |
| `Transactions.UnavailableIff` | packages/db/src/control-policy-store.ts:1373-1418 | the store is reported unavailable exactly without a connection or, outside the account store, without a begun transaction |
| `Transactions.ErrorsIff` | packages/db/src/control-payment-attempt-store.ts:860-895 | the caller sees the handler's error exactly when the work failed, or in the account store BEGIN or COMMIT did, and the exception of a throwing release exactly when nothing guards it |
| `Transactions.ReusedIff` | packages/db/src/control-grant-store.ts:1307-1345 | the client goes back to the pool exactly after an answered COMMIT of returned work, or an answered ROLLBACK |
| `Transactions.ReleasedOnce` | packages/db/src/control-policy-store.ts:1373-1418 | a connected client is released exactly once, and returns to the pool only without an open transaction |
| `Transactions.DatabaseIff` | packages/db/src/control-grant-store.ts:1307-1345 | the database becomes what the work left pending exactly when the server committed, and is otherwise unchanged |
| `Transactions.SuccessIsConfirmed` | packages/db/src/control-payment-attempt-store.ts:860-895 | a returned result has a confirmed COMMIT behind it, and its work is in the database unless the transaction had been aborted |
| `Transactions.HonestErrorsChangeNothing` | packages/db/src/control-policy-store.ts:1373-1418 | a definite error of a call the server did not commit leaves the database as it was |
| `Transactions.GuardedErrorsAreHonest` | packages/db/src/control-policy-store.ts:1373-1418 | the stores that guard the release never report a definite error for a committed call, and their definite errors mean an unchanged database |
| `Transactions.BareErrorsAreHonestIff` | packages/db/src/control-grant-store.ts:1307-1345 | the grant and payment stores report a definite error for a committed call exactly when the release throws |
| `Transactions.JointErrorsAreHonestIff` | packages/db/src/auth-store.ts:945-970 | the account store reports a definite error for a committed call exactly when the reply of a COMMIT that took was lost, or a confirmed COMMIT is followed by a throwing release |
| `Transactions.LostCommitLooksLikeRollback` | packages/db/src/auth-store.ts:945-970 | two calls of the account store with the same error, one committed and one not |
| `Transactions.HonestHistory` | packages/db/src/control-policy-store.ts:1373-1418 | after any sequence of guarded calls the database is the replay of every call that returned, none that failed definitely, and some of the unknown ones |

## Left out

- Implicit waits: unique indexes and foreign keys can make a statement wait; here a violation is decided when the transaction commits, and only the explicit locks are waited for.
- `purgeExpired` in the deadlock result: it deletes challenges and sessions without an account lock. In the interleaving model it is one atomic step on rows nobody has locked, and may take any expired rows; `RateLimit` has its oldest-first selection.
- Two failed writes in one transaction: which of two unique violations is reported first is not distinguished.
- `getSession`, `findPasskey` and the read-only attempt lookups: single reads without state.
- Input grammars of the account store (64 hex digits, ids, addresses, counters): typed away, except the canonical base64url texts, the credential rules and the counter bound.
- Registering listing terms and verified requirements: the authority chain behind an attempt is one record of whether it is live and unexpired.
- Claim selection: a claim may pick any claimable attempts; the limit and the order of the SQL selection are not modelled. A claim is one step here; the SQL reads leases in its statement's snapshot while it locks attempt rows and skips locked ones, so two workers may claim one attempt one after the other from a stale lease read, each with its own lease generation.
- The order of rate-limit calls: the trace of `RateLimit` is ordered both by commit and by clock; concurrent statements whose clock reads and row updates happen in different orders are not modelled.
- Budget ledger, agent action and policy mutation bodies other than the revision append are not part of this model.
- SHA-256 and scrypt: results are about the bytes hashed. The other digest modules use the same JSON-array shape as the policy digests, which `Json.BytesDetermineValue` covers.
- `iso` of a `Date` object and the millisecond forms of the other stores' `iso`: the text branch is modelled.
- `Date.parse` of dates that are not Gregorian, and the timestamp schema itself: parameters in `ImportTimes` and `AgentImport`.
- Which error an import with both a schema fault and a late event reports: the schema's own checks come first here.
- Numbers in `Json` are natural numbers without a sign, fraction or exponent: no digest prints any other.
- Event and listing recognisers of the handlers other than policy revisions: flat patterns of the same kind.
- Readiness checks, migration checksums, HTTP routes, configuration parsing, logging and the user interface.
- AuthInterleaving.InterleavingIsSerial: progress of a waiting transaction against an endless stream of others is not stated; `AuthDeadlock.SomeTransactionCanStep` says that some transaction can always move.
- KeysetPaging.TraversalEnds: under inserts that never stop a traversal need not end, so a finite set of keys that ever appear is assumed; grants, roots and revisions have finitely many ids of bounded length.
- Transactions.SuccessIsConfirmed: a work function that swallows a failed statement and returns leaves an aborted transaction whose COMMIT is answered without committing; whether any work function does so is not examined.
- SettlementSweep.AskedOncePerSweep: assumes that a claim lists no attempt twice; `SettlementSweep.BatchAsksOnceIff` shows the assumption is needed.
- SettlementLoop.SettlementObservationLoop.RunLoop: a stop or abort requested before `run` is called is not a script; such a loop makes no claim, or asks nothing.
