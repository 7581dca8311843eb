# Verification of the backend's chains, rotations, limits and locks

A Dafny model of the parts of the backend whose correctness depends on interleaving or on
exact text: the audit hash chain, refresh-token rotation, the resilience stack around
external providers, the Redis lock with its three users, the per-key quota, message
translation and the merge of secrets into `.env`. `dafny verify dfyconfig.toml` checks all
of it.

## How it is organised

One module for each source component, named after it. A component that several requests
work on at once is a state machine: `Event` lists what one uninterrupted stretch of code (or
one database or Redis command) can do, `Step` is its effect, `Exec` a whole run, in any
order and of any length. A step that cannot be taken changes nothing. Theorems are about
every run. Beside each machine stands a class with the component's own fields; its methods
are the stretches of code between two awaited calls, and the contract of each says that it
makes exactly one `Step`. Fields marked as records (or ghost) note what happened and decide
nothing.

| module | component |
|---|---|
| `CanonicalJson`, `AuditChain`, `AuditCreate` | row text, verifier and appender of the audit chain |
| `RefreshTokens`, `AuthService` | rotation machine, and the service and repository methods on it |
| `Policies`, `CircuitBreaker`, `Bulkhead`, `Retry`, `ResilientCall` | calls to external providers |
| `DistributedLock`, `JobRunner`, `Idempotency` | the Redis lock, scheduled jobs, idempotent requests |
| `ApiKeyGateway` | the fixed-window quota of one API key |
| `Translate` | template matching and filling |
| `DotenvSync` | encoding and merging of `.env` entries |

## What is assumed

- The digest is a parameter. Where collision-freedom is needed it is a hypothesis about the
  rows at hand; `AuditChain.RowsCollideOnlyIfDigestsDo` derives it from the digest alone.
  `HeadFixesHistory` also needs that a digest is never the empty text.
- Random ids and tokens are new when drawn; ids of audit rows are unique (primary key).
  The verifier's loop ends only because of unique ids and absent collisions.
- The singleton row of `audit_chain_state` exists, and `FOR UPDATE` on it waits.
- Clocks do not run backwards. Redis answers. One process's Redis commands take effect in
  the order they were sent. Pauses of the job runner last exactly as long as asked for.

## Where the code does not do what its text says

The model follows the code; each of these is proved, with a run or an input that shows it
where a promise fails.

- `docs/audit-log-immutability.md` says that deleting any row is found. The verifier does not
  read `audit_chain_state`, so a table that lost its newest rows still verifies, and this is
  the only loss that does (`AuditChain.SurvivorsVerifyIffPrefix`).
- The comment on `refresh` (auth.service.ts:448-457) says that reuse revokes all sessions of
  the user. The code revokes the family of the token, and only if the row of the token is
  still in the table. The family then ends exactly if no rotation of it is between its
  conditional revoke and its insert at that moment (`RefreshTokens.ReuseKillsFamily`,
  `RefreshTokens.ReuseDuringRotationSurvives`). The latter condition also decides whether a
  password reset ends every session, as its comment says (`RefreshTokens.RevokeAllKillsIff`).
- The comment of the nightly cleanup job (cleanup-expired-refresh-tokens.job.ts:5-13) says that
  the rows it deletes are of no use to `refresh` any more. Reuse detection uses them: the token
  of a rotated row that was deleted is unknown, and presenting it revokes nothing, although its
  family lives on (`RefreshTokens.ReuseOfDeletedRowUnseen`). Up to both limits of the presented
  row reuse is seen (`RefreshTokens.ReuseSeenUpToLimits`).
- The bulkhead's comment promises at most `maxConcurrent` running calls. A call that arrives
  between the wake-up of a waiter and its resumption gets a slot too, and this can repeat
  without bound (`Bulkhead.OverrunExceedsLimit`). The promise holds over all runs exactly if
  there is no queue or no slot (`Bulkhead.LimitHoldsIffNoQueue`).
- The circuit breaker's comment promises one probe. A call begun while CLOSED may fail late
  and reopen the breaker under a running probe, and a second probe joins. For every policy
  the promise holds exactly if calls settle before they are `resetTimeoutMs` old
  (`CircuitBreaker.OneProbeIff`). With `failureThreshold` 0 or less the breaker starts CLOSED
  all the same (`CircuitBreaker.ClosedIffBelowThreshold`).
- The idempotency middleware says that a repeated request does not run the handler again. For
  a day after the first run's response was stored, exactly those requests run it again that
  read the cache before that write and get the lock after it (`Idempotency.SecondRunIff`,
  with a run in `Idempotency.EarlyReadRunsAgain`). It also says that no second request runs
  the handler while the first one does; this holds exactly if no handler takes as long as the
  lock's 30 s (`Idempotency.OneRunPerKeyIff`).
- The job runner's comment names pauses of 2, 4 and 8 seconds; after the third failure there
  is no pause, so 2 and 4 seconds are all there are (`JobRunner.RunAttempts`).
- `docs/secrets-management.md` says that repeated syncs do not let `.env` grow. With a key that
  has a lower-case letter or a value that has a newline it grows with every sync
  (`DotenvSync.EveryRunGrows`); `DotenvSync.SecondRunChangesNothingIff` says exactly when a
  second sync changes nothing.

## Model

| member | source | states |
|---|---|---|
| CanonicalJson.EscapeAllUnique | src/modules/audit/audit.repository.ts:46-48 | quoted JSON text ends at its first unescaped quote: two texts that agree, with anything behind their closing quotes, come from the same string |
| CanonicalJson.MembersUnique | src/modules/audit/audit.repository.ts:29-48 | objects with the same member names in the same order have different texts unless every value, null or not, is the same; one with `details` is never read as one without |
| CanonicalJson.CanonicalizeUnique | src/modules/audit/audit.repository.ts:18-49 | the canonical text fixes every field of a row, whatever text follows it |
| CanonicalJson.EscapedReadsBack | src/modules/audit/audit.repository.ts:46-48 | a parser of section 7 of RFC 8259 reads the escaped text of any string back as that string |
| CanonicalJson.EscapeForms | src/modules/audit/audit.repository.ts:46-48 | characters with a short escape get it, other control characters six characters with lower-case digits, as `JSON.stringify` writes them |
| CanonicalJson.PlainRowText | src/modules/audit/audit.repository.ts:29-48 | for fields without quotes, backslashes and control characters the text is the object of its members in quotes or null, joined by commas |
| CanonicalJson.MembersInOrder | src/modules/audit/audit.repository.ts:29-48 | the eight members in their order, and `details` behind them only if there are some |
| AuditChain.InputFixesRow | src/modules/audit/audit.repository.ts:51-55 | the hashed text fixes the row's fields and the predecessor hash, a null predecessor counting as empty |
| AuditChain.HashedText | src/modules/audit/audit.repository.ts:51-55 | of such a row the digest is taken of that object, a bar, and the predecessor hash, nothing standing for a null one |
| AuditChain.RowsCollideOnlyIfDigestsDo | src/modules/audit/audit.repository.ts:51-55 | if the digest does not collide on the texts of these rows, no two of the rows share a hash without sharing every hashed field |
| AuditChain.WalkNeverReturns | src/modules/audit/audit.repository.ts:161-178 | a row the walk reaches was not visited before: with unique ids and no collisions the links cannot form a cycle behind genuine rows |
| AuditChain.WalkFollowsChain | src/modules/audit/audit.repository.ts:161-178 | any genuine walk from a null predecessor inside a table that has a chain ordering is a prefix of that ordering |
| AuditChain.ComplaintIsSound | src/modules/audit/audit.repository.ts:149-188 | each of the three complaints, with the evidence it carries, excludes every chain ordering of the table |
| AuditChain.IndexByPreviousHash | src/modules/audit/audit.repository.ts:147-159 | reports a fork, naming the first row whose predecessor was already taken, or else indexes every row by its predecessor |
| AuditChain.VerifyChainIntegrity | src/modules/audit/audit.repository.ts:136-191 | ends, answers valid exactly if the hashed rows can be ordered into one chain from a null predecessor with every hash recomputed, and names a true reason otherwise: the fork, the first row whose content does not give its hash, or how many rows are off the chain |
| AuditChain.VerdictIgnoresOrder | src/modules/audit/audit.repository.ts:125-135 | being valid does not depend on the order in which rows are returned |
| AuditChain.HeadFixesHistory | src/modules/audit/audit.repository.ts:18-55 | two chains whose last rows carry the same hash are the same chain, row by row |
| AuditChain.SameHeadSameTable | src/modules/audit/audit.repository.ts:136-191 | two tables that verify and end in the same hash hold exactly the same rows |
| AuditChain.SurvivorsVerifyIffPrefix | src/modules/audit/audit.repository.ts:161-188 | what is left after removing rows from a chain verifies if and only if it is a prefix of the chain |
| AuditChain.AdditionsVerifyIffAppended | src/modules/audit/audit.repository.ts:161-188 | a table to which rows were added verifies if and only if they continue the chain at its end |
| AuditChain.TamperingIsDetected | src/modules/audit/audit.repository.ts:164-174 | changing the contents of any rows while keeping all hash columns never verifies |
| AuditCreate.ReachableInv | src/modules/audit/audit.repository.ts:75-117 | in every interleaving with aborts anywhere, only the lock holder is past its read, what it read is still the last hash, and committed rows are never lost or changed |
| AuditCreate.CommittedRowsFormChain | src/modules/audit/audit.repository.ts:79-116 | in every interleaving the committed hashed rows, in commit order, are one unforked chain that ends at the stored last hash, so the verifier accepts them |
| AuditCreate.RunKeepsContent | src/modules/audit/audit.repository.ts:75-107 | over all runs a transaction holds, at every stage, exactly the fields it was begun with |
| AuditCreate.CommittedAsGiven | src/modules/audit/audit.repository.ts:104-116 | over all runs: behind the rows that were there, the table holds one row for each commit, in commit order, with exactly the fields that its `create` was given |
| AuditCreate.UndisturbedCreate | src/modules/audit/audit.repository.ts:79-116 | a `create` that nobody disturbs appends its row, linked to the last hash, and makes the hash of that row the last one |
| AuditCreate.RemovalDetectedUnlessSuffix | src/modules/audit/audit.repository.ts:139-190 | of a table built by any run of `create`, a remainder verifies exactly if only the newest rows are gone |
| AuditCreate.TamperedTableRejected | src/modules/audit/audit.repository.ts:164-174 | of a table built by any run of `create`, no change of contents under kept hash columns verifies |
| AuditCreate.AuditRepository.BeginTransaction | src/modules/audit/audit.repository.ts:75-79 | draws the id and starts a transaction |
| AuditCreate.AuditRepository.SelectForUpdate | src/modules/audit/audit.repository.ts:85-88 | takes the singleton row and reads the last hash, unless another transaction holds it |
| AuditCreate.AuditRepository.InsertRow | src/modules/audit/audit.repository.ts:90-107 | inserts the row with all the fields `create` was given, the hash of just these and the hash that was read |
| AuditCreate.AuditRepository.UpsertLastHash | src/modules/audit/audit.repository.ts:109-113 | writes the new hash to the singleton row, seen by others at commit only |
| AuditCreate.AuditRepository.CommitTransaction | src/modules/audit/audit.repository.ts:115-116 | appends the row, publishes its hash as the last hash and frees the singleton row, all at once |
| AuditCreate.AuditRepository.RollBack | src/modules/audit/audit.repository.ts:79-116 | an abort at any point leaves rows and last hash as they were and frees the singleton row if held |
| RefreshTokens.ReachableInv | src/modules/auth/auth.service.ts:459-532 | in every interleaving of logins, refreshes, logouts, revocations, dying requests, nightly deletions and erasures: every row ever inserted has its place behind the row it replaced, all rows of a family in the table but the newest are revoked, and a rotation in flight replaces the newest |
| RefreshTokens.AtMostOneLive | src/modules/auth/auth.repository.ts:149-155 | in every reachable state the unrevoked rows of a family and its rotations between revoke and insert are at most one together |
| RefreshTokens.FamilyIsAPath | src/modules/auth/auth.service.ts:518-529 | the rows ever inserted into a family are one path without repetition: the first replaced nothing, every other replaced the row before it; in the table are exactly those of the path that no deletion has taken |
| RefreshTokens.OneRowMoreThanRotations | src/modules/auth/auth.service.ts:518-529 | the path is one row longer than the number of steps in the run that completed a rotation of the family, and so are its rows in the table and its deleted rows together |
| RefreshTokens.UndisturbedRefresh | src/modules/auth/auth.service.ts:459-532 | a refresh in time with an unrevoked token that nobody disturbs succeeds: the old row is revoked and a usable row of the same user and family takes its place |
| RefreshTokens.RowsAreKept | src/shared/scheduler/jobs/cleanup-expired-refresh-tokens.job.ts:27-31 | over all runs a row that was inserted is in the table if and only if neither the nightly job found it past one of its limits nor its user was erased since |
| RefreshTokens.RowsKeepTheirData | src/modules/auth/auth.repository.ts:124-183 | between any two moments a row keeps user, family, token and limits, and no revocation is undone |
| RefreshTokens.InsertedAsGiven | src/modules/auth/auth.service.ts:722-749 | over all runs every row was inserted by a login, with 7 days for itself and 30 for its session, or by a rotation, with 7 days and the user, family and session end of the row it replaced; that step wrote no other row |
| RefreshTokens.RefreshAnswer | src/modules/auth/auth.service.ts:459-492 | over all runs, by the fields of the row that is presented: nothing changes exactly if it is unrevoked and idle; a family revoke becomes due exactly if it is revoked, or not idle and past its session limit; every other row passes; the read writes no row |
| RefreshTokens.RowEndsIff | src/modules/auth/auth.repository.ts:124-183 | in every reachable state a step ends an unrevoked row, with the present time, if and only if it is a conditional revoke of this row, a revoke of its family, a revoke of it by id or a revoke of all rows of its user; every other step leaves it as it is |
| RefreshTokens.RevokeBecomesDueIff | src/modules/auth/auth.service.ts:467-516 | in every reachable state a family revoke becomes due if and only if a refresh reads a revoked row, or one past its session limit and not idle, or loses the conditional revoke; never for an idle token, a missing user or a request that dies |
| RefreshTokens.RowStaysUntilLimit | src/shared/scheduler/jobs/cleanup-expired-refresh-tokens.job.ts:27-31 | until one of its limits has passed a row is in the table, unless its user was erased |
| RefreshTokens.FamilyRevokeReach | src/modules/auth/auth.repository.ts:171-183 | a family revoke ends every row of the family and leaves every other family as it was |
| RefreshTokens.RevokeAllReach | src/modules/auth/auth.repository.ts:164-169 | revoking all sessions ends every row of the user and leaves every other user's rows as they were |
| RefreshTokens.PurgeReach | src/shared/scheduler/jobs/cleanup-expired-refresh-tokens.job.ts:27-31 | the nightly job takes exactly the rows that are past one of their two limits and changes no other |
| RefreshTokens.EraseReach | src/modules/privacy/privacy.repository.ts:66-66 | an erasure takes exactly the rows of its user and changes no other |
| RefreshTokens.RevokeAllKillsIff | src/modules/auth/auth.service.ts:714-718 | after revoking all sessions, by "log out everywhere" or a password reset, a family of the user is dead exactly if no rotation of it was in flight |
| RefreshTokens.OwnRowOnly | src/modules/auth/auth.service.ts:554-626 | `logout` and `revokeSession` write exactly for an unrevoked row of the caller, and whatever other requests do before the write, it ends that row, if it has not been deleted meanwhile, and no other |
| RefreshTokens.NoDoubleExchange | src/modules/auth/auth.service.ts:502-516 | no row has two successors: a token is exchanged at most once, however requests race |
| RefreshTokens.FamilyKeepsUserAndLimit | src/modules/auth/auth.service.ts:522-529 | user and absolute session limit are the same on every row of a family |
| RefreshTokens.RefreshWithinLimits | src/modules/auth/auth.service.ts:476-492 | a refresh that passes its checks comes at most 7 days after its row was inserted and at most 30 days after the login that started the family |
| RefreshTokens.DeadForever | src/modules/auth/auth.service.ts:467-474 | a family without unrevoked row and without rotation in flight stays so in every continuation |
| RefreshTokens.FamilyRevokeKillsIff | src/modules/auth/auth.repository.ts:178-183 | any family revoke, after reuse, a lost race or the session limit, ends the family exactly if no rotation of it is in flight |
| RefreshTokens.ReuseKillsFamily | src/modules/auth/auth.service.ts:460-492 | presenting the token of an exchanged row, or of a stored one that was revoked or is past its session limit, leads to a family revoke if and only if the row has not been deleted, and else changes nothing; after the revoke, whatever other requests did in between, the family is dead exactly if no rotation of it is in flight, and then for good |
| RefreshTokens.ReuseSeenUpToLimits | src/modules/auth/auth.service.ts:467-474 | so the reuse of an exchanged token is seen for certain until one of its row's limits has passed, if its user is not erased |
| RefreshTokens.ReuseOfDeletedRowUnseen | src/shared/scheduler/jobs/cleanup-expired-refresh-tokens.job.ts:27-31 | a run in which the nightly job deletes an exchanged row, so that presenting its token changes nothing, while its family has a usable row and no rotation in flight |
| RefreshTokens.LostRaceKillsFamily | src/modules/auth/auth.service.ts:512-516 | the same for a refresh that passed its checks and lost the conditional revoke |
| RefreshTokens.ReuseDuringRotationSurvives | src/modules/auth/auth.service.ts:512-529 | a run in which reuse is found while a rotation is in flight and the row inserted afterwards is usable |
| AuthService.AuthService.Lookup | src/modules/auth/auth.repository.ts:67-69 | finds the row with this token hash if there is one |
| AuthService.AuthService.IssueForLogin | src/modules/auth/auth.service.ts:722-749 | a login inserts the first row of a new family with 7 days for itself and 30 days for the session |
| AuthService.AuthService.CheckForRefresh | src/modules/auth/auth.service.ts:459-492 | unknown, revoked, idle and over-age tokens are told apart by the fields of the row; revoked and over-age ones lead to a family revoke, an idle one changes nothing, no row is written |
| AuthService.AuthService.RevokeIfActive | src/modules/auth/auth.service.ts:512-516 | the conditional revoke succeeds exactly if the row is unrevoked at that moment; the loser goes on to revoke the family |
| AuthService.AuthService.IssueForRotation | src/modules/auth/auth.service.ts:522-529 | a rotation inserts a row with 7 days and with the user, family and session end of the row it replaces |
| AuthService.AuthService.RevokeRefreshTokenFamily | src/modules/auth/auth.repository.ts:178-183 | revokes the unrevoked rows of the family and no other |
| AuthService.AuthService.CheckForLogout | src/modules/auth/auth.service.ts:554-566 | only the caller's own unrevoked row is going to be revoked |
| AuthService.AuthService.CheckForRevokeSession | src/modules/auth/auth.service.ts:616-625 | somebody else's session is answered like a missing one |
| AuthService.AuthService.RevokeRefreshToken | src/modules/auth/auth.repository.ts:124-129 | revokes one row, even one revoked meanwhile, with the present time |
| AuthService.AuthService.RevokeAllRefreshTokensForUser | src/modules/auth/auth.repository.ts:164-169 | revokes every unrevoked row of the user and no other |
| AuthService.AuthService.CleanupExpired | src/shared/scheduler/jobs/cleanup-expired-refresh-tokens.job.ts:27-31 | deletes the rows past one of their two limits and no other |
| AuthService.AuthService.EraseUser | src/modules/privacy/privacy.repository.ts:66-66 | deletes the rows of the user and no other |
| CircuitBreaker.CounterIsTrailingFailures | src/shared/reliability/circuit-breaker.ts:103-112 | for any order of admissions and settlements the counter is the number of failures settled since the last settled success |
| CircuitBreaker.ClosedIffBelowThreshold | src/shared/reliability/circuit-breaker.ts:108-120 | over all runs the breaker is CLOSED exactly while that number is below the threshold, if and only if the threshold is at least 1 |
| CircuitBreaker.ProbesAreSpaced | src/shared/reliability/circuit-breaker.ts:71-85 | successive probes of a key start at least `resetTimeoutMs` apart, whatever stale calls settle in between |
| CircuitBreaker.HalfOpenMeansProbing | src/shared/reliability/circuit-breaker.ts:85-100 | while the breaker is HALF_OPEN the probe that made it so is still in flight, so HALF_OPEN cannot be left behind by a settled probe |
| CircuitBreaker.Refused | src/shared/reliability/circuit-breaker.ts:71-101 | in every state with the breaker HALF_OPEN, and in OPEN until `resetTimeoutMs` is over, an arriving call changes nothing and does not reach `fn` |
| CircuitBreaker.Admitted | src/shared/reliability/circuit-breaker.ts:71-104 | in every other state a new call reaches `fn`; only one that arrives in OPEN changes the breaker, to HALF_OPEN |
| CircuitBreaker.OneLetThrough | src/shared/reliability/circuit-breaker.ts:71-101 | over all runs, counted by arrivals and not by any mark: of the calls that arrived since the breaker was opened last none reached `fn` while it is OPEN, exactly one while it is HALF_OPEN, and at most one before it closed |
| CircuitBreaker.LetThroughAfterReset | src/shared/reliability/circuit-breaker.ts:71-85 | and that one arrives no earlier than `resetTimeoutMs` after the breaker was opened last |
| CircuitBreaker.OneProbeIff | src/shared/reliability/circuit-breaker.ts:16-26 | the documented single probe, for every policy: over all runs in which no call in flight is ever older than `d`, at most one call in flight was let through while the breaker was not CLOSED, if and only if `d` is below `resetTimeoutMs` |
| CircuitBreaker.AtMostOneProbe | src/shared/reliability/circuit-breaker.ts:76-100 | in any state of any run: if no call in flight is as old as `resetTimeoutMs`, at most one probe is in flight |
| CircuitBreaker.PresetsProbeOnce | src/shared/reliability/policies.ts:22-65 | with every preset, if calls end at their timeout, at most one probe is in flight |
| CircuitBreaker.NeverStuck | src/shared/reliability/circuit-breaker.ts:71-110 | after any run the breaker closes again with the next successful probe: in OPEN the first call after exactly `resetTimeoutMs` is let through, in HALF_OPEN the probe is on its way |
| CircuitBreaker.SlowProbeIsJoined | src/shared/reliability/circuit-breaker.ts:111-126 | for every policy a run with two probes in flight and no call older than `resetTimeoutMs`: the breaker trips, a call begun while CLOSED fails late and reopens it under the first probe |
| CircuitBreaker.Breakers.GetBreaker | src/shared/reliability/circuit-breaker.ts:53-62 | a fresh breaker for a new key, the known one for a known key, no other key touched |
| CircuitBreaker.Breakers.Enter | src/shared/reliability/circuit-breaker.ts:69-101 | refuses and changes nothing while OPEN and too early or HALF_OPEN, otherwise admits, and turns OPEN into HALF_OPEN only on admission |
| CircuitBreaker.Breakers.Resolved | src/shared/reliability/circuit-breaker.ts:104-110 | a success closes the breaker and clears the counter in any state |
| CircuitBreaker.Breakers.Rejected | src/shared/reliability/circuit-breaker.ts:111-127 | a failure is counted, and opens the breaker at the threshold or in HALF_OPEN, with the time of settlement |
| Bulkhead.NobodyWaitsForAFreeSlot | src/shared/reliability/bulkhead.ts:58-81 | no lost wake-up: while a call waits, running and woken calls are at least `maxConcurrent`; with nobody running or woken nobody waits |
| Bulkhead.QueueIsFifoAndBounded | src/shared/reliability/bulkhead.ts:59-80 | calls leave the queue in the order they joined it, none lost or doubled, and the queue stays within `maxQueue` |
| Bulkhead.LimitUpToOvertakes | src/shared/reliability/bulkhead.ts:69-77 | `active` is the number of running calls, and running plus woken calls exceed `maxConcurrent` by at most the arrivals admitted past a woken call |
| Bulkhead.OverrunExceedsLimit | src/shared/reliability/bulkhead.ts:58-80 | for every limit with a queue, and every `n`, there is a run with `maxConcurrent + n` running calls |
| Bulkhead.LimitHoldsIffNoQueue | src/shared/reliability/bulkhead.ts:14-20 | the limit holds in all runs if and only if there is no queue or no slot |
| Bulkhead.Semaphore.Enter | src/shared/reliability/bulkhead.ts:58-69 | starts, queues or refuses an arriving call by the counts at that moment |
| Bulkhead.Semaphore.Continue | src/shared/reliability/bulkhead.ts:64-69 | the oldest woken call takes a slot without looking at the count again |
| Bulkhead.Semaphore.Leave | src/shared/reliability/bulkhead.ts:72-80 | a finishing call frees one slot and wakes the oldest waiter |
| Retry.WithRetry | src/shared/reliability/retry.ts:27-61 | stops at the first success or non-retryable error and at the last attempt, not before; returns exactly if the last invocation succeeded; takes the time of all invocations and of one pause between each two |
| Retry.EndIsUnique | src/shared/reliability/retry.ts:34-44 | what the invocations would do leaves one number of invocations only |
| Retry.DelayDoublesToCap | src/shared/reliability/retry.ts:46-49 | the first pause is the base delay, each later one twice the one before, both capped |
| Retry.DelayWithinCap | src/shared/reliability/retry.ts:46-49 | a pause is the base delay doubled once for each failure before, never above the cap, and below it only if uncapped |
| Retry.LoopTakesAtMost | src/shared/reliability/retry.ts:34-56 | however the loop ends, it takes no longer than all allowed attempts of the longest length and the pauses between them |
| ResilientCall.RunsTheCircuit | src/shared/reliability/resilient-call.ts:45-50 | every run of any number of calls is, for the breaker, a run of the breaker's own machine, so its theorems hold inside |
| ResilientCall.RunsTheSlots | src/shared/reliability/resilient-call.ts:62-62 | and for the semaphore a run of the semaphore's |
| ResilientCall.ReachableInv | src/shared/reliability/resilient-call.ts:40-63 | in every interleaving semaphore and breaker agree with the calls: who runs, waits or is woken, whose invocation is in flight and since when; all attempts but the last have failed |
| ResilientCall.CallAccount | src/shared/reliability/resilient-call.ts:45-62 | one call among any others, over all runs: `fn` is called at most `attempts` times; the breaker has settled once for each invocation but the one running; the slot was granted at most once, at once or from the queue, and given back exactly once unless still held |
| ResilientCall.EverySettlementHasACall | src/shared/reliability/circuit-breaker.ts:103-127 | whatever the breaker records is the settlement of one call in flight |
| ResilientCall.NoneAfterEnd | src/shared/reliability/resilient-call.ts:52-60 | after a success, and after a refusal by the breaker, the call never invokes `fn` again, whatever follows |
| ResilientCall.AttemptCallsFnIff | src/shared/reliability/circuit-breaker.ts:71-104 | in any run an attempt calls `fn` if and only if attempts are left and the breaker is neither HALF_OPEN nor OPEN within its reset time; else it changes nothing at the breaker and ends the loop |
| ResilientCall.OneAttemptWhileNotClosed | src/shared/reliability/circuit-breaker.ts:71-101 | of all attempts of all calls since the breaker was opened last, none has called `fn` while it is OPEN, exactly one while it is HALF_OPEN |
| ResilientCall.PauseLasts | src/shared/reliability/retry.ts:46-54 | however a run goes on, a call stays in the pause after its k-th failure until the k-th delay has passed |
| ResilientCall.FailureIsFollowed | src/shared/reliability/retry.ts:37-54 | a failed attempt that was not the last is followed by the next one no earlier than its delay; after the last there is none, whatever follows |
| ResilientCall.AttemptsAsInRetry | src/shared/reliability/retry.ts:34-56 | a call that has left made exactly the number of attempts that the retry loop makes of the same outcomes |
| ResilientCall.QuietMeansFree | src/shared/reliability/bulkhead.ts:72-80 | when no call is under way all slots are free, nobody waits, and the breaker has nothing in flight |
| ResilientCall.SlotCanComeBack | src/shared/reliability/bulkhead.ts:70-81 | no slot is lost: wherever a run leaves a call that holds one, the call can go on to give it back |
| ResilientCall.HeldAtMost | src/shared/reliability/resilient-call.ts:26-31 | in every run in which aborts are honoured, with any other calls, a call that holds a slot got it no longer ago than attempts times the timeout plus the capped pauses between them |
| ResilientCall.OneProbeAtATime | src/shared/reliability/circuit-breaker.ts:95-99 | in such runs, with a timeout below `resetTimeoutMs` as in every preset, at most one probe is in flight |
| ResilientCall.SlotBoundIsReached | src/shared/reliability/timeout.ts:22-45 | for every policy with `failureThreshold` not below `attempts`, as every preset, a run in which a call that hangs until each abort holds its slot for exactly that long |
| ResilientCall.PresetSlotBounds | src/shared/reliability/policies.ts:22-65 | 15900, 20500 and 10000 ms for the three presets |
| ResilientCall.Provider.Enter | src/shared/reliability/bulkhead.ts:56-69 | an arriving call gets a slot, a place in the queue, or a refusal |
| ResilientCall.Provider.Continue | src/shared/reliability/bulkhead.ts:64-69 | the oldest woken call gets its slot |
| ResilientCall.Provider.BeginAttempt | src/shared/reliability/circuit-breaker.ts:69-104 | an attempt calls `fn` exactly if attempts are left and the breaker lets it through; a refusal ends the loop |
| ResilientCall.Provider.FnResolved | src/shared/reliability/circuit-breaker.ts:104-110 | a success settles the breaker and ends the loop |
| ResilientCall.Provider.FnRejected | src/shared/reliability/retry.ts:37-54 | a failure settles the breaker and is followed by a pause, or by the end of the loop if it was the last attempt |
| ResilientCall.Provider.PauseOver | src/shared/reliability/retry.ts:54-55 | after the pause the next attempt is due |
| ResilientCall.Provider.GiveBack | src/shared/reliability/bulkhead.ts:72-80 | the slot is given back and the oldest waiter woken, however the loop ended |
| DistributedLock.KeysAreIndependent | src/shared/concurrency/distributed-lock.ts:72-76 | a step about one key leaves the entry of every other key as it was |
| DistributedLock.OverlapNeedsExpiry | src/shared/concurrency/distributed-lock.ts:60-106 | two holders of one key overlap only if the earlier one outlived its time before the later one took the lock |
| DistributedLock.UnexpiredHolderIsUnique | src/shared/concurrency/distributed-lock.ts:72-77 | of the holders whose time is not over there is one per key |
| DistributedLock.ReleaseRemovesOwnEntryOnly | src/shared/concurrency/distributed-lock.ts:39-45 | a release, even a late one, removes no entry with another token; a timely one frees the key; every other unexpired holder keeps its entry |
| DistributedLock.RedisLocks.AcquireLock | src/shared/concurrency/distributed-lock.ts:72-77 | takes the lock exactly if no live entry has the key |
| DistributedLock.RedisLocks.ReleaseLock | src/shared/concurrency/distributed-lock.ts:93-106 | deletes the entry only if it is live and carries the own token |
| JobRunner.RunTakesAtMost | src/shared/scheduler/job-runner.ts:64-88 | a run under its lock lasts at most 3d + 6000 ms if an attempt lasts at most d |
| JobRunner.NoDoubleRunIff | src/shared/scheduler/job-runner.ts:48-59 | over all runs of any number of instances, with crashes, no job runs twice at once if and only if 3d + 6000 < 600000 |
| JobRunner.LongRunIsDoubled | src/shared/scheduler/job-runner.ts:48-51 | for longer attempts a run in which a second instance starts the job while the first is in its third attempt |
| JobRunner.RunEndsIff | src/shared/scheduler/job-runner.ts:64-90 | over all runs, a run of a job ends with its first success, with its third failure or with its process, and in no other way |
| JobRunner.NextAttemptIff | src/shared/scheduler/job-runner.ts:80-88 | after the first failure the next attempt begins after 2000 ms, after the second after 4000 ms, and not before |
| JobRunner.EndFreesJob | src/shared/scheduler/job-runner.ts:48-51 | the end of a run gives the lock of its job back, unless its process died |
| JobRunner.SkippedOnlyForSameJob | src/shared/scheduler/job-runner.ts:48-59 | over all runs: an instance skips a job only because a run of the same job was started less than ten minutes before |
| JobRunner.RunAttempts | src/shared/scheduler/job-runner.ts:61-90 | makes one to three attempts, stops at the first success, never throws, and takes the time of its attempts with 2000 ms after the first failure and 4000 ms after the second |
| JobRunner.RunTimeWithinSchedule | src/shared/scheduler/job-runner.ts:61-90 | the loop stays within the schedule that the lock argument uses, and meets it with attempts of full length |
| Idempotency.RunsDoNotOverlap | src/shared/reliability/idempotency.middleware.ts:100-125 | in every reachable state, of two requests in a handler run of one key one took the lock when the other had outlived its 30 s |
| Idempotency.OneRunPerKeyIff | src/shared/reliability/idempotency.middleware.ts:22-28 | the promised deduplication: over all runs in which no handler takes longer than `d`, no two handler runs of one key are under way together, if and only if `d` is below 30 s |
| Idempotency.SecondRunIff | src/shared/reliability/idempotency.middleware.ts:78-125 | in every reachable state in which a run of a key has written its response and the entry's day is not over, a step starts another run of that key if and only if it grants the lock to a request that had read the cache before that write |
| Idempotency.SecondRunPossibleIff | src/shared/reliability/idempotency.middleware.ts:78-125 | seen from such a state (with more than the lock's 30 s left of the day): another run within the day is possible if and only if some request has read the cache before the write and not yet asked for the lock |
| Idempotency.SecondRunReadTooEarlyOrTooLate | src/shared/reliability/idempotency.middleware.ts:78-112 | over whole runs: any other run of a key whose first run wrote its response began with a cache read before that write took effect or after the entry's day was over |
| Idempotency.LaterReadIsReplayed | src/shared/reliability/idempotency.middleware.ts:86-91 | a request whose read comes after such a write, within its day, is answered from the cache and runs nothing |
| Idempotency.ReplaysAreEarlierResponses | src/shared/reliability/idempotency.middleware.ts:86-112 | every replay is the response below 400 that an earlier run of the same key wrote less than a day before |
| Idempotency.ReplaysAreAnswers | src/shared/reliability/idempotency.middleware.ts:86-112 | over whole runs: what is replayed is, status and body, what the handler of an earlier run of the same key answered |
| Idempotency.AnswerIsStoredIff | src/shared/reliability/idempotency.middleware.ts:105-119 | an answer is on its way to the cache if and only if its status is below 400; whatever others do before it arrives, it is then the entry of its key, for 24 hours |
| Idempotency.ReadIsReplayedIff | src/shared/reliability/idempotency.middleware.ts:78-91 | in every reachable state a new request is answered from the entry of its key if and only if that is alive, and else goes on to ask for the lock |
| Idempotency.RefusedOnlyForOwnKey | src/shared/reliability/idempotency.middleware.ts:93-136 | over whole runs: a request is refused with 409 only because a request of the same key took the lock less than 30 s before |
| Idempotency.FinishFreesKey | src/shared/reliability/idempotency.middleware.ts:121-125 | the end of a response frees the lock of its key, unless it expired before |
| Idempotency.EarlyReadRunsAgain | src/shared/reliability/idempotency.middleware.ts:78-125 | a run in which the handler runs twice within a day of a stored response |
| Idempotency.IdempotencyMiddleware.ReadCache | src/shared/reliability/idempotency.middleware.ts:76-91 | a live entry is replayed, a miss goes on to the lock |
| Idempotency.IdempotencyMiddleware.TakeLock | src/shared/reliability/idempotency.middleware.ts:100-136 | the handler runs exactly if no live lock entry has the key, and the entry then lives 30 s; otherwise the request ends with status 409 and nothing else changes |
| Idempotency.IdempotencyMiddleware.Json | src/shared/reliability/idempotency.middleware.ts:105-119 | only a response below 400 is sent to the cache |
| Idempotency.IdempotencyMiddleware.StoreResponse | src/shared/reliability/idempotency.middleware.ts:108-110 | the cache entry of the key gets the response and 24 hours of life, no other entry changes |
| Idempotency.IdempotencyMiddleware.ReleaseOnFinish | src/shared/reliability/idempotency.middleware.ts:121-125 | the end of the response gives the own lock back; the cache is not touched |
| ApiKeyGateway.CounterIsNewestWindow | src/shared/security/api-key-gateway.ts:77-86 | the counter counts the requests of the newest window and always carries an expiry at most a minute ahead |
| ApiKeyGateway.WindowAdmitsLimit | src/shared/security/api-key-gateway.ts:105-113 | each window admits exactly the smaller of its requests and the limit |
| ApiKeyGateway.WindowEndIsFixed | src/shared/security/api-key-gateway.ts:68-81 | requests inside a window, admitted or not, do not move its end |
| ApiKeyGateway.FirstBehindWindowIsAdmitted | src/shared/security/api-key-gateway.ts:68-81 | however many requests keep coming, the first at or after the end of the open window is admitted, and that end is at most a minute after any request in it |
| ApiKeyGateway.NoKeyStaysRejected | src/shared/security/api-key-gateway.ts:71-76 | no key is rejected for good while requests keep coming: if one comes a minute or more after a rejected one, some request on the way is admitted |
| ApiKeyGateway.AnyMinuteAdmitsLessThanTwice | src/shared/security/api-key-gateway.ts:77-113 | any half-open minute of any run admits at most 2 * limit - 1 requests, none if the limit is not positive |
| ApiKeyGateway.TwiceLessOneIsReached | src/shared/security/api-key-gateway.ts:77-113 | for every limit some run admits 2 * limit - 1 requests in one minute, so the bound is exact |
| ApiKeyGateway.Gateway.EnforceLimit | src/shared/security/api-key-gateway.ts:51-114 | counts in the key's window, touches no other key, and admits by override, tier or default tier, an override of 0 counting as none |
| Translate.SplitIsLossless | src/shared/i18n/translate.ts:28-28 | the pieces of a template and its placeholders, put together again, are the template |
| Translate.SplitIsWellCut | src/shared/i18n/translate.ts:28-28 | no literal piece still contains a placeholder, and every placeholder is a digit string |
| Translate.HoleIffDigitsInBraces | src/shared/i18n/translate.ts:28-28 | a placeholder is one or more of the ten digits in braces, and nothing else is one |
| Translate.SplitOfWoven | src/shared/i18n/translate.ts:28-28 | a template put together from placeholder-free literals and digit strings is cut into just these, so there is one way to cut |
| Translate.NumberReadsDecimal | src/shared/i18n/translate.ts:34-34 | the number read from a placeholder is the number whose decimal digits stand there |
| Translate.NumberSkipsZeros | src/shared/i18n/translate.ts:34-34 | zeros in front of the digits make no difference |
| Translate.MatchIsSplit | src/shared/i18n/translate.ts:29-38 | a match splits the message into the literals with non-empty values between them |
| Translate.MatchIsLeast | src/shared/i18n/translate.ts:35-38 | if any such split exists the matcher succeeds, with the one whose values are shortest first |
| Translate.MatchesIffSplits | src/shared/i18n/translate.ts:35-38 | the matcher succeeds exactly if the message splits |
| Translate.MatchRecoversIff | src/shared/i18n/translate.ts:26-39 | for any number of placeholders, filled-in values are recovered exactly if no other split of the message is shorter first |
| Translate.OneValueComesBack | src/shared/i18n/translate.ts:26-39 | with one placeholder every non-empty value is recovered |
| Translate.TwoValuesComeBackIff | src/shared/i18n/translate.ts:26-39 | with two, both are recovered exactly if the separator does not occur earlier |
| Translate.CompileTemplate | src/shared/i18n/translate.ts:26-39 | literals and placeholder numbers in the order of the source text |
| Translate.TranslateMessage | src/shared/i18n/translate.ts:49-73 | source language unchanged; else the catalogue entry; else the message if it has more than 600 characters or fits no template; else what the first template that fits renders, each case stated without the matcher |
| Translate.FirstMatchDecides | src/shared/i18n/translate.ts:62-71 | there is a translation exactly if some template matches with none before it matching; there is one such template at most, and it gives the translation |
| Translate.ByTemplateRenders | src/shared/i18n/translate.ts:62-71 | one template translates exactly the messages that fit it; the target then carries the values of the shortest-first split, the last one of a repeated number, and nothing for a number that the source does not have |
| Translate.TranslationIs | src/shared/i18n/translate.ts:49-73 | in the source language the message; else its catalogue entry, whatever its length and the templates; else the message if it is longer than 600 or fits no template; else what the first template that fits renders |
| Translate.TranslationCarriesValues | src/shared/i18n/translate.ts:65-69 | if the values of a filled source template are recovered, translating it gives the target filled with the same values, repeated placeholders included |
| Translate.OnePlaceholderTranslates | src/shared/i18n/translate.ts:49-73 | which is so for every non-empty value with one placeholder |
| Translate.TwoPlaceholdersTranslate | src/shared/i18n/translate.ts:49-73 | and with two exactly when the separator does not occur earlier are both values recovered, and then carried over |
| Translate.FilledMessageTranslates | src/shared/i18n/translate.ts:49-73 | through the whole of `translateMessage`: a filled source template that is no exact entry, has at most 600 characters, matches no earlier template and whose values are recovered, becomes the target filled with the same values, and stays itself in the source language |
| DotenvSync.EncodedReadsBack | scripts/sync-secrets-from-vault.js:42-66 | whenever a value can be encoded, dotenv and Compose both read exactly that value back, whatever Compose makes of backslashes, dollar signs and line ends in double quotes; it stays on one line if it had no newline; single quotes are used exactly if the value has none |
| DotenvSync.EncodableIff | scripts/sync-secrets-from-vault.js:52-66 | a value is refused only if no text in quotes is read as it by both parsers |
| DotenvSync.ValidIffLegal | scripts/sync-secrets-from-vault.js:37-39 | a key is accepted exactly if it is not empty, does not begin with one of the ten digits, and has all its characters among the 26 upper-case and 26 lower-case letters, the digits and the underscore |
| DotenvSync.EncodeSecrets | scripts/sync-secrets-from-vault.js:145-154 | every encodable value is encoded; exactly the keys of the others are reported |
| DotenvSync.SyncSecrets | scripts/sync-secrets-from-vault.js:124-194 | the file is written exactly if there are secrets, all keys are legal names by the written-out alphabet and some quoted text is read as each value, from no lines if there was no file; otherwise it is not touched, and the reason carries exactly the keys at fault |
| DotenvSync.ReplaceInPlace | scripts/sync-secrets-from-vault.js:173-181 | every line of a known key is replaced where it stands, every other kept, and exactly the keys found are noted |
| DotenvSync.MergeLines | scripts/sync-secrets-from-vault.js:173-192 | then one entry for each key not found, in order, and trailing blank lines dropped |
| DotenvSync.SplitUnlines | scripts/sync-secrets-from-vault.js:168-194 | written lines are read back as they were, except that each loses one trailing carriage return |
| DotenvSync.SplitText | scripts/sync-secrets-from-vault.js:168-171 | any text is lines with their ends and a last one without, and these are what it is cut into, each ended line without its carriage return |
| DotenvSync.MergeSetsEverySecret | scripts/sync-secrets-from-vault.js:174-187 | after the merge every secret has its new value when the last entry of a key wins |
| DotenvSync.MergeKeepsOtherLines | scripts/sync-secrets-from-vault.js:174-192 | every other line keeps its text and place, except blank lines at the end |
| DotenvSync.LineInOutput | scripts/sync-secrets-from-vault.js:174-181 | a line that begins with a key of the secret over the 37 upper-case letters, digits and underscore, and an equals sign, is replaced by the new entry at its own place; a line that begins with none stays |
| DotenvSync.NewEntryInOutput | scripts/sync-secrets-from-vault.js:183-187 | a key that no line begins with has its entry behind the lines of the file, after as many entries as keys before it are missing too |
| DotenvSync.SecretsReadBack | scripts/sync-secrets-from-vault.js:57-194 | from the secret store through encoding, merge, text, lines and both parsers, every newline-free secret comes back |
| DotenvSync.SecondRunStrips | scripts/sync-secrets-from-vault.js:168-194 | for keys without lower-case letters a second run only drops stray carriage returns and the blanks they leave |
| DotenvSync.SecondRunChangesNothingIff | scripts/sync-secrets-from-vault.js:168-194 | for any file and any secrets, a second run changes nothing if and only if no key has a lower-case letter, no value a newline, and no kept line ends in a stray carriage return |
| DotenvSync.EveryRunGrows | scripts/sync-secrets-from-vault.js:168-194 | with a key that has a lower-case letter or a value that has a newline, each run leaves more written lines than the one before |

## Left out

- Fail-open branches (no Redis, Redis error) of lock, idempotency and gateway: they give no guarantee to state.
- Prisma, PostgreSQL, Redis and BullMQ themselves: each call is the atomic step it stands for, a row lock, a conditional update, `SET NX PX`, one `MULTI/EXEC`.
- SHA-256, JWT, bcrypt, UUIDs, random tokens: a parameter, or fresh values.
- A missing `audit_chain_state` row, on which `FOR UPDATE` locks nothing.
- UTF-16: text is a sequence of characters. Lone surrogates in JSON, the 600 limit in code units and a match that ends inside a surrogate pair are not captured.
- The regular expression of a template is a matcher over literals and lazy groups; escaping is taken as literal comparison. Placeholder numbers are unbounded, not doubles.
- Inherited properties: a message such as `constructor` in the exact catalogue, a key named `__proto__` in the script.
- DotenvSync.SecretsReadBack: the file is read line by line, so it is for values without a newline; of the grammars of dotenv and Compose only quoted values are modelled, as the script's own comment describes them.
- DotenvSync.EncodableIff: text without quotes is not considered; the script never writes any.
- Vault access, file modes and the atomic rename of the script.
- CircuitBreaker.PresetsProbeOnce: takes it that calls end at their timeout; a provider that ignores the abort signal does not.
- ResilientCall.SlotBoundIsReached: for policies whose breaker does not open within one call; whether the bound is met under others depends on the calls beside it.
- Values of `fn`, error classes, and which error a timed-out attempt rejects with: an attempt succeeds, fails or is refused.
- Concurrency within one method: each class method is one uninterrupted stretch of the source's code; passing closures (`withLock`, `withBulkhead`) is split into the stretch before and the stretch after the protected call.
- AuthService.AuthService.IssueForRotation: an insert that violates a unique index fails in the source and is a step that changes nothing in the machine; the method is for the insert that succeeds.
- Physical deletion of user records (the application only marks and erases them), the access-token blacklist, login checks, MFA, OAuth, user agent and address columns.
- Login history, listing of sessions, `translateFieldErrors`, locale choice, logging, metrics, controllers and routes: plumbing or easier claims.
