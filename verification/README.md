# Verification of the conductor API's coordination and clean-up logic

A Dafny model of the parts of the FAIMS3 conductor API (`api/src` and one script of `api/scripts`)
whose correctness depends on interleavings, on runs, or on arithmetic, with machine-checked proofs
of what they promise. Run `dafny verify dfyconfig.toml` to check everything.

## What is modelled

**The startup-migration lock** (`LockDoc`, `LockProtocol`, `LockSafety`, `LockSettlement`,
`LockRecord`, `LockOutcome`, `LockProgress`, `LockTermination`, `LockClient`, `LockOperator`). One
revisioned document, any number of callers of `withStartupMigrationLock` and any number of operator
commands of the debugging script.
Every clock sample, `get`, `put`, sleep and `run()` boundary is a step of its own, so callers act on
stale reads and stale samples; puts can fail, or be applied and still be reported as failed; callers
can die anywhere. The protocol is a state machine on values. The code itself is written out in
`LockClient` (callers) and `LockOperator` (operator commands) as methods against a shared object that
everyone else keeps changing between any two I/O calls, operators and lost acknowledgements included;
each method is proved to take protocol steps only, so the theorems about runs of the protocol are about
runs of the code. The two polling loops (`WaitForDoer`, `WithStartupMigrationLock`) are methods that must
end, so they are written out only for the world in which they do, without operator commands and lost
acknowledgements; everything a loop calls is proved in both worlds.

**The TTL sweep** (`Paging`, `Sweep`, `Cleanup`). The generator that pages a sorted keyspace by inclusive
startkey, its two fetch adapters, `bulkDelete`, the sweep loop with its counters, and the whole cleanup.

**What the sweep must not disturb** (`RateLimit`, `Retention`, `AuthRuns`, `AuthSweeps`, `AuthLog`,
`AuthAnswers`, `AuthSteps`, `AuthGrants`, `AuthHistory`, `AuthEffects`, `AuthStore`, `GrantCap`). The
retention rules, the validators of refresh tokens, exchange tokens, email codes, verification challenges,
long-lived tokens, download grants and invites, and the two attempt limiters. `AuthRuns` gives one step
of each operation as a function on the stored documents; `AuthStore` is a class whose methods follow the
source branch by branch and are proved to take those steps; the theorems are about whole runs of steps
with sweeps in between. `AuthLog` says what each operation of a run must answer in terms of the
operations and answers before it alone, `AuthHistory` proves it (by way of `AuthAnswers`, `AuthSteps` and
`AuthGrants`), and `AuthEffects` says what each does to the stored fields. A sweep may delete any part of
what was due at the one time it read the clock, at any later moment, so a paged sweep that interleaves
with other operations is several such steps.

**Download grants as a concurrent protocol** (`Grants`, `GrantProgress`, `GrantOverlap`). Consume, revoke,
create (which enforces the cap first) and sweep as separate read, clock and write steps on revisioned documents, all
interleaving; and by how much overlapping creations can exceed the cap.

**Smaller cores.** The batched backup restore (`Restore`), the project integrity checker
(`Integrity`), the bounded worker pool (`WorkerPool`), invite listing and purging (`Invites`), the
memory monitor's sample window (`MemoryWindow`), and the download cookie (`DownloadCookie`).

## Assumptions and readings of the code

- All machines share one clock that never runs backwards; a sample may be stale when it is used.
  Callers of the lock share one set of options and have distinct instance ids.
- The header comment of the lock says a successful read resets the error streak. In the code the claim
  streak is reset only when `tryClaim` returns; a successful read followed by a failed put is one more
  failure. The model follows the code; `LockOutcome.ReadResetsExactly` says which reads reset, and
  `LockOutcome.SuccessfulReadsDoNotReset` gives the run that the comment rules out.
- Lost acknowledgements are part of the lock protocol and of every safety theorem. They are excluded,
  like operator commands, from the termination theorem only.
- Document ids are numbers standing for their place in the store's collation order.
- An `allDocs` request by key range lists live documents only, so a row without its document needs a
  document that is deleted or becomes unreadable between being listed and being loaded; the adapter
  filters for such rows itself (api/src/couchdb/ttlCleanup.ts:395). Nothing is assumed about them. The
  sweep tolerates fewer than ten unkept rows per listing whatever the batch size (`Paging.Tolerable`),
  and beyond that a turn loses documents exactly when `Paging.TurnLoses` holds of it.
- Secrets, codes and uuids are fresh. Whether the account exists and is enabled is a parameter.
- A view lists only documents of its type and with its id prefix, so the sweep's type and prefix tests
  never fail on a listed document.
- `config.emailCodeExpiryMinutes` has no upper limit in the code, so the bound it must respect for
  sweeps to be harmless is part of the condition `Retention.Safe`. That condition is exact: with safe
  options no run notices a sweep, and for any other options some run does
  (`AuthSweeps.UnnoticedExactly`). A stored long-lived expiry of 0, which the validator reads as no expiry
  and the sweep as long past, would be noticed as well; no operation stores it, because times are not
  negative.
- `markCodeAsUsed`, `consumeVerificationChallenge`, `updateLongLivedToken`, `revokeLongLivedToken` and
  `invalidateToken` look a document up and write it back without checking that it is still good. Whether
  they find it is an answer of the model; it is the one answer a sweep can change, and only when the
  document was no longer accepted or counted.
- `createVerificationChallenge` asks no limiter. Requests through the API do so first; registration does
  not (api/src/auth/authRoutes.ts:444), so runs have both operations and the bounds are on allowed requests.
- `deleteExhausted` for invites turns out not to matter: an exhausted invite is rejected for good
  because its use count never falls and nothing in the code raises the limit of a stored invite.

## Model

| member | source | states |
|---|---|---|
| LockSafety.Exclusion | api/src/couchdb/startupMigrationLock.ts:321-380 | in every interleaving whose operator commands change the document only while it is absent, settled or expired, a caller inside `run()` whose claim is younger than the timeout is the running document's holder by that very claim; so at most one unexpired doer, despite stale samples, crashes and lost acknowledgements |
| LockSafety.ExclusionExact | api/scripts/debugMigrationLock.ts:876-1003 | for every run with any operator commands: the exclusion holds in all its states if and only if each operator step leaves the document alone or meets nobody at work under an unexpired claim |
| LockSafety.OperatorStepExact | api/scripts/debugMigrationLock.ts:876-1003 | the same for one operator step, from any state of the invariant |
| LockSafety.NotLiveIsSafe | api/scripts/debugMigrationLock.ts:622-664 | an operator step on a lock that `status` shows absent, settled or expired is such a step |
| LockSafety.UnforcedClaimsKeepExclusion | api/scripts/debugMigrationLock.ts:950-1003 | any mixture of callers and unforced operator claims keeps the exclusion in every state |
| LockSafety.NoOperatorSparesLive | api/src/couchdb/startupMigrationLock.ts:321-380 | runs without operator commands meet the condition of the exclusion theorem |
| LockSafety.OperatorDeleteAdmitsTwoDoers | api/scripts/debugMigrationLock.ts:938-948 | the condition is not idle: a run in which `deleteLock` meets a live doer ends with two unexpired doers |
| LockSafety.ExcludedNext | api/src/couchdb/startupMigrationLock.ts:270-280 | every step of a caller keeps: whoever works under an unexpired claim holds the document |
| LockSettlement.SettlementAuthority | api/src/couchdb/startupMigrationLock.ts:397-427 | with operator commands included, claims are distinct, each gets at most one settlement by a doer, and only by the caller that committed it |
| LockSettlement.LostClaimWritesNothing | api/scripts/debugMigrationLock.ts:892-1003 | once a doer's claim was stolen, force-settled or deleted, no later step of that doer changes the document |
| LockRecord.Bookkeeping | api/src/couchdb/startupMigrationLock.ts:283-297 | the stored history is always the last ten rows of the untruncated log, operators included; without them, the attempt number is the log length (plus one while running) and timed-out rows span the timeout |
| LockOutcome.CallerOutcome | api/src/couchdb/startupMigrationLock.ts:604-662 | a doer result means `run` was invoked exactly once; a waiter result that it never was and that a committed settlement had this outcome; rejection happens if and only if the latest claim or poll failures form an unbroken streak as long as the budget |
| LockOutcome.ReadResetsExactly | api/src/couchdb/startupMigrationLock.ts:604-662 | a successful poll read resets its streak; a successful claim read does so if and only if it finds a live lock, and otherwise the streak is left as it was |
| LockOutcome.SuccessfulReadsDoNotReset | api/src/couchdb/startupMigrationLock.ts:72-75 | against the documentation: for every budget a run in which every read succeeds, every put fails, and the call is rejected with that streak |
| LockProgress.WaiterJoins | api/src/couchdb/startupMigrationLock.ts:488-576 | over runs: a caller waiting on a settled lock whose next successful poll meets no later commit returns as the waiter of that settlement, outcome and error, and never invoked `run` |
| LockProgress.DoerSettles | api/src/couchdb/startupMigrationLock.ts:397-486 | over runs: a doer that holds the lock until its put, with its I/O succeeding, adds exactly one settlement for its own claim to the log, `complete` if `run()` resolved and `failed` with the message if it threw, and the stored document says so, with its history row |
| LockProgress.ClaimantGetsFreeLock | api/src/couchdb/startupMigrationLock.ts:321-388 | over runs: a claimant that reads a lock missing, settled or expired, with nothing committed until it has put, gets the lock |
| LockProgress.PollDecides | api/src/couchdb/startupMigrationLock.ts:541-576 | a poll ends the wait exactly on a settled document, with its outcome and error; goes back to claim exactly when there is none or a running one as old as the timeout; else sleeps the poll interval |
| LockProgress.ClaimDecides | api/src/couchdb/startupMigrationLock.ts:330-346 | the claim's read leads to waiting exactly on a running lock younger than the timeout, else to a put over what was read |
| LockProgress.ClaimCommits | api/src/couchdb/startupMigrationLock.ts:347-379 | the put commits exactly when nothing was committed since the read and it reaches the store; every field of the new document, with the timed-out row of a steal |
| LockProgress.SettleDecides | api/src/couchdb/startupMigrationLock.ts:400-410 | a settlement is put exactly when the read succeeded and found a running lock of this holder |
| LockProgress.SettleCommits | api/src/couchdb/startupMigrationLock.ts:411-436 | it commits exactly when nothing was committed since the read and it reaches the store; every field of the settled document |
| LockProgress.DelaysExact | api/src/couchdb/startupMigrationLock.ts:204-211 | every sleep lasts the poll interval, or after k failures in a row min(cap, base*2^(k-1)) |
| LockTermination.EveryCallEnds | api/src/couchdb/startupMigrationLock.ts:488-576 | an explicit bound on the number of steps of any run without operator commands and lost acknowledgements, and until a call has ended its caller can always step: every call returns or throws |
| LockTermination.MeasureDrops | api/src/couchdb/startupMigrationLock.ts:590-664 | every step lowers one measure built from unclaimed callers, running or settled, time to expiry, and remaining I/O budget |
| LockDoc.BackoffTotalExact | api/src/couchdb/startupMigrationLock.ts:204-211 | n backoffs sum to base*(2^n - 1) if and only if the last delay is within the cap |
| LockDoc.BackoffTotalBound | api/src/couchdb/startupMigrationLock.ts:75-81 | n backoffs never sum to more than base*(2^n - 1) |
| LockDoc.StealableAgreesWithClaim | api/scripts/debugMigrationLock.ts:622-664 | the operator tool calls a lock stealable exactly when a claimant would steal it |
| LockClient.World.Put | api/src/couchdb/startupMigrationLock.ts:358-378 | a put is committed if and only if its revision fits the stored document and the write reaches the store, which a lost acknowledgement hides; then the document is the one given and the commit is recorded, else both are unchanged; the caller goes to the protocol's next state |
| LockClient.World.Get | api/src/couchdb/startupMigrationLock.ts:300-312 | a successful read returns exactly the document stored at that step, after any interference, and changes nothing; the caller goes to the protocol's next state |
| LockClient.TryClaim | api/src/couchdb/startupMigrationLock.ts:321-388 | with operators and lost acknowledgements about: puts a claim exactly when its read succeeded and found no running lock younger than the timeout; the claim is committed, with every field given, exactly when the put reached the store over the document read; claimed, waiting and thrown follow exactly |
| LockClient.SettleLock | api/src/couchdb/startupMigrationLock.ts:390-446 | with operators and lost acknowledgements about: puts the settlement exactly when its read succeeded and found a running lock of this caller; it is committed, with every field given, exactly when the put reached the store over the document read; errors are swallowed |
| LockClient.RunAsDoer | api/src/couchdb/startupMigrationLock.ts:448-486 | invokes the callback exactly once, returns `complete` if it resolved and `failed` with its message if it threw, and settles with that, with operators and lost acknowledgements about |
| LockClient.WaitForDoer | api/src/couchdb/startupMigrationLock.ts:488-576 | the loop terminates; by the document of its last poll it proceeds exactly when that is settled, with its outcome and error, retries exactly when there is none or a running one as old as the timeout at the clock sample, and throws exactly when the poll failed and spent the budget |
| LockClient.WithStartupMigrationLock | api/src/couchdb/startupMigrationLock.ts:590-664 | without operators and lost acknowledgements the whole call terminates and is a run of the protocol; a waiter returns what the settled document it last read says; a doer ran `run` once and put its settlement if it still held the lock; a rejection is an unbroken streak of failures as long as the budget |
| LockOperator.ForceUnlock | api/scripts/debugMigrationLock.ts:892-936 | under any interference: throws without a lock, leaves a settled lock alone unless forced, else puts the settlement, with every field given; answers done exactly when the put took effect over the document read and was acknowledged |
| LockOperator.DeleteLock | api/scripts/debugMigrationLock.ts:938-948 | likewise: asks for the deletion exactly of a lock it found, at the revision read; nothing to do is reported exactly when there was none |
| LockOperator.ForceClaim | api/scripts/debugMigrationLock.ts:950-1003 | likewise: puts the claim, with every field given, exactly when the read worked and found no running lock younger than the timeout, or force was given; refusals leave the lock as it was |
| LockOperator.PutLock | api/scripts/debugMigrationLock.ts:876-890 | succeeds exactly when the revision read is still stored and the write is acknowledged; then the lock given is stored; if the revision no longer fits nothing changes |
| Paging.Pager.Fetch | api/src/couchdb/ttlCleanup.ts:293-350 | one turn, over any listing: it yields a batch, or all that its window holds if that is less; while it goes on, exactly the unfiltered documents after the old startkey up to the new one, a listed row further on; when it stops, it has lost documents if and only if they lie behind a window that was full but counted short, with at most a batch to yield |
| Paging.Walk | api/src/couchdb/ttlCleanup.ts:305-349 | over arbitrary changes between fetches and arbitrary listings: ids strictly increase, nothing is yielded that was not listed, chunks fit the batch; a document listed throughout is yielded if and only if the last turn did not miss it, and that turn missed something if and only if it was a losing one; none is if the listings are tolerable; with deletions only, at most one fetch per initial row and one more |
| Paging.PageMeaning | api/src/couchdb/ttlCleanup.ts:317-335 | for any listing: what a fetched page says about the view after the startkey row is dropped when, and only when, it comes first; pages of filtered rows lose nothing |
| Paging.WindowSplit | api/src/couchdb/ttlCleanup.ts:320-335 | what is to yield after the startkey is what the window holds of it followed by what lies behind the window |
| Paging.TolerableIsSafe | api/src/couchdb/ttlCleanup.ts:380-408 | no turn loses anything if the view is an auth view, or every row has its document, or fewer rows than the over-fetch are without one or are design documents |
| Paging.MissingDocumentsEndTheWalk | api/src/couchdb/ttlCleanup.ts:394-403 | an invites listing with ten rows without documents: the first turn, of batch size 1, stops after one document and loses the other |
| Sweep.BulkDelete | api/src/couchdb/ttlCleanup.ts:409-438 | unless it is a dry run it asks the store for exactly these deletions; the store loses exactly those it answered as deleted; deleted and error counts are the answers'; 404 and 409 count nowhere; a dry run asks for nothing and counts everything as deleted |
| Sweep.SweepType | api/src/couchdb/ttlCleanup.ts:440-472 | over any listing: every unfiltered document is scanned once, but for those the last turn missed, which stay; none is missed if the listing is tolerable; the deletion of every due document scanned is asked for, once and in order, and of no other; the counters count the answers and what was answered as deleted is gone; without failures or misses exactly the documents that are not due are left; a dry run asks for nothing |
| Sweep.SweepBatch | api/src/couchdb/ttlCleanup.ts:488-501 | one batch keeps the accounts: counters, deletions asked for, answers, removed ids and store agree with what was scanned so far |
| Cleanup.RunTtlCleanup | api/src/couchdb/ttlCleanup.ts:507-615 | under safe options: of each of the six types only documents go that nothing accepts or counts and whose retention is over, and all of them unless a deletion failed or lost a race; long-lived tokens only when asked for; a dry run changes nothing; compaction is started exactly when asked for, the run is real and nothing failed |
| Cleanup.SweepBodies | api/src/couchdb/ttlCleanup.ts:440-501 | the same for one type |
| RateLimit.WindowBound | api/src/couchdb/verificationChallenges.ts:114-162 | n creations within one window satisfy n <= max or (n - max)*(cooldown + 1) <= window - 1 |
| RateLimit.EmailBound | api/src/couchdb/emailReset.ts:37-42 | at most 5 email codes in any 30 minutes: the cooldown outlasts the window |
| RateLimit.VerificationBound | api/src/couchdb/verificationChallenges.ts:28-30 | at most 52 verification challenges in any 24 hours |
| RateLimit.CheckMeaning | api/src/couchdb/emailReset.ts:99-137 | refused until a time if and only if at least the allowed number was created within the window before the first clock read, that time is the latest of all creations plus the cooldown, and the second read is not past it |
| RateLimit.EmailCheckExact | api/src/couchdb/emailReset.ts:37-42 | in numbers for email codes: five within half an hour, and the last at most two hours old |
| RateLimit.VerificationCheckExact | api/src/couchdb/verificationChallenges.ts:28-30 | in numbers for challenges: five within a day, and the last at most half an hour old |
| RateLimit.SpacedNext | api/src/couchdb/emailReset.ts:99-137 | a creation the limiter allowed keeps the gated creations ordered, and spaced by the cooldown once the window is full, whatever ungated ones it also counts |
| RateLimit.RefusalEnds | api/src/couchdb/emailReset.ts:123-137 | with no further creation, every request strictly after `nextAttemptAllowedAt` is allowed |
| RateLimit.OldTimesDoNotMatter | api/src/couchdb/ttlCleanup.ts:109-116 | removing creation times from before the window changes neither the decision nor `nextAttemptAllowedAt` |
| Retention.RefreshGraceExact | api/src/couchdb/ttlCleanup.ts:122-133 | sweeping refresh tokens hits only rejected ones if and only if the grace is not negative |
| Retention.EmailLifetimeExact | api/src/couchdb/ttlCleanup.ts:140-155 | sweeping email codes, stamped or not, hits only rejected, uncounted ones if and only if the lifetime is within the retention and the retention covers the window |
| Retention.VerificationGraceExact | api/src/couchdb/ttlCleanup.ts:161-176 | the same for verification challenges, stamped or not, exactly down to a grace of minus the cooldown |
| Retention.InviteGraceExact | api/src/couchdb/ttlCleanup.ts:183-206 | the same for invites, exactly when the grace is not negative, whether or not exhausted ones go |
| Retention.LongLivedExact | api/src/couchdb/ttlCleanup.ts:220-251 | a long-lived token can be swept while still accepted if and only if it is enabled with stored expiry 0 |
| Retention.GrantAlwaysHarmless | api/src/couchdb/ttlCleanup.ts:257-269 | a swept grant is already rejected and uncounted, whatever the grace |
| Retention.DueExactly | api/src/couchdb/ttlCleanup.ts:122-269 | under safe options a document of any kind is due if and only if nothing accepts or counts it any more and its documented retention is over, or it is an exhausted invite and those go |
| Retention.GrantDueExactly | api/src/couchdb/ttlCleanup.ts:257-269 | whatever the grace, a grant is due if and only if it is rejected, uncounted and expired by more than the grace |
| Retention.DueByValidators | api/src/couchdb/ttlCleanup.ts:122-269 | whatever the options, for every kind, when a document is due in terms of what its validator or limiter says at the time that lies its retention back; revoked and lapsed long-lived tokens and exhausted invites included |
| Retention.DeadForever | api/src/couchdb/refreshTokens.ts:204-229 | a document that is rejected and uncounted stays so |
| Retention.DefaultsAreSafe | api/src/couchdb/ttlCleanup.ts:35-42 | the default options are safe if and only if email codes live at most three and a half hours |
| AuthSweeps.SweepsUnobservable | api/src/couchdb/ttlCleanup.ts:507-600 | a run with safe sweeps at arbitrary times, each deleting any part of what was due when it read the clock, gives the same acceptances, limiter decisions and revocation counts as the run without sweeps; the only answer that can differ is whether a write-back without a check (mark, update, revoke, invalidate) still finds a dead document, and none differs if the run writes back live ones only |
| AuthSweeps.UnnoticedExactly | api/src/couchdb/ttlCleanup.ts:507-600 | for all sweep options and any configured code lifetime: no run at all notices sweeps with these options if and only if the options are safe |
| AuthSweeps.UnsafeIsNoticed | api/src/couchdb/ttlCleanup.ts:122-206 | for unsafe options, a run that notices: create, sweep when due, and the validator now rejects |
| AuthSweeps.CompleteSweep | api/src/couchdb/ttlCleanup.ts:507-600 | a sweep that deletes all that is due leaves exactly the documents still accepted or counted, or still retained |
| AuthSweeps.SameAnswer | api/src/couchdb/longLivedTokens.ts:215-236 | any operation answers alike on the swept and the unswept store, identically unless it writes back a dead document unchecked, and keeps them related |
| AuthSweeps.SameDecision | api/src/couchdb/emailReset.ts:92-137 | a limiter decides alike, with the same `nextAttemptAllowedAt`, on both stores |
| AuthSweeps.BoundOverRuns | api/src/api/verificationChallenges.ts:73-89 | over any run with sweeps, the limiters allow at most 5 codes per user in 30 minutes and 52 challenges per user and address in 24 hours, among any number of challenges created without asking them |
| AuthHistory.AnswersExplained | api/src/couchdb/refreshTokens.ts:92-361 | every answer of a run is the one called for by the operations and answers before it, no document mentioned: a token, code, challenge, grant or invite is accepted if and only if it was created for this user and address, has not expired, and was not exchanged, invalidated, marked, revoked or used up since (for grants: not consumed nor withdrawn, and good if fewer than the cap were created since); limiters answer by the creations so far; write-backs find what was created |
| AuthHistory.SpentStaysSpent | api/src/couchdb/longLivedTokens.ts:173-195 | over runs with safe sweeps: an exchange token and a download grant are accepted once; after a mark, invalidation or revocation that found its document, no validation of it is accepted |
| AuthHistory.InviteUses | api/src/couchdb/invites.ts:290-330 | over runs with safe sweeps, an invite with n uses is consumed at most n times |
| AuthEffects.RedemptionMeans | api/src/couchdb/refreshTokens.ts:92-265 | field by field: what the stored document must be for each validator to accept, what acceptance writes, and that no other document changes |
| AuthEffects.AmendmentMeans | api/src/couchdb/longLivedTokens.ts:128-195 | the same for marking, invalidating, updating and revoking: what is found, what is written, and that no other document changes |
| AuthEffects.OthersUnchanged | api/src/couchdb/downloadGrants.ts:117-198 | an operation changes only the document it names, adds at most one, and otherwise only marks live grants of its user used |
| AuthEffects.CapMeans | api/src/couchdb/downloadGrants.ts:141-159 | enforcing the cap marks live grants of the user only, exactly so many that one more fits, and none younger than one it leaves |
| AuthStore.Store.CreateNewEmailCode | api/src/couchdb/emailReset.ts:147-186 | throws, storing nothing, if and only if the user's codes fill the window and the second clock read is not past the latest plus the cooldown, which it names; else stores one code stamped with the last clock read |
| AuthStore.Store.CheckCanCreateEmailCode | api/src/couchdb/emailReset.ts:72-139 | the query, filter, count and reduce over the user's codes decide as the limiter's meaning demands: refusal if and only if the window is full and the cooldown after the latest runs, with its end |
| AuthStore.Store.ValidateEmailCode | api/src/couchdb/emailReset.ts:194-253 | accepts exactly when the stored code with this secret belongs to the user, is unused and unexpired, and the account exists; changes nothing |
| AuthStore.Store.MarkCode | api/src/couchdb/emailReset.ts:260-276 | marks exactly the code or challenge with this secret used, its other fields kept, or reports it missing |
| AuthStore.Store.RequestVerification | api/src/api/verificationChallenges.ts:73-89 | creates a challenge unless this user's challenges for this address fill the window and the cooldown after the latest runs, in which case nothing is stored |
| AuthStore.Store.CheckCanCreateVerificationChallenge | api/src/couchdb/verificationChallenges.ts:98-162 | the same loops over the user's challenges, counting those for the address; refusal if and only if their window is full and the cooldown runs, with its end |
| AuthStore.Store.ValidateVerification | api/src/couchdb/verificationChallenges.ts:172-263 | accepts exactly when the stored challenge with this secret belongs to the user and the address, is unused and unexpired, and the account exists; changes nothing |
| AuthStore.Store.ValidateRefreshToken | api/src/couchdb/refreshTokens.ts:194-265 | accepts exactly when the stored token belongs to the user, is enabled and unexpired, and the account is usable; changes nothing |
| AuthStore.Store.ConsumeExchangeToken | api/src/couchdb/refreshTokens.ts:92-186 | accepts exactly when the stored token belongs to the user, is enabled, its exchange token is unused and unexpired at the first clock read, and it is unexpired at the second; then the exchange token is used, and nothing else changes |
| AuthStore.Store.InvalidateToken | api/src/couchdb/refreshTokens.ts:320-361 | disables exactly the refresh token given, its other fields kept, or reports it missing |
| AuthStore.Store.CreateNewLongLivedToken | api/src/couchdb/longLivedTokens.ts:41-120 | stores the token, enabled, exactly when its expiry is allowed, each comparison with its own clock read |
| AuthStore.Store.ValidateLongLivedToken | api/src/couchdb/longLivedTokens.ts:205-282 | accepts exactly when the stored token is enabled, has no expiry, expiry 0 or an expiry not yet past, the account is usable, and the last-used time needs no writing or is written; nothing else changes |
| AuthStore.Store.AmendLongLivedToken | api/src/couchdb/longLivedTokens.ts:128-195 | update and revoke change exactly the long-lived token with this id, or throw when there is none; a revoked one is disabled with the time of revocation, its other fields kept |
| AuthStore.Store.RevokeUnusedGrantsForUser | api/src/couchdb/downloadGrants.ts:117-135 | marks exactly the user's unused, unexpired grants, returns their number, and leaves none |
| AuthStore.Store.EnforceUnusedGrantCap | api/src/couchdb/downloadGrants.ts:141-159 | marks only live grants of the user, so many that fewer than the cap are left and no more, and none younger than one it leaves |
| AuthStore.Store.CreateDownloadGrant | api/src/couchdb/downloadGrants.ts:165-198 | enforces the cap, then stores one unused grant for the user with its expiry |
| AuthStore.Store.ConsumeDownloadGrant | api/src/couchdb/downloadGrants.ts:211-247 | succeeds exactly for a stored grant that is unused and unexpired, with the right secret, which it marks used, and nothing else; says `used` or `expired` exactly when that is so |
| AuthStore.ViewIsLookup | library/data-model/src/data_storage/authDB/design.ts:71-89 | a view query by secret finds the one document with the secret if it is of the view's kind |
| GrantCap.AtMostTenUnusedGrants | api/src/couchdb/downloadGrants.ts:24-25 | after any sequential run of any operations a user has at most ten unused, unexpired grants |
| GrantCap.OldestFirstSorts | api/src/couchdb/downloadGrants.ts:144-146 | the grants the cap revokes come from the list in order of creation |
| GrantCap.RoomForOne | api/src/couchdb/downloadGrants.ts:148-158 | revoking the overflow leaves room for one more grant |
| Grants.SingleUse | api/src/couchdb/downloadGrants.ts:98-111 | in every interleaving at most one consume, revocation or creation (which enforces the cap) ever wins a given grant |
| Grants.UsedNeverReverts | api/src/couchdb/downloadGrants.ts:103-110 | a used grant stays used until deleted, and a deleted one never returns |
| Grants.NoConsumeAfterRevoke | api/src/couchdb/downloadGrants.ts:117-159 | after one process marked a grant used, even if it was told the write failed, no other ever wins it |
| Grants.WinsAreJustified | api/src/couchdb/downloadGrants.ts:211-247 | a consume that won had the right secret for that grant and read a clock at which the grant was unexpired |
| Grants.LiveGrantsSurvive | api/src/couchdb/ttlCleanup.ts:267-268 | no step deletes an unused, unexpired grant |
| GrantOverlap.OverlapBound | api/src/couchdb/downloadGrants.ts:141-198 | in every interleaving with lost acknowledgements, crashes and sweeps: while at most c creations for a user are in progress at once and none fails more than f marks, the user has at most 9 + c + f unused, unexpired grants, or as many as at the start |
| GrantOverlap.OverlapBoundMet | api/src/couchdb/downloadGrants.ts:24-25 | for every c a run with c overlapping creations and no failed write ends with 9 + c: overlapping calls exceed the cap by exactly this much |
| GrantOverlap.RevocationIsComplete | api/src/couchdb/downloadGrants.ts:117-135 | in every interleaving: a revocation that went through its list without a failed write leaves no live grant of those the user had when it read them |
| GrantProgress.ConsumeWins | api/src/couchdb/downloadGrants.ts:211-247 | in every interleaving: a consume with the right secret, of a grant unused and unexpired throughout that nobody else touches, wins if its write is acknowledged; the grant is then used |
| GrantProgress.SelectsExactly | api/src/couchdb/downloadGrants.ts:117-247 | what each task goes on to write, of what it read, in terms of the grant's fields |
| GrantProgress.WritesExactly | api/src/couchdb/downloadGrants.ts:98-111 | a write takes effect exactly when it did not fail and the grant is as read, and what it does to the fields |
| Restore.Databases.Restore | api/src/couchdb/backupRestore.ts:46-157 | the documents written, followed by those still in the batch at an early return, are, one each and in file order, the records before the first throwing line that are no design documents and whose latest header matches the pattern and names a known database; each without its revision, to the database its header names; batches hold 1 to 500 documents |
| Restore.Databases.HandleLine | api/src/couchdb/backupRestore.ts:72-149 | one line adds what the line-at-a-time reference adds, keeps every pending document for the database in use and the batch under 500 |
| Restore.RestoreWellFormed | api/src/couchdb/backupRestore.ts:47-155 | the same for every well-formed file, where nothing is lost |
| Restore.ImmediateMeans | api/src/couchdb/backupRestore.ts:72-149 | what the line-at-a-time reference writes, told by the lines alone: which records, in what order, to which database, without revisions |
| Restore.FailsMeans | api/src/couchdb/backupRestore.ts:72-152 | which lines throw, told by the lines alone |
| Restore.SecondPartMeans | api/src/couchdb/backupRestore.ts:107 | the project of a data database is the part of the header name between the first double bars and the next |
| Restore.DataOfProject | api/src/couchdb/backupRestore.ts:106-112 | a header `data||p` stands for the data database of p |
| Restore.LostExactly | api/src/couchdb/backupRestore.ts:143-148 | exactly how many accepted documents an early return never writes: none at a header, else the eligible lines since the last header or thousandth line, modulo the batch size |
| Restore.MalformedLosesDocuments | api/src/couchdb/backupRestore.ts:146-147 | a three-line file whose only document is accepted and never written |
| Integrity.ValidateProjectDatabase | api/src/couchdb/devtools.ts:357-457 | the errors are exactly: each record that cannot be read, each reference reachable from a record that does not resolve, and for each kind, if there are any, the `frev`, `avp` or `att` documents that no record reaches |
| Integrity.Checker.CheckRevisions | api/src/couchdb/devtools.ts:391-426 | the errors added and the ids crossed off for one record's revisions are exactly its unresolved references and what it reaches |
| Integrity.Checker.CheckAvps | api/src/couchdb/devtools.ts:396-420 | the same for one revision's attribute-value pairs |
| Integrity.Checker.CheckAttachments | api/src/couchdb/devtools.ts:402-414 | the same for one pair's attachments |
| WorkerPool.RunWithConcurrency | api/src/couchdb/devtools.ts:44-67 | for every order in which tasks settle, rejections included: indices are taken once each, in order; the peak in flight is min(concurrency, count); every taken slot holds its own index's result, or none if that was rejected; the call rejects if and only if there is a worker and some task rejects, with the first rejection; all indices are taken in the end unless every worker met a rejection |
| WorkerPool.Pool.Resolve | api/src/couchdb/devtools.ts:57-63 | a resolution fills its own slot only, and the worker takes the next index or finishes |
| WorkerPool.Pool.Reject | api/src/couchdb/devtools.ts:57-66 | a rejection ends its own worker only, fills nothing, and is reported if it is the first |
| Invites.InvitesDb.FindEveryInvite | api/src/couchdb/invites.ts:352-373 | skip-paging a quiet store returns every match once, in order, in matches/200 + 1 queries |
| Invites.FindEvery | api/src/couchdb/invites.ts:352-373 | over a store that changes between queries: a match is returned if and only if some page has it in [skip, skip + 200) when fetched; one that matches throughout is never missed if no match before a skip disappears |
| Invites.DeletionHidesExactly | api/src/couchdb/invites.ts:361-371 | one deletion between the first two queries hides the match at the page boundary if and only if it is before the boundary |
| Invites.MergeExact | api/src/couchdb/invites.ts:432-436 | the merge with the quick-share view has no duplicates, and is a rearrangement of the project's invites if and only if the view is a subset |
| Invites.InvitesDb.GetProjectInvites | api/src/couchdb/invites.ts:422-437 | for the view as designed, the result is a duplicate-free rearrangement of the project's invites |
| Invites.InvitesDb.DeleteInvite | api/src/couchdb/invites.ts:235-251 | removes the invite with this id, or reports it missing |
| Invites.InvitesDb.DeleteAllInvitesForProject | api/src/couchdb/invites.ts:464-471 | never meets the not-found exception and leaves exactly the other invites |
| MemoryWindow.MemoryMonitor.Record | api/src/memoryMonitor.ts:445-451 | the buffer then holds exactly the recent ones of its samples if and only if every sample after a recent one is recent; it stays the ten-minute window of the history if and only if, besides, no sample that had left is recent again; times that never go back always qualify |
| MemoryWindow.DropExact | api/src/memoryMonitor.ts:446-450 | shifting from the front leaves exactly the recent samples if and only if every sample after a recent one is recent |
| MemoryWindow.WindowMovesExactly | api/src/memoryMonitor.ts:445-451 | exactly when pushing and shifting turns the old window into the new one, for any times |
| MemoryWindow.MemoryMonitor.FilterIsIdle | api/src/memoryMonitor.ts:205-207 | so the diagnostics' ten-minute filter removes nothing |
| MemoryWindow.SteppedClockKeepsOld | api/src/memoryMonitor.ts:447-448 | a history, after the clock stepped back, in which the condition fails and the buffer keeps a sample from outside the window |
| MemoryWindow.FindSampleAtOrBefore | api/src/memoryMonitor.ts:139-149 | the latest sample at or before the time, else the oldest |
| MemoryWindow.Peaks | api/src/memoryMonitor.ts:212-221 | each peak is the latest of the largest samples |
| MemoryWindow.GrowStreak | api/src/memoryMonitor.ts:225-234 | the streak is the sum of the rounded steps of the maximal strictly growing suffix, which is unique |
| MemoryWindow.HeapTrend | api/src/memoryMonitor.ts:197-262 | the trend in terms of one percent of the heap at least thirty seconds ago, without division; that sample exists exactly when the span is long enough |
| DownloadCookie.GrantCookieRoundTrip | api/src/downloadCookie.ts:79-86 | from any header of clean cookies an id and secret are read if and only if the cookie the reader prefers (the last secure one, else the last plain one) carries them in a form that can be set |
| DownloadCookie.SetThenRead | api/src/downloadCookie.ts:23-86 | a cookie that was set is read back if and only if it was set on a secure scheme or no secure cookie with another value is left over |
| DownloadCookie.LeftoverSecureCookieHides | api/src/downloadCookie.ts:79-86 | the failing header: a leftover secure cookie hides the plain one set since, in either order |
| DownloadCookie.ValueRoundTrip | api/src/downloadCookie.ts:59-73 | a printed value is read back if and only if the id is non-empty without a dot and the secret is non-empty |
| DownloadCookie.HeaderParses | api/src/downloadCookie.ts:27-51 | a header of clean cookies parses to their dictionary, the last of a name counting |
| DownloadCookie.ParseCookieHeader | api/src/downloadCookie.ts:34-49 | the dictionary of the header: split at semicolons, each part at its first `=`, both sides trimmed; of each non-empty name the last value, decoded when possible |

## Left out

- Express routes, sessions, e-mail, object storage, logging, hashing and id generation: plumbing around the modelled code.
- `safeWriteDocument` and its clash policy, the database initialiser, data migrations and role changes: not shown; code paths through `safeWriteDocument` (marking codes, invite use, token updates) are modelled sequentially, and `writeOnClash` is not part of the restore.
- AuthSweeps.SweepsUnobservable: reason strings of rejections, and titles and descriptions of tokens, are not modelled.
- LockTermination.EveryCallEnds: assumes no operator commands (an operator who keeps claiming or deleting can keep callers busy for ever), no lost acknowledgements, sleeps of at least one millisecond and a `run()` that ends; after a lost acknowledgement a caller waits on its own lock until it expires.
- AuthHistory.AnswersExplained: which grants a creation displaces is said by `AuthEffects.CapMeans`, and how many a revocation marks by `AuthStore.Store.RevokeUnusedGrantsForUser`; the history says only that a grant stays good while fewer than the cap were created after it.
- Cleanup.RunTtlCleanup: each database is quiet during the cleanup; interleavings with other operations are in `Paging.Walk` and `AuthSweeps.SweepsUnobservable`. Compaction itself, durations and log lines are not modelled.
- AuthSweeps.BoundOverRuns: a check and the creation it allows are one operation; requests that overlap could pass the check together, which the code does not prevent.
- Restore.Databases.Restore: batch writes succeed; how single documents of a batch fail is decided in code that is not shown.
- WorkerPool.RunWithConcurrency: the rejection reaches the caller at once, while the other workers go on; the results and counts are stated for when they have stopped.
- Integrity.ValidateProjectDatabase: the database does not change during the check, and its only read error is a missing document.
- Grants: the concurrent protocol is a state machine on values; the methods of `AuthStore` run alone.
- LockClient.WithStartupMigrationLock: written out for the world without operator commands and lost acknowledgements, because the loop need not end in the other; the theorems about runs cover both.
- MemoryWindow.HeapTrend: percentages are exact reals where the source compares rounded doubles, so a change within rounding of one percent can be classified differently.
- `migrateStoredUiSpecificationIfNeeded` and `describeDbVersion`: one decision per document and one counting loop, which would only add easy members.
- Diagnostics other than the window, peaks, streaks and trend, and all formatting of log lines.
- docs/developer/docs/source/markdown/TtlCleanup.md does not mention that download grants are swept; the code is followed.
