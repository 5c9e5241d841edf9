# A verified model of the hybrid auth store

This project models the storage core of `@luoarch/baileys-store-core` in Dafny and proves what it keeps, promises
and, in places, fails to keep. It follows the TypeScript code branch by branch; where the code and its
documentation disagree, the code is modelled. `dafny verify dfyconfig.toml` checks everything.

## What is modelled

**The hybrid store.** A session lives in Redis as three keys (creds, keys, meta) with separate deadlines
(`RedisStore.dfy`), in Mongo as one versioned document behind a 5 second in-process cache (`MongoStore.dfy`,
`MongoCache.dfy`), and, when writes are queued, in an outbox with retries and a dead letter list
(`Outbox.dfy`). `HybridStore.dfy` holds the orchestrating class and the Baileys hook. The stores are classes whose
methods are tied to specification functions; what those functions mean is proved beside them in plain numbers and
over whole runs: how a set answers and what it leaves in each layer, how long a cached document is served, what a check
says of the events before it, which key a ciphertext needs.

- `HybridProtocol.dfy` splits every await of a write-through session into its own step: one caller at a time, whose own
  Redis and Mongo commands succeed and who sets keys only once there are creds; Redis losses of any key at any moment;
  and the warmers, which run beside everything, are waited for by nobody and may fail. Five files compare it with a
  plain map and with the classes.
  - `HybridRefinement.dfy`: in a run in which no warmer writes an overtaken snapshot and keys.set finds nothing old in
    what it leaves in place, answers, versions and Mongo writes are right if and only if every get that finds creds in
    Redis also sees the keys and had seen the version.
  - `HybridTiming.dfy`: where Redis loses its three keys together, the timing that brings this about is exact, step by
    step. A loss must not come between a get's looks at creds and keys; saveCreds must not write to a Redis that does
    not show the session's keys; keys.set must not merge over ids it does not send, as when it deletes, nor next to
    old creds; a warmer must not write what a set or a delete overtook, nor fill Redis under a get that found no
    version. Every step of another kind is safe, and each of these can be followed by a run that breaks the map.
  - `HybridPatience.dfy`: callers that only add and let each warmer finish before they write meet all of that, losses
    at two moments apart.
  - `HybridPitfalls.dfy`: runs from the start state in which it goes wrong, among them the ordinary one in which
    saveCreds overtakes the warmer of its own get. Even without losses, routine saves renew the creds' deadline and not
    the keys' (`RedisFieldLifetime`).
  - `HybridQuiet.dfy`: sent without interference, the commands add up to the get, set and warm of the stores' classes.
- `HybridConcurrency.dfy` interleaves set calls on one session under the per-session mutex. A call keeps the mutex that
  was filed when it was made; an eviction does harm only through a call that arrives afterwards, while another one is
  yet to write.
- `OutboxProtocol.dfy` interleaves setters, reconciler workers, crashes and failing commands one Redis or Mongo
  command at a time; `OutboxDrain.dfy` and `OutboxReplay.dfy` treat a single reconciler and the order of replay, and
  `OutboxQuiet.dfy` says what the commands of a setter or worker left to itself amount to.

**The codec** (`Codec.dfy`, `KeyOrder.dfy`): canonical key order, the two Buffer revivals, the outbox's extra JSON hop
and the Buffer check on stored values, over unbounded value trees.

**The time-driven machines**: `TokenBucket.dfy`, `RateLimiter.dfy`, `ConnectionTracker.dfy`, `RotationMonitor.dfy`.
Clocks are parameters; reals stand for JavaScript numbers.

**Key rotation** (`CryptoService.dfy`): the key manager, and the two envelopes ciphertext is kept in, over an abstract
authenticated cipher. What is assumed of AES-GCM is that opening undoes sealing (sections 7.1 and 7.2 of NIST SP
800-38D). Nothing is assumed of a tag under another key, as GCM does not commit to its key; one theorem takes it as a
hypothesis on the message at hand.

**Retry loops**: `Backoff.dfy` and the upsert loop in `MongoStore.dfy`.

## Where code and documentation differ

- Optimistic locking is documented as throwing on a version mismatch (src/types/index.ts:80-90). The code never does:
  a stale Mongo write meets a duplicate key and is sent again without the version test, and Redis never tests the
  version (`MongoStore.StaleWritesWin`, `MongoStore.SuccessStoresTheNextVersion`).
- The session rate limiter, configured with a maximum of at least 1, never makes a caller wait: it debits a fresh
  bucket and never the session's own (`RateLimiter.SessionRateLimiter.Acquire`).
- With encryption off, or after a key rotation, what was written to Mongo cannot be read back
  (`KeyRotation.FrameReadsBackUnderItsKey`, `KeyRotation.FrameRoundTripsExactlyUnderItsKey`).
- A save right after Redis lost a session can leave Redis with creds and without keys, so that later gets answer with
  none: the warmer its get left behind is overtaken and gives up (`HybridPitfalls.OvertakenWarmerHidesTheKeys`).
- A deletion through the hook's `keys.set` leaves the id in Redis, and the next get shows it again
  (`HybridStore.HookDeletionsMissRedis`, `HybridPitfalls.HotDeletionsComeBack`).
- An outbox entry a crash leaves in `processing` is never collected again, and its acknowledged write never reaches
  Mongo (`OutboxProtocol.CrashStrandsAnAcknowledgedWrite`, `OutboxDrain.ThreePassesSettleAllButProcessing`).
- Out of order, as ten workers at once may replay it, the outbox can leave an older version and older fields in Mongo
  (`OutboxReplay.AnyOrderAgreesExactlyWhenFieldsEndNewest`).
- `touch` sends three EXPIRE commands; if the last one comes too late, or asks for more than the default time, the
  version is forgotten (`RedisMetaLifetime.RunsKeepThePromiseExactlyWhenTouchesRenewWell`).

## Model

| member | source | states |
|---|---|---|
| `HybridRefinement.RefinesThePlainMapExactlyWhenLegal` | src/hybrid/store.ts:248-342 | over every run of gets, saveCreds, keys.set with or without deletions, deletes, warmers that nobody waits for and arbitrary Redis losses, provided no warmer writes an overtaken snapshot and keys.set finds nothing old in what it leaves in place: every completed get answers the plain map, the Redis version is the Mongo version or one more, no Mongo write meets a duplicate key and versions rise, if and only if every get that finds creds sees the session whole |
| `HybridTiming.CarefulRunsAreLegal` | src/hybrid/store.ts:881-933 | the hypotheses and the condition of the row above hold, and with them the refinement, in every run with joint losses only whose steps avoid the moments named in the next row |
| `HybridTiming.StepIsSafeExactlyWhenCareful` | src/hybrid/use-hybrid-auth-state.ts:102-142 | the timing condition is exact for every kind of step, with joint losses: a step is followed only by runs that refine the plain map if and only if it is no loss of a session with keys after a get found its creds, no saveCreds write to a Redis without the session's keys, no keys.set merging over ids it does not send or writing next to other creds, no warmer writing an overtaken snapshot, and no warmer filling Redis between a get that found no version and its look for creds, unless the version is still 1 |
| `HybridTiming.OvertakenWarmBreaks` | src/hybrid/store.ts:881-933 | a warmer that writes a snapshot overtaken by a set or a delete: some continuation breaks the refinement, wherever the caller is |
| `HybridTiming.LeftoverIdsBreak` | src/redis/store.ts:305-321 | keys.set that reads ids to merge over which it does not send: they come back, even if Redis loses the session before the write |
| `HybridPatience.TimelyRunsAreCareful` | src/hybrid/store.ts:309-324 | a caller who only adds, and before whose Redis writes and deletes each warmer has ended without failing, gets the plain map under joint losses at any moment but two: between a get's looks at creds and keys, and before a saveCreds write with no warmer left, of a session with keys |
| `HybridPatience.PatientCallersGetAPlainMap` | src/hybrid/store.ts:248-342 | so from the empty store on every run of such a caller refines the plain map |
| `HybridRefinement.HotAnswerIsRightExactlyWhenWhole` | src/redis/store.ts:212-254 | a Redis hit answers with the plain map under an acceptable version if and only if the keys (or none were set) and the version (or it is the first) were seen |
| `HybridRefinement.ColdAnswerIsRight` | src/hybrid/store.ts:283-324 | a get that falls back to Mongo, through the document cache or not, answers exactly the plain map |
| `HybridRefinement.DroppingTheCachedDocumentIsInvisible` | src/mongodb/store.ts:105-113 | as long as one process writes a session, its document cache changes no answer |
| `HybridRefinement.StepKeepsInv` | src/hybrid/store.ts:347-444 | each command of a get, set, delete or warm keeps the invariant linking Redis, Mongo, cache and caller to the plain map; warmers may carry anything |
| `HybridRefinement.WarmKeepsInv` | src/hybrid/store.ts:881-933 | check, merge read and pipeline of a warmer, run outside the mutex with version + 1, keep the invariant as long as its snapshot is current when it writes |
| `HybridRefinement.ReadMongoKeepsInv` | src/hybrid/use-hybrid-auth-state.ts:102-125 | keys.set assigns into the snapshot the warmer is still to send, whichever ids come before its first deletion, and the invariant survives it |
| `HybridRefinement.WriteRedisKeepsInv` | src/redis/store.ts:298-335 | the Redis part of a set leaves exactly the table the caller computed, whatever part of it Redis still had |
| `HybridRefinement.WriteMongoKeepsInv` | src/mongodb/store.ts:355-429 | the Mongo part takes one upsert, raises the version and makes the document the plain map after the set |
| `HybridRefinement.MergeOverwritesExactlyWithin` | src/redis/store.ts:305-321 | merging a table over another one gives the table if and only if the other has no id it lacks |
| `HybridProtocol.ScribbledLooksUp` | src/hybrid/use-hybrid-auth-state.ts:108-123 | id by id, what the warmer's snapshot holds after keys.set went over it |
| `HybridQuiet.QuietGet` | src/hybrid/store.ts:248-342 | a get of the protocol sent without a break answers what Redis shows, else what Mongo or its cache has, and leaves a warmer exactly if Mongo answered |
| `HybridQuiet.QuietSet` | src/hybrid/store.ts:378-431 | a set of the protocol sent without a break is the Redis store's set and one upsert |
| `HybridQuiet.QuietWarm` | src/hybrid/store.ts:881-933 | a warmer sent without a break sets its whole snapshot, unless Redis has its version or a later one |
| `HybridPitfalls.JointLossIsNotEnough` | src/hybrid/use-hybrid-auth-state.ts:137-142 | a run with joint losses only, creds first and every warm done, after which a get answers no keys although the session has some |
| `HybridPitfalls.LossBeforeSaveCredsHidesTheKeys` | src/hybrid/use-hybrid-auth-state.ts:137-142 | from every state in which Redis lost the session between saveCreds' read and write, the next get answers without the session's keys |
| `HybridPitfalls.WarmDuringAGetForgetsTheVersion` | src/redis/store.ts:216-227 | a warmer between the reads of a get makes it report version 1; the set that follows collides in Mongo and puts the version back to 2 |
| `HybridPitfalls.OvertakenGetReportsVersionOne` | src/hybrid/store.ts:309-324 | a run from the start state in which that happens to a session at version 2 |
| `HybridPitfalls.OvertakenWarmerHidesTheKeys` | src/hybrid/store.ts:309-324 | a run from the start state with one loss, of an idle session: saveCreds misses, writes before its get's warmer does, the warmer finds a newer version and ends, and the next get answers no keys |
| `HybridPitfalls.HotDeletionsComeBack` | src/hybrid/use-hybrid-auth-state.ts:102-125 | with nothing lost and no warmer about, the get after a keys.set answers the plain map if and only if the data deletes nothing the session has |
| `HybridPitfalls.SavedCredsOutliveTheKeys` | src/redis/store.ts:284-350 | after a creds-only set a live get shows the keys exactly before the keys' own deadline |
| `HybridPitfalls.KeysFirstSessionIsUnreadable` | src/mongodb/store.ts:605-626 | keys written before any creds make a document that cannot be read |
| `HybridConcurrency.ConcurrentSetsAreSerialisable` | src/hybrid/store.ts:353-379 | any interleaving of sets, with evictions of the mutex at any time, leaves Redis as the sets one after the other in lock order, and each id as the last call naming it said, as long as every new call gets the filed mutex or finds no call that is yet to write |
| `HybridConcurrency.ArrivalsAreSafeExactlyWhenTheyFit` | src/hybrid/store.ts:868-875 | that condition is exact: otherwise some arriving call and some continuation leave Redis not serialised |
| `HybridConcurrency.SerialIsLastWriterWins` | src/redis/store.ts:298-335 | folding the merge in order is last writer wins per key type and id, null deleting, unnamed ids untouched |
| `HybridConcurrency.StepKeepsInv` | src/hybrid/store.ts:868-875 | each step keeps: calls yet to write share a mutex, a mutex has one holder, its read is current, Redis is the serial outcome so far |
| `HybridConcurrency.EvictionLetsTwoIn` | src/hybrid/store.ts:353-356 | after an eviction a call that arrives is inside at once with the holder of the old mutex; the calls queueing on that are not |
| `HybridConcurrency.TwoInsideLoseAnUpdate` | src/redis/store.ts:298-362 | two calls inside that read the same keys lose what only the first to write said, although both succeed |
| `HybridConcurrency.SomebodyCanGoOn` | src/hybrid/store.ts:353-379 | no deadlock: a call that is not over can go on or waits for a holder that can |
| `HybridConcurrency.CommandsUseUpTheWork` | src/hybrid/store.ts:353-379 | every command of a call takes from the finite work of the calls there are, so all of them end |
| `HybridConcurrency.FailedCallFreesItsMutex` | src/hybrid/store.ts:353-379 | a call whose pipeline failed is over, wrote nothing and gives its mutex up |
| `HybridStore.HybridAuthStore.Get` | src/hybrid/store.ts:248-342 | hot hit, else what Mongo has through breaker and cache, a Mongo failure read as a missing session; exactly the cold answers go to the warmer |
| `HybridStore.HybridAuthStore.Set` | src/hybrid/store.ts:347-444 | answer and contents of all four layers after a set, for every combination of failures: Redis first, then queue with outbox entry or direct write, and the completion mark |
| `HybridStore.HybridAuthStore.Delete` | src/hybrid/store.ts:450-505 | an error exactly when neither layer could be deleted from, and which layers lost the session |
| `HybridStore.HybridAuthStore.WarmCache` | src/hybrid/store.ts:881-933 | writes the whole snapshot as version + 1 unless Redis has that version or more |
| `HybridStore.SetThenGet` | src/hybrid/store.ts:378-431 | after an acknowledged set, of creds or keys, the patch is in the Mongo document field by field, or under its version in the outbox; Redis answers at once with it merged in, under the version returned, exactly when the patch has creds or Redis still shows some |
| `HybridStore.SaveAndRestart` | src/hybrid/use-hybrid-auth-state.ts:130-142 | a hook started after an acknowledged saveCreds has the creds saved and not its fresh ones, whether Redis answers or, after a direct write, Mongo |
| `HybridStore.HowASetAnswers` | src/hybrid/store.ts:363-444 | a set is acknowledged if and only if Redis took it and then the queue did, its outbox entry acknowledged, or Mongo did, its completion mark set; if Redis did not take it nothing changed anywhere, and if it did the patch is readable, acknowledged or not |
| `HybridStore.WhatASetTouches` | src/hybrid/store.ts:363-444 | no other session is touched in any layer; a direct write renews the expiry, to the instant of the write plus the time to live, and drops the cached document |
| `HybridStore.SetWhateverHappens` | src/hybrid/store.ts:347-444 | the call does both, for every combination of failures |
| `HybridStore.HowASetIsBooked` | src/hybrid/store.ts:382-419 | an acknowledged set leaves its fresh entry pending if the queue took it; if it wrote to Mongo itself the entry is completed with patch, token and attempts unchanged and one more deletion is scheduled; no other entry changes |
| `HybridStore.SetThenReconcile` | src/hybrid/outbox.ts:158-175 | the pass after an acknowledged set collects the entry of a queued one, and completes it or books a failure as Mongo answers, and neither rewrites nor gives up on the entry of a direct one |
| `HybridStore.ColdGetTwice` | src/hybrid/store.ts:283-342 | while Redis does not answer, the second of two gets is answered from the cache up to 5000 ms after the first one filled it and from Mongo afterwards; an open breaker and a Mongo failure read as a missing session |
| `HybridStore.ColdGetThenWarm` | src/hybrid/store.ts:881-933 | after a get that misses and its warmer, Redis answers with the very snapshot, app state included, under the next version, as long as the default time lasts |
| `HybridStore.HybridAuthState.KeysSet` | src/hybrid/use-hybrid-auth-state.ts:102-126 | the set of the merged table under the version just read, over the keys just read |
| `HybridStore.HybridAuthState.SaveCreds` | src/hybrid/use-hybrid-auth-state.ts:137-142 | the set of the held credentials under the version just read |
| `HybridStore.HookDeletionsMissRedis` | src/hybrid/use-hybrid-auth-state.ts:111-123 | id by id: what the hook sends drops a deleted id, what Redis makes of it keeps the id with its old value |
| `HybridStore.LayersAgreeExactlyWithoutDeletions` | src/redis/store.ts:300-322 | after a hook set over a hot read Redis holds the table Mongo was sent if and only if the data deletes nothing that is there |
| `OutboxProtocol.NoAcknowledgedWriteIsLost` | src/hybrid/outbox.ts:73-153 | under every interleaving of setters, workers of overlapping reconcilers, crashes and command failures, a version whose set returned is in Mongo, open in the outbox, or a dead letter, with its own patch |
| `OutboxProtocol.CompletedMeansWritten` | src/hybrid/outbox.ts:113-135 | an entry marked completed carries the patch its version was issued for, and Mongo accepted it |
| `OutboxProtocol.StepKeepsInv` | src/hybrid/outbox.ts:210-276 | every single command keeps the protocol invariant |
| `OutboxProtocol.SetterKeepsInv` | src/hybrid/store.ts:382-419 | so do the commands of a set in the write-behind branch, acknowledgement included |
| `OutboxProtocol.WritingWorkerKeepsInv` | src/hybrid/outbox.ts:212-236 | so do a worker's commands up to completion, each of which may fail or go unacknowledged |
| `OutboxProtocol.DeadWorkerKeepsInv` | src/hybrid/outbox.ts:311-333 | a patch is in the dead letter list before its entry is removed |
| `OutboxProtocol.RunKeepsInv` | src/hybrid/outbox.ts:182-305 | over every run |
| `OutboxQuiet.QueuedSetLeavesItsEntry` | src/hybrid/store.ts:382-402 | a set of the protocol left to itself leaves its fresh entry pending and is acknowledged |
| `OutboxQuiet.RefusedSetWritesDirectly` | src/hybrid/store.ts:403-414 | when the entry, its expiry or the queue job fails it goes on to the direct write |
| `OutboxQuiet.DirectWriteCompletesItsEntry` | src/hybrid/store.ts:411-419 | which leaves the patch in Mongo, the entry completed and its deletion scheduled |
| `OutboxQuiet.FailedSetIsNotAcknowledged` | src/hybrid/store.ts:432-444 | and is not acknowledged when it or the completion mark fails |
| `OutboxQuiet.AcceptedEntryIsCompleted` | src/hybrid/outbox.ts:210-222 | a worker left to itself completes an entry Mongo accepts |
| `OutboxQuiet.RefusedEntryIsRetriedOrBuried` | src/hybrid/outbox.ts:241-250 | and books a failure, or at the third attempt a dead letter with patch, token and attempts, when Mongo refuses |
| `OutboxQuiet.FailedCommandIsCaught` | src/hybrid/outbox.ts:237-250 | whichever command of the try block fails |
| `OutboxQuiet.TimersRemoveWrittenEntries` | src/hybrid/outbox.ts:127-134 | a timer that fires removes an entry whose patch Mongo has |
| `OutboxDrain.DrainsInThreePasses` | src/hybrid/outbox.ts:211-275 | whatever Mongo answers and whatever setters add meanwhile, three passes settle every entry waiting at the start |
| `OutboxDrain.AttemptsStayBounded` | src/hybrid/outbox.ts:158-175 | over every run stored attempts stay at most 2, dead letters carry 3 and no entry gets more than three Mongo attempts |
| `OutboxDrain.EachPassCostsAnAttempt` | src/hybrid/outbox.ts:241-250 | an entry still open after n passes has used n of its attempts |
| `OutboxDrain.TwoPassesAreNotEnough` | src/hybrid/outbox.ts:241-250 | three is exact |
| `OutboxDrain.ProcessingEntriesAreStuck` | src/hybrid/outbox.ts:166-169 | however many passes run, an entry left processing stays exactly as it is, never done, and a dead letter if and only if it was one, unless its own setter completes it |
| `OutboxDrain.ThreePassesSettleAllButProcessing` | src/hybrid/outbox.ts:158-175 | three passes settle a stored entry if and only if it was not left processing, was settled already (dead-lettered by a worker that died before removing it), or a setter has completed it or does meanwhile |
| `OutboxProtocol.AbandonedEntriesStay` | src/hybrid/outbox.ts:166-169 | over every run of setters, reconcilers, crashes and failures a processing entry nobody is working on keeps its exact value, and its patch reaches neither Mongo nor the dead letter list |
| `OutboxProtocol.CrashStrandsAnAcknowledgedWrite` | src/hybrid/outbox.ts:210-222 | a run from the start state that gets there: an acknowledged write whose worker dies after marking it, and which no continuation ever writes |
| `OutboxReplay.InOrderReplayNeverCollides` | src/hybrid/outbox.ts:174 | in ascending order over an older document every entry takes one upsert and raises the stored version |
| `OutboxReplay.ReplayIsLastWriterWins` | src/mongodb/store.ts:314-412 | in any order each field ends as the last entry naming it left it, and the version is the last applied one |
| `OutboxReplay.AnyOrderAgreesExactlyWhenFieldsEndNewest` | src/hybrid/outbox.ts:207-222 | replay in another order ends in the document of the ascending replay if and only if the newest entry is applied last and, field by field, the last entry naming it gives the value the newest one gives |
| `Outbox.OutboxManager.AddEntry` | src/hybrid/outbox.ts:73-108 | the first entry of a version stays |
| `Outbox.OutboxManager.MarkCompleted` | src/hybrid/outbox.ts:113-135 | only the status of an existing entry changes, and its deletion is scheduled |
| `Outbox.OutboxManager.DeleteCompleted` | src/hybrid/outbox.ts:127-134 | an hour later the field goes, whatever it holds by then, or stays if the command fails |
| `Outbox.OutboxManager.MarkFailed` | src/hybrid/outbox.ts:140-153 | status and attempt counter of an existing entry change |
| `Outbox.OutboxManager.GetPendingEntries` | src/hybrid/outbox.ts:158-175 | exactly the session's entries that are pending or failed with attempts left, by ascending version |
| `Outbox.OutboxManager.MoveToDeadLetter` | src/hybrid/outbox.ts:311-333 | the record joins the list with one attempt more and the entry leaves the hash |
| `Outbox.OutboxManager.ReconcileEntry` | src/hybrid/outbox.ts:212-270 | one worker: entry, dead letters and counters for success, retry and giving up |
| `Outbox.OutboxManager.ReconcileAll` | src/hybrid/outbox.ts:205-276 | all workers in any order: hash, new dead letters, scheduled deletions and counters of the pass |
| `Outbox.OutboxManager.Reconcile` | src/hybrid/outbox.ts:182-305 | keeps the accounts: processed = completed + retried + dead letters, failed = retried + twice the dead letters, average latency times processed = the time of all non-empty passes |
| `Outbox.InsertByVersion` | src/hybrid/outbox.ts:174 | one step of the version sort |
| `MongoStore.MongoAuthStore.Set` | src/mongodb/store.ts:304-442 | the retry loop against any behaviour of other writers and server: calls, total wait, answer, collection and cache |
| `MongoStore.SuccessStoresTheNextVersion` | src/mongodb/store.ts:314-412 | whatever other writers and the server do, a success stores expected + 1, keeps exactly the unnamed fields, writes createdAt only on insert, and renews updatedAt and the expiry to now plus the time to live |
| `MongoStore.SetOutcome` | src/mongodb/store.ts:360-403 | at most maxRetries + 2 upserts |
| `MongoStore.HowASetEnds` | src/mongodb/store.ts:336-412 | every upsert but the last met a duplicate key, by a lost race or a newer document at the first; the last is stored if and only if the server was healthy and it was no first one over a newer document; another error ends the loop at once, duplicate keys only after maxRetries + 1 retries |
| `MongoStore.StoredPatchReadsBack` | src/mongodb/store.ts:605-626 | a stored document reads back as the patch over the fields that were there, under the next version, or as an error while no creds were ever written |
| `MongoStore.SetWaitIsBounded` | src/mongodb/store.ts:387-397 | the total wait is at most the first maxRetries + 1 delays, which meet the geometric closed form |
| `MongoStore.StaleWritesWin` | src/mongodb/store.ts:383-397 | without faults every set succeeds and overwrites; a stale version costs a second upsert and nothing else |
| `MongoStore.MongoAuthStore.Get` | src/mongodb/store.ts:248-298 | a fresh cached document is served, else the one found, which is cached; an undecodable one is a failure |
| `MongoStore.MongoAuthStore.GetFromCache` | src/mongodb/store.ts:105-113 | an entry older than 5000 ms is dropped and not served |
| `MongoStore.MongoAuthStore.CleanupCache` | src/mongodb/store.ts:124-131 | exactly the entries past their time are dropped |
| `MongoStore.MongoAuthStore.Delete` | src/mongodb/store.ts:447-470 | a success removes the document and its cache entry |
| `MongoCache.EveryServedDocumentIsRecent` | src/mongodb/store.ts:248-280 | with arbitrary outside writers and interleaved gets, a served document was the stored one within the last 5000 ms plus the latency of its fetch |
| `MongoCache.GetRefinesTheSteps` | src/mongodb/store.ts:248-280 | a get of the store does what the steps of those runs do, so the bound holds of it: served from the cache if and only if the entry is at most 5000 ms old, else what the server has |
| `MongoCache.SetRefinesTheSteps` | src/mongodb/store.ts:355-429 | a successful set of the store is an outside write and an invalidation |
| `MongoCache.GetTwice` | src/mongodb/store.ts:105-113 | the second of two gets is answered from what the first cached up to 5000 ms after it was filled and not later |
| `MongoCache.OwnWriteIsSeenExactlyWhenNoOldReadIsUnderWay` | src/mongodb/store.ts:248-280 | after a write of this process every later get sees it, as long as nobody writes again, if and only if no get is under way that has read another document and not answered yet |
| `MongoCache.CleanupIsInvisible` | src/mongodb/store.ts:124-131 | leaving out all cleanups changes no served document and no server read |
| `Backoff.RetryWithBackoff` | src/storage/index.ts:29-56 | calls up to the first success, at most maxRetries + 1, waits exactly the delays between them |
| `Backoff.CallsUntilSuccess` | src/storage/index.ts:38-56 | all earlier calls failed, and the last succeeded or no retry was left |
| `Backoff.DelaySumClosedForm` | src/storage/index.ts:47-51 | the sum of the delays is the geometric closed form |
| `Backoff.DelaySumMonotone` | src/storage/index.ts:47-51 | more retries never wait less |
| `RedisMetaLifetime.RunsKeepThePromiseExactlyWhenTouchesRenewWell` | src/redis/store.ts:428-439 | over whole runs of sets, touches for any time, deletes and ticks the version outlives the fields, then and through whatever follows, if and only if every touch renews well |
| `RedisMetaLifetime.PromiseLastsExactlyWhenSafe` | src/redis/store.ts:277-352 | without touches: the states that keep the promise for ever are those in which every live field ends neither after the version nor later than the default time from now |
| `RedisMetaLifetime.EveryGetReportsTheLatestVersion` | src/redis/store.ts:216-256 | in such runs a readable field comes with the version of the latest set |
| `RedisMetaLifetime.TouchIsSafeExactlyWhenItRenewsWell` | src/redis/store.ts:428-439 | a touch, for however long, keeps the promise if and only if, when it renews a field beyond its own last command, meta is still there for that command and the new deadline is no later than the default time from then |
| `RedisMetaLifetime.SlowTouchForgetsTheVersion` | src/redis/store.ts:428-439 | a touch that crosses meta's deadline makes the next get report version 1 |
| `RedisMetaLifetime.LongTouchForgetsTheVersion` | src/redis/store.ts:428-439 | so does, later, a touch beyond the default time |
| `RedisFieldLifetime.GetsShowKeysExactlyUntilTheirOwnDeadline` | src/redis/store.ts:277-352 | over whole runs of timed sets, deletes and ticks a get answers exactly until the deadline of the last set that named creds, and shows keys exactly until that of the last set that touched keys |
| `RedisStore.RedisAuthStore.Get` | src/redis/store.ts:212-254 | creds required, keys defaulting to none, version 1 without meta |
| `RedisStore.RedisAuthStore.Set` | src/redis/store.ts:268-384 | nothing is written unless the pipeline runs; then creds, merged keys and meta get their new deadlines under expected + 1 |
| `RedisStore.RedisAuthStore.Delete` | src/redis/store.ts:405-423 | the session's three keys go |
| `RedisStore.RedisAuthStore.Touch` | src/redis/store.ts:428-447 | each live key is renewed at its own command's instant, a dead one stays dead |
| `RedisStore.TimedSetIsViewSet` | src/redis/store.ts:277-352 | what clients see of a timed set is the merge on what they saw, and time only takes fields away |
| `RedisStore.SetReadsBack` | src/redis/store.ts:277-352 | creds, app state and each key read back as the patch says, else as they were where still there; the version is the next one, 0 reading as 1 |
| `AuthTypes.MergeIncrementally` | src/redis/store.ts:305-321 | the nested merge loops compute the merge, types and ids in any order |
| `AuthTypes.MergeLooksUp` | src/hybrid/use-hybrid-auth-state.ts:111-123 | id by id: the patch's value, null meaning absent, else the id's own |
| `AuthTypes.MergeIdempotent` | src/redis/store.ts:300-322 | a table merged into itself or into nothing is unchanged |
| `Codec.RoundTripIsNormalForm` | src/crypto/codec.ts:162-199 | decode after encode gives the normal form, defined without JSON |
| `Codec.StoredPartsReadBack` | src/crypto/codec.ts:162-292 | part by part: dates as text, byte arrays and Buffer-shaped objects as Buffers, non-finite numbers and undefined items as null, arrays item by item, objects member by member without the undefined ones |
| `Codec.ItemsCountAsInJavaScript` | src/crypto/codec.ts:250-253 | an item of a Buffer's data counts as its number truncated towards zero modulo 256, true as 1, text as the numeral it is, a one-item array as its item |
| `Codec.HopIndexesByteArrays` | src/hybrid/outbox.ts:95 | plain JSON makes of a byte array that is no Buffer an object listing each byte under its index |
| `Codec.NormalFormIsIdempotent` | src/crypto/codec.ts:213-241 | a stored value is stored as itself |
| `Codec.UnchangedExactlyWhenPlain` | src/crypto/codec.ts:213-241 | storage changes nothing but key order if and only if there is no date, byte array, undefined, non-finite number or Buffer-shaped object |
| `Codec.EncodingIsCanonical` | src/crypto/codec.ts:205-241 | values equal up to key order at every depth are encoded identically |
| `Codec.SecondPassIsIdle` | src/crypto/codec.ts:250-292 | the top-down revival finds nothing after the bottom-up one |
| `Codec.TopDownAgreesExactlyWhenNothingHidden` | src/crypto/codec.ts:250-292 | either revival alone gives the same value if and only if no Buffer-shaped object holds an item that is a number only once the Buffer-shaped object in it is revived, for every way text counts as a number |
| `Codec.DecodedValuesAreRewritable` | src/types/baileys.ts:177-200 | a decoded value passes the Buffer check if and only if every Buffer tag carried an array |
| `Codec.OutboxHopIsInvisible` | src/hybrid/outbox.ts:95 | storing a patch as plain JSON first does not change what is decoded, for real Buffers |
| `Codec.HopIsInvisibleExactlyWhenNoByteArrayShows` | src/hybrid/outbox.ts:95 | for every value: it is invisible if and only if each byte array is a real Buffer or stands in a Buffer-shaped object in which no item counts as another byte when its byte arrays are blanked |
| `Codec.DeepBufferRevive` | src/crypto/codec.ts:259-292 | the loops compute the top-down revival |
| `Codec.StableReplaceObject` | src/crypto/codec.ts:233-240 | the object case yields the same members in canonical order |
| `Codec.ReviverGivesNormalForm` | src/crypto/codec.ts:250-253 | parsing with the reviver alone already gives the normal form |
| `KeyOrder.SortForgetsOrder` | src/crypto/codec.ts:235 | sorting depends on the set of keys only |
| `KeyOrder.KeysAreListedAsJavaScriptDoes` | src/crypto/codec.ts:233-241 | index keys, the decimals without leading zeros up to 2^32 - 2, come first in numeric order; of the others the first differing code unit decides |
| `TokenBucket.WindowBound` | src/rate-limit/token-bucket.ts:66-99 | over every run with a monotone clock: granted plus left is at most the level at the start plus the refill of the window, and the level stays in bounds |
| `TokenBucket.GrantsAreRateLimited` | src/rate-limit/token-bucket.ts:66-99 | no window grants more than its start level plus rate times length |
| `TokenBucket.GrantedExactlyWhenEarned` | src/rate-limit/token-bucket.ts:66-99 | tryAcquire grants a positive count up to the maximum if and only if what was left plus the rate for every second since covers it, and takes exactly that |
| `TokenBucket.ObserversChangeNothing` | src/rate-limit/token-bucket.ts:133-166 | inserting any number of observer calls changes no other answer |
| `TokenBucket.WaitTimeIsLeast` | src/rate-limit/token-bucket.ts:144-153 | getWaitTime is the least wait after which tryAcquire succeeds |
| `TokenBucket.WaitingIsVainWithoutRefill` | src/rate-limit/token-bucket.ts:144-153 | with a refill rate of 0, where it answers Infinity, no wait helps |
| `TokenBucket.TokenBucket.Acquire` | src/rate-limit/token-bucket.ts:108-128 | takes its tokens once, in at most ceil(wait/100) + 1 attempts, and exactly so many when sleeps last as long as asked; an abort, before or into a sleep, takes none, and ends the call after the first attempt at which it is found; without refill a call is served at once or only ever aborted |
| `TokenBucket.TokenBucket.TryAcquire` | src/rate-limit/token-bucket.ts:81-99 | guards, grant and new level |
| `TokenBucket.TokenBucket.Refill` | src/rate-limit/token-bucket.ts:66-74 | earned tokens capped at the maximum |
| `TokenBucket.TokenBucket.GetAvailableTokens` | src/rate-limit/token-bucket.ts:133-136 | the refilled level, which it stores |
| `TokenBucket.TokenBucket.GetWaitTime` | src/rate-limit/token-bucket.ts:144-153 | the wait on the refilled level, which it stores; Infinity exactly when tokens are missing and the rate is 0 |
| `RateLimiter.LimitNeverFalls` | src/rate-limit/rate-limiter.ts:148-169 | for every configuration at least 1 and never falling with age; no larger for cold contacts when the multiplier does not raise the maximum |
| `RateLimiter.LimitIsBoundedExactly` | src/rate-limit/rate-limiter.ts:148-169 | never above the maximum if and only if that is at least 1 and the multiplier does not lift it by a whole message |
| `RateLimiter.LimitFollowsTheWarmup` | src/rate-limit/rate-limiter.ts:148-169 | the maximum, times the multiplier for cold contacts, times a share growing evenly from 0.3 at creation to 1 after the warm-up days; rounded down, at least one |
| `RateLimiter.SessionRateLimiter.CalculateEffectiveLimit` | src/rate-limit/rate-limiter.ts:148-169 | the limit by age; the stored warm-up flag is only a shortcut |
| `RateLimiter.SessionRateLimiter.Acquire` | src/rate-limit/rate-limiter.ts:186-215 | for every configuration: no wait if and only if the maximum is at least 1, then one attempt however many messages were sent; only the counter moves |
| `RateLimiter.SessionRateLimiter.OwnTokens` | src/rate-limit/rate-limiter.ts:113-125 | the session's own bucket is always full, for a maximum that is not negative |
| `RateLimiter.EffectiveLimit` | src/rate-limit/rate-limiter.ts:148-169 | limit and flag from the session's metadata |
| `RateLimiter.AcquireScaled` | src/rate-limit/rate-limiter.ts:203-211 | the derived bucket never hits its capacity guard, and grants at once exactly when a whole token was available |
| `ConnectionTracker.ProbesChangeNothing` | src/monitoring/connection-tracker.ts:119-273 | inserting any number of health checks changes no later status, silence, recommendation or reconnect counter, autoCheck on or off |
| `ConnectionTracker.ChecksTellTheLastEvent` | src/monitoring/connection-tracker.ts:208-273 | over every run, told from the events alone: a session nobody has seen is disconnected, a disconnect or reconnect attempt stands until the next event, and after an activity its age decides between healthy, degraded and disconnected; silence and reconnect counters likewise |
| `ConnectionTracker.CheckAfterRun` | src/monitoring/connection-tracker.ts:208-273 | checkHealth reports so, with checks in between or none |
| `ConnectionTracker.StateChangesAreDated` | src/monitoring/connection-tracker.ts:119-200 | stateChangedAt is the instant of the event, check or not, that changed the state |
| `ConnectionTracker.EventKeepsAlike` | src/monitoring/connection-tracker.ts:119-273 | the simulation behind it: records differing only in how far silence was recorded stay so |
| `ConnectionTracker.StoredStatesDiffer` | src/monitoring/connection-tracker.ts:254-258 | the stored state itself does change |
| `ConnectionTracker.ConnectionHealthTracker.RecordActivity` | src/monitoring/connection-tracker.ts:119-145 | new record, with a success counted when it ends a reconnection |
| `ConnectionTracker.ConnectionHealthTracker.RecordReconnectAttempt` | src/monitoring/connection-tracker.ts:152-173 | the attempt is counted and the state set |
| `ConnectionTracker.ConnectionHealthTracker.RecordDisconnect` | src/monitoring/connection-tracker.ts:180-200 | the state is set, silence keeps counting |
| `ConnectionTracker.ConnectionHealthTracker.CheckHealth` | src/monitoring/connection-tracker.ts:208-273 | status, silence and recommendation, and what autoCheck stores |
| `ConnectionTracker.ConnectionHealthTracker.GetStats` | src/monitoring/connection-tracker.ts:355-399 | sums over sessions; every session is in exactly one state |
| `RotationMonitor.EveryRecordRefinesHistory` | src/monitoring/rotation-monitor.ts:126-170 | over every run with a monotone clock and positive window the pruned record answers every later question as full history does: recent events, total, first, last, and whether the threshold was ever exceeded |
| `RotationMonitor.StatusCountsFullHistory` | src/monitoring/rotation-monitor.ts:178-205 | the rate is the number of all recorded events younger than the window; the status is an anomaly above the threshold and a warning above seven tenths of it |
| `RotationMonitor.RecordAfterRun` | src/monitoring/rotation-monitor.ts:126-170 | recordRotation reports that of the events with its own |
| `RotationMonitor.AggregatesAreSumsOverHistory` | src/monitoring/rotation-monitor.ts:282-302 | aggregates are sums over full histories |
| `RotationMonitor.PruningIsInvisible` | src/monitoring/rotation-monitor.ts:139-142 | what is outside the window now is outside it later |
| `RotationMonitor.RateNeedsAPositiveWindow` | src/monitoring/rotation-monitor.ts:139-145 | the reported rate counts the window if and only if the window is positive |
| `RotationMonitor.RotationMonitor.RecordRotation` | src/monitoring/rotation-monitor.ts:126-170 | new record, rate and status |
| `RotationMonitor.RotationMonitor.GetStatus` | src/monitoring/rotation-monitor.ts:178-205 | rate and status now, nothing stored |
| `RotationMonitor.RotationMonitor.GetStats` | src/monitoring/rotation-monitor.ts:213-232 | totals, recent count, first and last event |
| `RotationMonitor.RotationMonitor.HasAnomaly` | src/monitoring/rotation-monitor.ts:240-243 | true exactly when the recent events exceed the threshold now |
| `RotationMonitor.RotationMonitor.GetAggregateStats` | src/monitoring/rotation-monitor.ts:282-302 | the sums, sessions visited in any order |
| `KeyRotation.DecryptsWhileKeyIsRetained` | src/crypto/index.ts:248-337 | ciphertext written at any point of a run decrypts to its plaintext after any further operations exactly while its key is retained |
| `KeyRotation.EncryptsExactlyWhenAKeyIsInstalled` | src/crypto/index.ts:248-273 | over every run from no keys: with encryption off always and to the plaintext; with it on if and only if a key was ever installed and the algorithm is "secretbox" or "aes-256-gcm", and then under the key installed last, used as it is when it has 32 bytes and hashed otherwise |
| `KeyRotation.CiphertextLivesExactlyAsLongAsItsKey` | src/crypto/index.ts:278-337 | over such runs, what was encrypted at any point decrypts to its plaintext at any later one if and only if its key is held, told from the operations |
| `KeyRotation.KeysAreHeldExactlyUntilCleanedUp` | src/crypto/index.ts:99-108 | a key is held if and only if its last installation was not followed by a cleanup later than the rotation period and after another installation |
| `KeyRotation.DecryptsExactlyWhenItsTagOpens` | src/crypto/index.ts:278-337 | the key must be held and of a supported algorithm, the nonce 12 bytes, and the last 16 bytes the tag under which the key opens the rest; "auto" is the active key, "none" no encryption |
| `KeyRotation.FrameReadsBackUnderItsKey` | src/mongodb/store.ts:551-600 | for every message and any number of rotations: with encryption off the frame reads as the text without its first 12 bytes, under the key that wrote it as the plaintext, after a rotation as whatever the new key makes of it, although the old key may still be held |
| `KeyRotation.FrameRoundTripsExactlyUnderItsKey` | src/mongodb/store.ts:551-600 | a frame whose message no other installed key opens reads back if and only if encryption is on and the writing key is still active; after a rotation it is an error |
| `KeyRotation.OneActiveKey` | src/crypto/index.ts:43-109 | over every run, once a key is installed exactly one is active |
| `KeyRotation.CleanupRemovesOnlyExpiredInactive` | src/crypto/index.ts:99-108 | exactly the expired inactive keys go, the active key stays |
| `KeyRotation.KeysKeepTheirMaterial` | src/crypto/index.ts:50-63 | no later operation files another key under a key's id |
| `KeyRotation.KeysAreRetainedUntilTheyExpire` | src/crypto/index.ts:209-231 | a key is retained through its rotation period, and for ever when keys do not expire |
| `CryptoService.KeyManager.AddKey` | src/crypto/index.ts:50-63 | the new active key takes over from the old one |
| `CryptoService.KeyManager.CleanupExpiredKeys` | src/crypto/index.ts:99-108 | keys left and number removed |
| `CryptoService.CryptoService.Initialize` | src/crypto/index.ts:167-204 | a key of 32 bytes is used, any other is hashed, and becomes the active one |
| `CryptoService.CryptoService.RotateKey` | src/crypto/index.ts:465-483 | so does a rotation |
| `CryptoService.CryptoService.Encrypt` | src/crypto/index.ts:248-273 | plaintext when disabled, an error without an active key of a supported algorithm, else nonce, ciphertext with tag and key id |
| `CryptoService.CryptoService.Decrypt` | src/crypto/index.ts:278-337 | the branches on key id, missing key, lengths and tag |

## Left out

- Redis, Mongo, BullMQ and Kafka clients, connection set-up and index creation: atomic commands on maps that may fail.
- The circuit breaker: a rejection is a Mongo read failure.
- The queue consumer, which exists only among the examples: adding to the queue succeeds or fails.
- `touch` of the Mongo and hybrid stores, `exists`, batch operations, health endpoints, metrics and logs.
- LRU eviction of tracker, monitor and limiter entries, listeners and jitter: no eviction is a hypothesis there. For the
  mutexes eviction is a step.
- Partial pipeline failures in Redis, and Redis read errors inside one field: a set's pipeline runs whole or not at all.
- Documents without a version field, and fields stored encrypted that no longer decrypt.
- The outbox hash's own expiry, the session id `dlq`, timestamps, `cleanup`, `startReconciler` and `stopReconciler`:
  the first two are hypotheses of `OutboxProtocol`.
- Commands of the caller that fail in `HybridProtocol`, a delete that fails in one layer among them; the methods of
  `HybridStore` have every combination of failures. Warmers may fail there.
- The write-behind mode in the refinement to a plain map: between set and reconciliation Mongo is behind by design.
- Creds mutated in memory while a set is under way: the set takes a deep copy first, which on values is no step.
- The Buffer check of a hybrid set: it either throws before anything is written or changes nothing; what it
  accepts is `Codec.DecodedValuesAreRewritable`.
- `keys.get` of the hook, a lookup in what the store's get returns.
- JSON text, compression and the cipher: JSON is modelled as trees, the others as functions with an inverse law.
- Codec values with toJSON, class instances, BigInt, and objects with own keys `constructor` or `__proto__`.
- The numeral a text denotes and the text of a Buffer, when such an item stands where Buffer.from wants a byte: both
  are parameters, and the theorems hold for each. An object whose own `toString` or `valueOf` makes that throw.
- UTF-16 order of keys outside the basic plane.
- Hex decoding of master keys, key statistics, and the clock ticking during one cleanup of keys.
- Rounding of JavaScript numbers: times and tokens are reals where they are divided.
- `canAcquire` and `getStats` of the rate limiter.
- Codec.OutboxHopIsInvisible: for byte arrays that are Buffers; all others are covered by
  `Codec.HopIsInvisibleExactlyWhenNoByteArrayShows`.
- OutboxDrain.DrainsInThreePasses: a pass is one step. What setters and timers do while it runs counts as done after
  it, for which the effects allowed there include late writes over entries that have moved on; single commands are
  interleaved in `OutboxProtocol`, crashes included.
- TokenBucket.TokenBucket.Acquire: for a refill rate that is not negative, and without refill not for a call that has to
  wait and is never aborted, as that never ends.
