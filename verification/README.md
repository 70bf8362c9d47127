# Verification models

Dafny models of the stateful logic of this repository, each with the guarantee it is there for, proved
over every run. Kafka, PostgreSQL and Redis are maps; the clock is a parameter that does not go back;
each `await` at which others can act is a step boundary.

| File | Models |
|---|---|
| `Wrappers.dfy` | option, result and trace types |
| `Outbox.dfy` | the outbox poller's table operations and batch loop, and the drain bound |
| `OutboxRuns.dfy` | the same poller cut at its awaits: timer, start, stop, inserts and the batch loop interleaved |
| `OutboxDrain.dfy` | the drain bound over interleaved runs |
| `CacheManager.dfy` | the two-level cache over a database |
| `CircuitBreaker.dfy` | the windowed circuit breaker with calls in flight |
| `RateLimiter.dfy` | the sliding-window rate limiter and its Lua script |
| `RefreshToken.dfy` | refresh-token rotation, logout and revoke-all with interleaved clients |
| `AdminInvite.dfy` | the admin-invite saga under concurrent accepts and validations |
| `Notification.dfy` | the notification pipeline with redeliveries, crashes and database failures |
| `Pagination.dfy` | keyset pagination of the dead-letter table |
| `Otp.dfy` | the one-time-password throttles |

Run `dafny verify dfyconfig.toml` in this directory.

## How the models are built

Each module holds the state as a datatype and every operation of the code as a function on it. Where the
code updates fields or rows step by step, a class with methods does the same, proved equal to those functions.
A machine then cuts the operations at their awaits and lets them interleave: `Step` is one segment,
`Run` (or `Reaches`) a whole history given as a `Trace`. An event its target is not ready for changes
nothing, so theorems about `Run(t)` are theorems about every interleaving. Several modules close the circle with
an `Undisturbed...` lemma: the machine, run without interference, does what the method does.

## Premises

- One synchronous segment between two awaits is one instant. One Redis command, Lua script or SQL statement
  is atomic; a database transaction is all or nothing.
- Outbox: one poller per table, database up, `maxRetries >= 1`, rows inserted PENDING with `retryCount` 0,
  and for the order theorem rows inserted in increasing `createdAt`. The injected `resolveTopic` may throw. Starts and
  stops come at any time; what holds only when no stop comes during a start says so.
- Cache: one `cacheGet` or `cacheInvalidate` is one instant; every Redis command may be refused, or take effect and
  report failure; Redis and L1 may drop entries. Staleness and transparency need keys of which none is another's
  `:notfound` key; a lemma shows what happens otherwise.
- Breaker: the clock does not go back. The gate theorems exclude `forceState`, as their statements say.
- Rate limiter: client clocks do not go back, member suffixes are unique, and the Redis server's clock stays within the key's spare
  second of a fixed offset to the clients'.
- Refresh tokens: the hash is injective, a login opens a family never used before, no token is signed twice,
  and a full SCAN returns every key that was there throughout.
- Invites: other code deletes only credentials it created itself. An invite is known by its token hash; the id
  column is another unique name for the row.
- Notifications: deliveries of one event are serial, as one Kafka partition gives them. The process may crash at any
  await, and any database write may be refused, or take effect and be reported as failed.
- Pagination: ids are generated, so distinct and not empty; cursor encoding is invertible on what it encodes.
- OTP: the gate check, the request counter, the verification and the storing of a code are each one instant; requests
  interleave between them. An issue is timed at its counter call; the code is stored at a later step. Emails arrive
  normalised, as the validation schemas make them.

## Where the code differs from its comments, or from what one would expect

- Rows left PROCESSING are not reaped: the comments at `packages/kafka/src/outboxPoller.ts:22-23` and `:80-84` say they
  are, but the query selects only PENDING rows (`:121-129`). The model follows the query.
- Publish attempts are not always `retryCount` plus completion: when `resolveTopic` throws, a retry is counted
  without a publish. `OutboxRuns.PublishAttemptsExactly` gives the exact condition and
  `OutboxRuns.UnresolvableIsNeverPublished` a run. The shipped resolver (`packages/kafka/src/topicRouter.ts:11-15`) never
  throws, so with it every handling is a publish attempt.
- A stop during a start leaks an interval, since the start sets its timer afterwards (`packages/kafka/src/outboxPoller.ts:70-90`);
  `OutboxRuns.StopSilencesExactly` says when a stop is heard.
- SENT is not always absorbing: `markAsFailed` has no status guard, so a `markAsSent` that commits and then rejects is
  written over by the catch (`services/notification-service/src/services/notificationService.ts:197-206`) and the email is
  sent again on redelivery. `Notification.TerminalIsFinalExactly` is the exact condition, `Notification.LostReplySendsAgain`
  the case.
- A rate-limited failure can cost two attempts: its `markAsFailed` and DLQ update stand inside the `try`, so when one of
  them throws the catch counts the failure again (`services/notification-service/src/services/notificationService.ts:124-206`).
  `Notification.LimitedFailureCountsTwice` and `Notification.LimitedRoutingRunsTwice` say what results.
- The breaker's "consecutive" successes survive a failed probe (`services/user-service/src/cache/circuitBreaker.ts:134-140`);
  recovery is proved for carried counters.
- L1 evicts nothing when its oldest key is the empty string; `CacheManager.CapacityKeptExactly` is the exact condition.
  A full L1 evicts its oldest key even when the set only overwrites a key (`CacheManager.OldestGoes`).
- An accept that loses to another is told of a database error, not that the invite was already used: the unique email
  fails first (`services/auth-service/src/modules/admin/admin.service.ts:225-258`, `AdminInvite.RacingAcceptLoses`).
- `list` without a cursor fails, because `decodeCursor("")` throws
  (`services/user-service/src/modules/dead-letter-event/deadLetterEvent.repository.ts:72`); walks start from a given cursor.
- The OTP cooldown is read by the gate and not by the counter, so it holds between requests that do not overlap
  (`Otp.SerialGrantsApart`); two that pass the gate together are both granted at once
  (`Otp.OverlappingRequestsSkipTheCooldown`). `Otp.TooSoonExactlyInCooldown` is the exact condition.
- A cached email that ends in `:notfound` makes its key the not-found key of another (`CacheManager.EmailKeysCollideExactly`).
- A failed notification is acknowledged to Kafka, so a FAILED row is retried only if Kafka redelivers the event.

## Model

| member | source | states |
|---|---|---|
| Outbox.OutboxPoller.constructor | packages/kafka/src/outboxPoller.ts:47-56 | a new poller is idle, with its options and table as given |
| Outbox.OutboxPoller.HandleFailure | packages/kafka/src/outboxPoller.ts:203-257 | the failed row becomes DEAD with one dead letter once the incremented retry count reaches maxRetries, else PENDING with the count raised, the lock released and no dead letter; no other row changes |
| Outbox.OutboxPoller.ProcessEvent | packages/kafka/src/outboxPoller.ts:167-201 | one event: published exactly if it resolves to a topic, its row COMPLETED exactly if the broker also acknowledged, dead-lettered exactly if its row ends DEAD |
| Outbox.OutboxPoller.ProcessNextBatch | packages/kafka/src/outboxPoller.ts:113-165 | a tick during a batch changes nothing; otherwise the loop claims exactly the queried rows and handles them in order, and the gate is open again |
| Outbox.HandleAllMeaning | packages/kafka/src/outboxPoller.ts:147-149 | a claimed batch: each row is handled once and ends COMPLETED, DEAD or back at PENDING with one retry more, other rows stay, and the table owes at least one attempt less per row |
| Outbox.ClaimMeaning | packages/kafka/src/outboxPoller.ts:136-145 | the claim turns exactly the queried pending rows PROCESSING and owes as many attempts as before |
| Outbox.BatchMeaning | packages/kafka/src/outboxPoller.ts:113-165 | a whole batch between settled tables: queried rows leave PENDING or spend an attempt, all others are untouched, the table is settled again |
| Outbox.HandleAllPublishes | packages/kafka/src/outboxPoller.ts:147-257 | a claimed batch: the publish log grows by exactly the ids whose events resolve to a topic and the dead-letter log by exactly the ids whose rows are then DEAD, both in batch order; a row is COMPLETED exactly if its id was published and the broker accepted it |
| Outbox.BatchPublishes | packages/kafka/src/outboxPoller.ts:113-257 | the same of a whole tick, from the rows its query returned |
| Outbox.ShortQueryIsComplete | packages/kafka/src/outboxPoller.ts:121-132 | a query that returns fewer rows than batchSize returned every pending row |
| Outbox.CreditsFall | packages/kafka/src/outboxPoller.ts:121-149 | when every pending row is in the batch, the largest number of attempts left falls |
| Outbox.FewPendingDrain | packages/kafka/src/outboxPoller.ts:113-257 | with fewer pending rows than a batch takes, as many ticks as the largest number of attempts left drain the table |
| Outbox.FullBatch | packages/kafka/src/outboxPoller.ts:121-257 | a full batch uses up one of the floor(S / batchSize) full batches the pending attempts can pay for |
| Outbox.EventCosts | packages/kafka/src/outboxPoller.ts:167-257 | handling one claimed event, however it goes, costs its row an attempt and leaves the rest of the batch claimed |
| Outbox.OneBatchFewer | packages/kafka/src/outboxPoller.ts:121-257 | from any settled table each batch, full or not, leaves one batch less to go |
| Outbox.DrainBound | packages/kafka/src/outboxPoller.ts:113-257 | after floor(S / batchSize) + maxRetries ticks every row is COMPLETED or DEAD, S being the attempts the pending rows have left, whatever the broker does |
| OutboxRuns.NextEventKeepsInv | packages/kafka/src/outboxPoller.ts:147-175 | turning to the next event of the batch, resolvable or not, keeps the machine invariant |
| OutboxRuns.EndsAtRest | packages/kafka/src/outboxPoller.ts:185-193 | however the handling of an event ends, its row and history are those of a row at rest |
| OutboxRuns.StepKeepsInv | packages/kafka/src/outboxPoller.ts:58-257 | every step of the interleaved poller (start, stop, timer, insert, query, claim, publish, row write, dead letter) keeps the invariant |
| OutboxRuns.ReachableInv | packages/kafka/src/outboxPoller.ts:58-257 | the invariant holds in every reachable state, and no batch ever holds an event that is not in the table |
| OutboxRuns.SingleActiveBatch | packages/kafka/src/outboxPoller.ts:105-165 | under ticks at any point at most one batch loop is active, both gates mirror it, and the PROCESSING rows are exactly the unprocessed rest of its claimed batch |
| OutboxRuns.PatientStopsLeakNothing | packages/kafka/src/outboxPoller.ts:59-102 | when no stop comes during a start, the field knows every interval and at most one start is under way |
| OutboxRuns.StopLeavesNothingProcessing | packages/kafka/src/outboxPoller.ts:85-111 | when no stop comes during a start, no batch begins after a stop, and when none is pending no row is PROCESSING |
| OutboxRuns.StopSilencesExactly | packages/kafka/src/outboxPoller.ts:70-90 | for every stop, early ones included: once the pending batch has ended the timer can still fire if and only if an interval was leaked before it or a start was under way |
| OutboxRuns.AttemptAccounting | packages/kafka/src/outboxPoller.ts:167-257 | for every row in every run: COMPLETED is exactly one success after retryCount failures, DEAD exactly maxRetries failures and one dead-letter publish, PENDING and PROCESSING have retryCount below maxRetries, and handlings balance outcomes |
| OutboxRuns.StepTouchesInvolvedRows | packages/kafka/src/outboxPoller.ts:136-257 | a step changes no row and no history except those of the rows its loop works on |
| OutboxRuns.TerminalRowsAreFinal | packages/kafka/src/outboxPoller.ts:121-220 | COMPLETED and DEAD rows and their histories never change again, so a success was the last attempt |
| OutboxRuns.PublishAttemptsExactly | packages/kafka/src/outboxPoller.ts:167-177 | for every row, PROCESSING included: handlings are retryCount plus the completing one plus the one in hand, and publish attempts equal handlings exactly when the event type resolves to a topic or nothing was handled yet |
| OutboxRuns.UnresolvableIsNeverPublished | packages/kafka/src/outboxPoller.ts:167-200 | that case is reached: a run whose unresolvable event is retried, or buried, with no publish |
| OutboxRuns.NewRowsLeftOutAreYounger | packages/kafka/src/outboxPoller.ts:121-132 | a row never attempted and left out of the query is younger than every row the query took |
| OutboxRuns.FirstAttemptOrder | packages/kafka/src/outboxPoller.ts:121-149 | rows inserted in createdAt order get their first attempt in createdAt order, whatever fails and is retried in between |
| OutboxRuns.FirstsAreTouched | packages/kafka/src/outboxPoller.ts:147-175 | the list of first attempts holds exactly the rows that were ever attempted |
| OutboxRuns.OneEventUndisturbed | packages/kafka/src/outboxPoller.ts:167-257 | the interleaved steps of one event, with nothing between them, do to the table what the method does, and issue exactly the publish attempts and dead letters it logs |
| OutboxRuns.UndisturbedTick | packages/kafka/src/outboxPoller.ts:105-165 | an idle poller can run a tick, undisturbed, to exactly the table of the batch method; meanwhile each row was published and dead-lettered as often as the logs of the method have grown by its id |
| OutboxDrain.BatchEnds | packages/kafka/src/outboxPoller.ts:136-257 | a batch that has ended left every row it did not take alone and cost every row it took an attempt |
| OutboxDrain.StepTowards | packages/kafka/src/outboxPoller.ts:58-257 | every step of the interleaved poller but an insert leaves as many batches to go, and one less when a batch ends in it |
| OutboxDrain.InterleavedDrainBound | packages/kafka/src/outboxPoller.ts:58-257 | however ticks, starts and stops fall: once floor(S / batchSize) + maxRetries batches have ended with nothing inserted, every row is COMPLETED or DEAD |
| CacheManager.L1Cache.Del | services/user-service/src/cache/cacheManager.ts:48-50 | removes the key and nothing else |
| CacheManager.L1Cache.Get | services/user-service/src/cache/cacheManager.ts:23-33 | a hit until expiry inclusive; an expired entry is dropped |
| CacheManager.L1Cache.Set | services/user-service/src/cache/cacheManager.ts:35-46 | evicts the oldest key at capacity unless that key is empty, then stores the value with its expiry |
| CacheManager.TwoLevelCache.Get | services/user-service/src/cache/cacheManager.ts:90-174 | one cacheGet over L1, Redis and the database, each Redis command possibly refused, lost or cut off, is the specified lookup-and-fill |
| CacheManager.TwoLevelCache.Invalidate | services/user-service/src/cache/cacheManager.ts:176-190 | takes the key and its not-found key, and nothing else, out of L1 whatever becomes of Redis, and out of Redis as far as the deletes succeed |
| CacheManager.FillKeepsFresh | services/user-service/src/cache/cacheManager.ts:143-171 | filling after a fetch keeps every entry traceable to a recent database answer |
| CacheManager.HitsAreFresh | services/user-service/src/cache/cacheManager.ts:98-135 | a hit at either level, positive or negative, is an answer the database gave within the lifetime left to it |
| CacheManager.PromotionKeepsFresh | services/user-service/src/cache/cacheManager.ts:120-135 | copying a Redis hit into L1 extends its life by the L1 lifetime only |
| CacheManager.ReadKeepsFresh | services/user-service/src/cache/cacheManager.ts:90-174 | a read answers within the staleness bound and keeps every entry traceable |
| CacheManager.BoundedStaleness | services/user-service/src/cache/cacheManager.ts:84-174 | in every run a non-null answer at t is what the fetch gave in [t - (l2Ttl*1000 + l1TtlMs), t], a null one in [t - (60000 + l1TtlMs), t], provided no key in use is the not-found key of another |
| CacheManager.CollidingKeysBreakStaleness | services/user-service/src/cache/cacheManager.ts:103-134 | that premise is needed: for every key with its not-found key also in use, two reads of an empty database give a value it never held |
| CacheManager.ProfileKeysNeverCollide | services/user-service/src/cache/cacheKeys.ts:19-30 | a profile key is no not-found key |
| CacheManager.EmailKeysCollideExactly | services/user-service/src/cache/cacheKeys.ts:23-30 | an email key is the not-found key of another built key exactly if the email ends in the suffix |
| CacheManager.ServiceKeysAreDisjoint | services/user-service/src/cache/cacheKeys.ts:19-30 | so the keys this service builds meet the premise unless a cached email ends in :notfound |
| CacheManager.ReadKeepsExact | services/user-service/src/cache/cacheManager.ts:90-174 | with the key clean, a read answers the plain fetch and leaves only exact entries |
| CacheManager.CacheTransparency | services/user-service/src/cache/cacheManager.ts:90-190 | in runs that read no key between a write and an invalidation that reached Redis, every cacheGet equals the plain fetch, or throws because the fetch does |
| CacheManager.CapacityKeptExactly | services/user-service/src/cache/cacheManager.ts:35-46 | one set keeps a full L1 within maxSize if and only if it replaces a key or the oldest key is not the empty string |
| CacheManager.L1WithinCapacity | services/user-service/src/cache/cacheManager.ts:35-46 | in every run over non-empty keys L1 never exceeds a positive maxSize |
| CacheManager.MissFetches | services/user-service/src/cache/cacheManager.ts:98-144 | a miss at both levels and of both kinds goes to the database, with expired entries dropped |
| CacheManager.MissFillsBothLevels | services/user-service/src/cache/cacheManager.ts:143-173 | a miss puts the fetched result, or the not-found mark, in both levels with the right lifetimes |
| CacheManager.FetchedResultStaysInL1 | services/user-service/src/cache/cacheManager.ts:98-170 | a result just fetched is answered from L1 exactly until its lifetime there is over |
| CacheManager.FetchedResultStaysInL2 | services/user-service/src/cache/cacheManager.ts:110-164 | and through Redis by any process exactly while the Redis entry lives |
| CacheManager.RedisHitFillsL1 | services/user-service/src/cache/cacheManager.ts:110-135 | a hit in Redis, of either kind, is the answer and is put into L1 under the same key with the L1 lifetime; Redis stays as it is |
| CacheManager.RedisHitStaysInL1 | services/user-service/src/cache/cacheManager.ts:98-135 | so with Redis and database both down it is answered again until that lifetime is over |
| CacheManager.L1Ordered | services/user-service/src/cache/cacheManager.ts:20-50 | in every run the insertion order lists exactly the stored keys, each once |
| CacheManager.OldestGoes | services/user-service/src/cache/cacheManager.ts:35-46 | a set into a full L1 evicts the oldest key and no other, even when it overwrites a key |
| CacheManager.FirstInFirstOut | services/user-service/src/cache/cacheManager.ts:35-46 | of any distinct non-empty keys set one after the other L1 holds the last maxSize, in that order |
| CacheManager.InvalidateMeaning | services/user-service/src/cache/cacheManager.ts:176-190 | for every fate of the Redis commands: neither key is left in L1, every other L1 entry and its place are; Redis loses exactly the keys whose delete took effect, the second tried only after the first is acknowledged |
| CacheManager.UnreachableRedisFetches | services/user-service/src/cache/cacheManager.ts:98-144 | a read of a key that L1 does not hold answers the plain fetch when Redis is unreachable |
| CacheManager.ReadAfterInvalidate | services/user-service/src/cache/cacheManager.ts:90-190 | in every run, however an invalidation fared on Redis, the first read of its key afterwards with Redis unreachable answers the database of that moment |
| CircuitBreaker.Circuit.constructor | services/user-service/src/cache/circuitBreaker.ts:44-54 | a new breaker is CLOSED with no failures and no counters |
| CircuitBreaker.Circuit.TransitionTo | services/user-service/src/cache/circuitBreaker.ts:181-191 | sets state and time; CLOSED clears queue and counters |
| CircuitBreaker.Circuit.PruneFailureTimestamps | services/user-service/src/cache/circuitBreaker.ts:170-179 | the shift loop drops exactly the leading entries before the cutoff and recounts |
| CircuitBreaker.Circuit.Enter | services/user-service/src/cache/circuitBreaker.ts:78-115 | execute up to the await: prunes, may go HALF_OPEN or back to OPEN, and says whether the operation starts |
| CircuitBreaker.Circuit.ExitWithSuccess | services/user-service/src/cache/circuitBreaker.ts:118-133 | the success path after the await: two carried successes in HALF_OPEN close the breaker |
| CircuitBreaker.Circuit.RecordFailureAt | services/user-service/src/cache/circuitBreaker.ts:153-168 | appends the failure and opens a CLOSED breaker at the threshold |
| CircuitBreaker.Circuit.ExitWithFailure | services/user-service/src/cache/circuitBreaker.ts:134-143 | the failure path after the await: records, and a HALF_OPEN breaker reopens; what this means over runs is stated by FailureMeaning and FailedProbeShuts |
| CircuitBreaker.Circuit.ForceState | services/user-service/src/cache/circuitBreaker.ts:146-149 | a forced transition |
| CircuitBreaker.Circuit.Execute | services/user-service/src/cache/circuitBreaker.ts:74-144 | a whole call with nothing in between: a started operation settles the breaker by its result; one that is not started is answered by the fallback if there is one, else by an error |
| CircuitBreaker.ShiftingIsFiltering | services/user-service/src/cache/circuitBreaker.ts:170-179 | on a time-ordered history, shifting the already shortened queue equals filtering the whole history |
| CircuitBreaker.StepKeepsWindow | services/user-service/src/cache/circuitBreaker.ts:74-191 | every entry, exit and forced transition, with calls in flight, keeps the queue equal to the filtered history |
| CircuitBreaker.QueueIsTheFilteredHistory | services/user-service/src/cache/circuitBreaker.ts:74-191 | in every run the queue is all failures since the last CLOSED transition not older than the last entry minus failureWindowMs, and CLOSED means fewer than failureThreshold of them |
| CircuitBreaker.TripsExactlyAtThreshold | services/user-service/src/cache/circuitBreaker.ts:78-168 | a CLOSED breaker starts every operation and opens exactly on the failure that brings the filtered history to the threshold |
| CircuitBreaker.NoOperationBeforeReset | services/user-service/src/cache/circuitBreaker.ts:80-98 | without forceState no operation starts until resetTimeoutMs has passed since the last OPEN transition |
| CircuitBreaker.HalfOpenBudget | services/user-service/src/cache/circuitBreaker.ts:100-115 | each stay in HALF_OPEN starts at most halfOpenMaxRetries operations |
| CircuitBreaker.FailureMeaning | services/user-service/src/cache/circuitBreaker.ts:134-168 | after a failure: CLOSED opens exactly at the threshold, HALF_OPEN is OPEN with its reset timeout counted from now, OPEN keeps its state and its timeout |
| CircuitBreaker.FailedProbeShuts | services/user-service/src/cache/circuitBreaker.ts:80-143 | whatever is in flight and whatever was forced before: after a failure met in HALF_OPEN no operation starts for resetTimeoutMs, unless the state is forced again |
| CircuitBreaker.StaysEndAtTheFirstFailure | services/user-service/src/cache/circuitBreaker.ts:134-143 | a stay in HALF_OPEN holds no failure: it ends at its first |
| CircuitBreaker.StaysCountStarts | services/user-service/src/cache/circuitBreaker.ts:100-115 | the count that HalfOpenBudget bounds is the number of operations started within the stay |
| CircuitBreaker.TransitionsAreThese | services/user-service/src/cache/circuitBreaker.ts:78-133 | which state every entry and exit leads to and when, and that lastStateChange moves exactly with a transition |
| CircuitBreaker.CallSpendsItsShare | services/user-service/src/cache/circuitBreaker.ts:74-144 | one serial successful call moves the counters by exactly what it spends of waits and operations |
| CircuitBreaker.RecoveryAccounting | services/user-service/src/cache/circuitBreaker.ts:80-144 | over any run of serial successful calls, waits and operations spent are accounted for by state and carried counters |
| CircuitBreaker.Recovery | services/user-service/src/cache/circuitBreaker.ts:80-144 | from any carried-over counters, serial successes reach CLOSED once they have had two admitted operations and two reset waits, when halfOpenMaxRetries is at least 2 |
| CircuitBreaker.TwoWaitsExactlyUnless | services/user-service/src/cache/circuitBreaker.ts:80-131 | two waits suffice from every state except exactly one: a single-probe budget already spent with no success carried |
| RateLimiter.SlidingWindowRateLimiter.constructor | services/notification-service/src/ratelimit/rateLimiter.ts:87-91 | no keys, limit and window as given |
| RateLimiter.SlidingWindowRateLimiter.Eval | services/notification-service/src/ratelimit/rateLimiter.ts:44-57 | the script run on one key: trim, count, reject with retry-after or add and refresh the expiry; other keys stay |
| RateLimiter.SlidingWindowRateLimiter.Check | services/notification-service/src/ratelimit/rateLimiter.ts:101-160 | one check: Redis down admits and changes nothing; otherwise the script decides and the result is read off its reply |
| RateLimiter.TrimmedSet | services/notification-service/src/ratelimit/rateLimiter.ts:45-46 | what is left after trimming, expired key or not, is the full history of admissions in (now - windowMs, now] |
| RateLimiter.StepMeaning | services/notification-service/src/ratelimit/rateLimiter.ts:44-57 | the script described by the full history alone: decision, count, new set and expiry |
| RateLimiter.AdmissionKeepsBounded | services/notification-service/src/ratelimit/rateLimiter.ts:47-56 | an admission made with a free slot overfills no interval of one window |
| RateLimiter.SlidingWindowRefinement | services/notification-service/src/ratelimit/rateLimiter.ts:44-57 | in every run a check is admitted exactly if the full admission history has fewer than limit entries in (now - windowMs, now], and the count returned is that number |
| RateLimiter.AtMostLimitPerWindow | services/notification-service/src/ratelimit/rateLimiter.ts:44-57 | in every run every half-open interval of length windowMs holds at most limit admissions |
| RateLimiter.RejectionDelay | services/notification-service/src/ratelimit/rateLimiter.ts:47-53 | the delay returned is the time until the oldest admission still in the window is one window old, positive and at most windowMs |
| RateLimiter.FreesWhenOldestLeaves | services/notification-service/src/ratelimit/rateLimiter.ts:47-53 | a full window frees exactly when its oldest admission is one window old |
| RateLimiter.ExactRetryAfter | services/notification-service/src/ratelimit/rateLimiter.ts:45-56 | after a rejection with retry-after r at now, every check before now + r is rejected and the next one is admitted exactly if it comes at now + r or later |
| RateLimiter.DroppedKeyIsInvisible | services/notification-service/src/ratelimit/rateLimiter.ts:54-104 | losing the key from last admission + windowMs on changes neither the reply nor the set that results |
| RateLimiter.DroppedKeyIsInvisibleExactly | services/notification-service/src/ratelimit/rateLimiter.ts:54-104 | and exactly from then on: for every limit and history the reply with the key lost equals the reply with it kept if and only if nothing was admitted or the last admission is a window old |
| RefreshToken.RefreshTokens.IssueRefreshToken | services/auth-service/src/repositories/refreshToken.ts:61-77 | stores the hash of the new token under its family key, to expire in seven days |
| RefreshToken.RefreshTokens.FindActiveTokenHash | services/auth-service/src/repositories/refreshToken.ts:79-98 | the stored hash, or none |
| RefreshToken.RefreshTokens.RotateRefreshToken | services/auth-service/src/repositories/refreshToken.ts:52-122 | compare-and-swap: overwrites, renews the expiry and reports success exactly if the stored hash is the expected one |
| RefreshToken.RefreshTokens.RevokeTokenFamily | services/auth-service/src/repositories/refreshToken.ts:124-129 | deletes that family key only |
| RefreshToken.RefreshTokens.RevokeRefreshToken | services/auth-service/src/repositories/refreshToken.ts:149-166 | deletes the key a decodable token names, and nothing for an undecodable one |
| RefreshToken.RefreshTokens.RevokeAllRefreshTokens | services/auth-service/src/repositories/refreshToken.ts:131-147 | the scan loop, undisturbed, removes exactly the keys of the credential |
| RefreshToken.RefreshTokens.Refresh | services/auth-service/src/modules/auth/auth.service.ts:423-487 | the whole refresh, with any change of the store by others between its read and its swap: an unverified token changes nothing, when a verified one succeeds and what it writes, and that every other refusal deletes the family |
| RefreshToken.RotationMeaning | services/auth-service/src/modules/auth/auth.service.ts:465-478 | a swap in flight goes through exactly if its token is still the last issued of a live family; else only the signing is remembered |
| RefreshToken.StepKeepsInv | services/auth-service/src/modules/auth/auth.service.ts:423-487 | every step of every client, logout, expiry and scan keeps the invariant of families, clients and scans |
| RefreshToken.ExchangedAtMostOnce | services/auth-service/src/modules/auth/auth.service.ts:440-478 | in every run no family exchanges a token twice or issues one twice |
| RefreshToken.LinksDiffer | services/auth-service/src/repositories/refreshToken.ts:52-59 | the k-th exchange of a family spends the k-th token and issues the next, all different |
| RefreshToken.OneWinnerPerToken | services/auth-service/src/modules/auth/auth.service.ts:423-487 | two refreshes that succeed with the same token are the same refresh |
| RefreshToken.OnlyTheLastIssuedIsAcceptable | services/auth-service/src/modules/auth/auth.service.ts:440-454 | a look finds its token acceptable exactly if it is the last issued of a live family, and is turned away at once exactly if the family is dead |
| RefreshToken.RotatesExactlyTheCurrent | services/auth-service/src/modules/auth/auth.service.ts:456-478 | the swap succeeds exactly for the last issued token of a live family, extends the chain by the new token, and otherwise changes nothing |
| RefreshToken.RevocationIsPermanent | services/auth-service/src/repositories/refreshToken.ts:52-166 | once a family key is deleted or expired no later or in-flight rotation revives it or exchanges in it |
| RefreshToken.LogoutAndRejectionKill | services/auth-service/src/modules/auth/auth.service.ts:440-491 | logout kills the family, and so does every refusal once it is given |
| RefreshToken.ReuseKillsTheFamily | services/auth-service/src/modules/auth/auth.service.ts:446-478 | a refresh whose token is already spent or has lost its race never succeeds, and when it ends its family is dead for good |
| RefreshToken.UndisturbedRefresh | services/auth-service/src/modules/auth/auth.service.ts:423-487 | the interleaved steps run alone leave the store and answer of the method |
| RefreshToken.ScanKillsAllItFound | services/auth-service/src/repositories/refreshToken.ts:131-147 | when the scan loop ends, every family of the credential that existed when it began is dead, whatever interleaved |
| RefreshToken.UndisturbedScan | services/auth-service/src/repositories/refreshToken.ts:131-147 | the interleaved scan run alone, over replies that name every key of the credential, ends and leaves the store of the method |
| AdminInvite.AdminInvites.FindByEmail | services/auth-service/src/repositories/credential.ts:4-8 | whether some credential has the email |
| AdminInvite.AdminInvites.MarkConsumed | services/auth-service/src/repositories/adminInvite.ts:50-67 | guarded on PENDING: consumes and reports one row exactly if the invite was PENDING, or changes nothing |
| AdminInvite.AdminInvites.Reopen | services/auth-service/src/repositories/adminInvite.ts:74-91 | guarded on CONSUMED by that credential: back to PENDING and reported exactly then, or nothing |
| AdminInvite.AdminInvites.MarkExpired | services/auth-service/src/repositories/adminInvite.ts:94-99 | guarded on PENDING |
| AdminInvite.AdminInvites.CreateInvite | services/auth-service/src/modules/admin/admin.service.ts:98-141 | refused when the email has an account; otherwise a PENDING invite with its expiry, an audit row and the email event in the outbox |
| AdminInvite.AdminInvites.ValidateInvite | services/auth-service/src/modules/admin/admin.service.ts:148-178 | says exactly what the invite is afterwards, and changes only an overdue PENDING one, to EXPIRED |
| AdminInvite.AdminInvites.EnrolTransaction | services/auth-service/src/modules/admin/admin.service.ts:225-258 | credential, consumption and audit row together, or none of them |
| AdminInvite.AdminInvites.CompensateTransaction | services/auth-service/src/modules/admin/admin.service.ts:275-286 | credential deleted, invite reopened, audit row written, or none of them |
| AdminInvite.AdminInvites.AcceptInvite | services/auth-service/src/modules/admin/admin.service.ts:188-300 | undisturbed accept: each refusal exactly when it is given, the success, and a failed profile call that leaves all but the audit log as it was |
| AdminInvite.CompensationUndoes | services/auth-service/src/modules/admin/admin.service.ts:225-286 | compensating right after enrolling restores both tables exactly; two audit rows remain |
| AdminInvite.EnrolKeepsTables | services/auth-service/src/modules/admin/admin.service.ts:225-258 | the accepting transaction keeps the table and audit invariants |
| AdminInvite.CompensateKeepsTables | services/auth-service/src/modules/admin/admin.service.ts:275-286 | so does the compensating one |
| AdminInvite.StepKeepsInv | services/auth-service/src/modules/admin/admin.service.ts:148-300 | every step of every session, of other registrations and of the clock keeps the invariant |
| AdminInvite.ConsumedIffCredentialExists | services/auth-service/src/modules/admin/admin.service.ts:180-300 | in every run an invite is CONSUMED by c exactly if the credential c created from it exists, with the email of the invite |
| AdminInvite.OneConsumedInvitePerEmail | services/auth-service/prisma/schema.prisma:12 | in every run two invites for one email are never both CONSUMED |
| AdminInvite.ExpiredIsFinal | services/auth-service/src/repositories/adminInvite.ts:94-99 | EXPIRED never changes again and is only said of an overdue invite |
| AdminInvite.AtMostOneAcceptSucceeds | services/auth-service/src/modules/admin/admin.service.ts:188-300 | a successful accept stands for ever, and no other accept of that invite ever succeeds |
| AdminInvite.AuditTellsTheState | services/auth-service/src/modules/admin/admin.service.ts:248-285 | accepts less rollbacks in the audit log are one exactly while c consumes the invite, else zero |
| AdminInvite.InvitesAreEmailedOnce | services/auth-service/src/modules/admin/admin.service.ts:115-137 | in every run the outbox emails each invite exactly once, with its own address and expiry, and nothing else |
| AdminInvite.CreationsAreAuditedOnce | services/auth-service/src/modules/admin/admin.service.ts:115-137 | in every run the audit log tells of each invite created exactly once, and of no other |
| AdminInvite.RacingAcceptLoses | services/auth-service/src/modules/admin/admin.service.ts:225-258 | in every run the accepting transaction goes through exactly for a PENDING invite with a free email; against an accept that won it fails on the unique email, and it reports an invite already used only if that is EXPIRED |
| AdminInvite.ExpiringMarks | services/auth-service/src/modules/admin/admin.service.ts:165-206 | an overdue invite found PENDING is EXPIRED once the session has said so, unless another accept has consumed it meanwhile |
| AdminInvite.CompensationReopens | services/auth-service/src/modules/admin/admin.service.ts:274-297 | a compensation always finds what it is to undo; afterwards the invite is PENDING, its email is free and a retry with the same link in time succeeds |
| AdminInvite.UndisturbedAccept | services/auth-service/src/modules/admin/admin.service.ts:188-300 | the interleaved accept run alone is the method: same tables, same outcome |
| AdminInvite.AcceptMeaning | services/auth-service/src/modules/admin/admin.service.ts:188-300 | what that method answers and leaves, case by case: every refusal but that of an overdue invite leaves all tables as they were |
| AdminInvite.UndisturbedValidate | services/auth-service/src/modules/admin/admin.service.ts:148-178 | the interleaved validation run alone is the method: same tables, same answer |
| Notification.CalculateBackoff | services/notification-service/src/resilience/backoff.ts:35-44 | a delay between zero and the smaller of base times two to the attempt and the maximum |
| Notification.CapIsBounded | services/notification-service/src/resilience/backoff.ts:39-42 | the cap before jitter is one of the two terms of its minimum and below both |
| Notification.JitterIsFull | services/notification-service/src/resilience/backoff.ts:35-44 | full jitter: every delay below the cap comes of exactly one jitter, its share of the cap |
| Notification.DoubledIsPower | services/notification-service/src/resilience/backoff.ts:39-42 | doubling base attempt times is base times two to the attempt |
| Notification.SleepIsBounded | services/notification-service/src/resilience/backoff.ts:70-80 | all sleeps of a retry loop together stay below the geometric sum of the base and below the maximum each |
| Notification.Retry | services/notification-service/src/resilience/backoff.ts:65-83 | never more calls than attempts left |
| Notification.RetryMeaning | services/notification-service/src/resilience/backoff.ts:70-80 | all calls before the last met retryable errors, the last decides, and a retryable last one was attempt number maxAttempts |
| Notification.RetryWithBackoff | services/notification-service/src/resilience/backoff.ts:65-83 | the loop gives the outcome and call count of its recursive specification, and sleeps exactly one backoff between each two calls |
| Notification.NotificationService.ClaimNotification | services/notification-service/src/idempotency/idempotency.ts:54-125 | inserts a fresh row or reclaims the existing one unchanged; a duplicate exactly if that row is SENT or DLQ |
| Notification.NotificationService.MarkAsSent | services/notification-service/src/services/notificationLog.ts:18-32 | status SENT, nothing else |
| Notification.NotificationService.MarkAsFailed | services/notification-service/src/services/notificationLog.ts:42-78 | status FAILED, attemptCount plus one, both counters returned |
| Notification.NotificationService.RouteToDlq | services/notification-service/src/services/dlq.ts:18-26 | status DLQ, nothing else |
| Notification.NotificationService.ProcessEvent | services/notification-service/src/services/notificationService.ts:79-240 | one undisturbed delivery, from the row found and what the collaborators do: skipped exactly for a SENT or DLQ row, sent exactly if limiter, renderer and breaker let it through and an attempt delivers, else failed with one attempt more and routed to the DLQ exactly if that was the last |
| Notification.RetryDelivers | services/notification-service/src/resilience/backoff.ts:65-83 | the retry loop delivers exactly if some attempt delivers after retryable errors only |
| Notification.DeliveryMeaning | services/notification-service/src/services/notificationService.ts:79-240 | the specification of a delivery answers and leaves exactly that |
| Notification.AnswersAreTrue | services/notification-service/src/services/notificationService.ts:107-239 | in every run what a delivery has answered is what the row says: sent is SENT, routed is DLQ, failed is FAILED with retries left, duplicate is SENT or DLQ; a delivery that nothing disturbed has an answer |
| Notification.StepKeepsLedger | services/notification-service/src/services/notificationService.ts:111-239 | every step, crash and failed database write, the ones that took effect included, keeps the ledgers of sends and dead letters |
| Notification.StepKeepsRetries | services/notification-service/src/services/notificationService.ts:124-221 | and the bounds on attemptCount |
| Notification.StepKeepsCalls | services/notification-service/src/services/notificationService.ts:171-206 | every step keeps the provider calls paid for by failures, successes or losses |
| Notification.TerminalIsFinalExactly | services/notification-service/src/services/notificationService.ts:124-239 | SENT and DLQ are absorbing if and only if no delivery stands before its markAsFailed, which takes a markAsSent or a DLQ update that took effect and was reported as failed; without one, both are absorbing whatever crashes or fails |
| Notification.RestingTerminalIsFinal | services/notification-service/src/idempotency/idempotency.ts:96-121 | a SENT or DLQ row with no such delivery never changes and its provider is never called again |
| Notification.LostReplySendsAgain | services/notification-service/src/services/notificationService.ts:185-206 | why: from every state with an email delivered and not recorded and retries left, a markAsSent whose reply is lost is written over with FAILED and one good redelivery sends again |
| Notification.SendAccounting | services/notification-service/src/services/notificationService.ts:171-206 | deliveries by the provider equal one if SENT, plus one being recorded, plus those whose SENT was refused, cut off or written over; undisturbed, SENT means exactly one and otherwise none |
| Notification.DeadLetterOnce | services/notification-service/src/services/dlq.ts:18-47 | a DLQ row at rest had its dead letter published once unless a failure swallowed it; no other row had |
| Notification.RetryBudget | services/notification-service/src/services/notificationService.ts:202-221 | undisturbed, FAILED at rest has attemptCount below maxRetries and DLQ exactly maxRetries; each routing cut short and each markAsFailed counted but reported as failed stretches either by one, and nothing else does |
| Notification.CallsBounded | services/notification-service/src/services/notificationService.ts:171-221 | provider calls never exceed maxAttempts times (maxRetries plus disturbances); undisturbed maxRetries times maxAttempts |
| Notification.CallsBoundIsMet | services/notification-service/src/services/notificationService.ts:171-221 | three deliveries with retryable failures use exactly that many calls and end in DLQ |
| Notification.UndisturbedDelivery | services/notification-service/src/services/notificationService.ts:79-240 | the interleaved delivery run alone is the method: same row, same answer, same calls |
| Notification.CrashSendsAgain | services/notification-service/src/services/notificationService.ts:171-186 | why the premise is needed: from every state with an email delivered and not recorded, a crash and one good redelivery send it again |
| Notification.LostClaimIsReclaimed | services/notification-service/src/idempotency/idempotency.ts:54-125 | a claim that took effect and was reported as failed costs nothing: the redelivery does what this delivery would have done |
| Notification.CrashLeavesTheRow | services/notification-service/src/services/notificationService.ts:107-239 | a crash forgets everything but the row: the redelivery does what a delivery that finds that row does |
| Notification.LimitedFailureCountsTwice | services/notification-service/src/services/notificationService.ts:124-221 | a markAsFailed that throws in the rate-limit branch is caught, and the catch counts the failure, a second time if the first count took effect; one that throws in the catch ends the delivery unanswered |
| Notification.LimitedRoutingRunsTwice | services/notification-service/src/services/notificationService.ts:124-221 | so is a DLQ update: the catch writes FAILED, over DLQ if the update took effect, counts one attempt more and routes again |
| Pagination.IdTotal | services/user-service/src/pagination/cursorPagination.ts:48-50 | the id order is total |
| Pagination.IdLessMeaning | services/user-service/src/pagination/cursorPagination.ts:48-50 | the id order is that of a dictionary: a proper prefix comes first, else the first different character decides |
| Pagination.BeforeTransitive | services/user-service/src/pagination/cursorPagination.ts:44-52 | the cursor condition is transitive |
| Pagination.InsertMeaning | services/user-service/src/modules/dead-letter-event/deadLetterEvent.repository.ts:79 | inserting into increasing rows keeps them increasing and loses none |
| Pagination.QueryMeaning | services/user-service/src/modules/dead-letter-event/deadLetterEvent.repository.ts:74-79 | where and orderBy give exactly the selected rows after the cursor, strictly increasing |
| Pagination.QueryExactly | services/user-service/src/modules/dead-letter-event/deadLetterEvent.repository.ts:67-79 | the same in the terms of the request: source and type as asked unless absent or empty, after the cursor by createdAt and then id, in ascending order of both |
| Pagination.DeadLetterEvents.FindById | services/user-service/src/modules/dead-letter-event/deadLetterEvent.repository.ts:62-65 | the row of that id, or none |
| Pagination.DeadLetterEvents.Create | services/user-service/src/modules/dead-letter-event/deadLetterEvent.repository.ts:31-60 | appends the row unless the pair of source and event is taken, as the unique constraint has it |
| Pagination.DeadLetterEvents.ListPage | services/user-service/src/modules/dead-letter-event/deadLetterEvent.repository.ts:67-84 | an undecodable cursor fails; otherwise a page of selected rows in order, full whenever there are more |
| Pagination.CursorRoundTrip | services/user-service/src/pagination/cursorPagination.ts:10-36 | a cursor decodes to what it encodes exactly if the id is not empty, and fails otherwise |
| Pagination.CursorWhenMore | services/user-service/src/pagination/cursorPagination.ts:56-83 | more rows always come with a cursor exactly if the limit is positive, as the clamp to 1..100 makes it |
| Pagination.ListMeaning | services/user-service/src/pagination/cursorPagination.ts:56-74 | the page is the first limit rows of the query, hasMore says whether there are others, the cursor is its last row |
| Pagination.QueryFromLast | services/user-service/src/pagination/cursorPagination.ts:38-54 | the query from the last row of a page is exactly what that page left of the query |
| Pagination.WalkIsTheSortedTable | services/user-service/src/modules/dead-letter-event/deadLetterEvent.repository.ts:67-84 | following nextCursor while hasMore terminates; the pages together equal the sorted selected rows strictly after the cursor, all but the last full |
| Pagination.WalkOverChanges | services/user-service/src/modules/dead-letter-event/deadLetterEvent.repository.ts:67-84 | with rows inserted or deleted between pages, rows come in strictly increasing order so none repeats, and every selected row present throughout is given once the walk has ended |
| Pagination.WalkOverSameTable | services/user-service/src/modules/dead-letter-event/deadLetterEvent.repository.ts:67-84 | over an unchanging table the two walks agree |
| Otp.OtpStore.CheckOtpRestrictions | services/auth-service/src/utils/otp/checkOtpRestrictions.ts:5-43 | refuses for a live block, spam block or cooldown, in that order, and changes nothing |
| Otp.OtpStore.TrackOtpRequests | services/auth-service/src/utils/otp/trackOtpRequests.ts:10-48 | refuses while spam-blocked; the fourth request sets the spam block; others count and start the cooldown |
| Otp.OtpStore.VerifyOtp | services/auth-service/src/utils/otp/verifyOtp.ts:8-53 | refuses while blocked or without a code; a right code clears code and counter; the fourth wrong one blocks and clears them; others count and leave the code |
| Otp.OtpStore.RequestOtp | services/auth-service/src/modules/auth/auth.service.ts:253-254 | gate, then counter; a refusal by the gate counts nothing |
| Otp.OtpStore.StartRegistration | services/auth-service/src/modules/auth/auth.service.ts:243-271 | refused for a taken email, by the gate or by the counter; otherwise the registration is cached for 35 minutes and the code stored for five |
| Otp.OtpStore.ResendRegistrationOtp | services/auth-service/src/modules/auth/auth.service.ts:276-291 | only for a cached registration, which stays as it is; gate, counter, new code |
| Otp.StretchIsStreak | services/auth-service/src/utils/otp/verifyOtp.ts:31-45 | counted events that span less than the window are one streak of the refreshed counter |
| Otp.StepKeepsInv | services/auth-service/src/modules/auth/auth.service.ts:253-314 | every gate, counter, store, guess and tick of interleaved requests keeps the invariants |
| Otp.WrongGuessesBounded | services/auth-service/src/utils/otp/verifyOtp.ts:18-52 | compared wrong guesses with no success between them, spanning less than 30 minutes, are at most MAX_ATTEMPTS + 1 |
| Otp.GrantsBounded | services/auth-service/src/utils/otp/trackOtpRequests.ts:20-45 | granted requests spanning less than 30 minutes are at most three, however requests interleave |
| Otp.TooSoonExactlyInCooldown | services/auth-service/src/utils/otp/trackOtpRequests.ts:37-45 | a grant comes less than 60 s after the last one if and only if the cooldown key is alive when the counter is called, and then only to a request that passed the gate before that last grant |
| Otp.GrantsApart | services/auth-service/src/utils/otp/checkOtpRestrictions.ts:32-40 | a grant comes at least 60 s after every grant already made when it passed the gate |
| Otp.SerialGrantsApart | services/auth-service/src/modules/auth/auth.service.ts:253-254 | in runs where no request passes the gate while another stands between gate and counter, all grants are at least 60 s apart |
| Otp.OverlappingRequestsSkipTheCooldown | services/auth-service/src/modules/auth/auth.service.ts:253-254 | in every run, two requests that are both past the gate are both granted at the same instant, unless a spam block is alive or fewer than two grants are left |
| Otp.BlockedExactlyWhile | services/auth-service/src/utils/otp/verifyOtp.ts:18-23 | codes are neither compared nor issued past the gate exactly while the latest block is younger than 30 minutes |
| Otp.BlocksExactlyOnTheFourth | services/auth-service/src/utils/otp/verifyOtp.ts:30-45 | a compared wrong guess blocks exactly as the fourth of its streak; before that it reports the attempts left |
| Otp.AnswersExactly | services/auth-service/src/utils/otp/verifyOtp.ts:18-53 | in every run every answer is the one that the logs of codes, guesses and blocks give: success exactly for the last code stored, not used up, and younger than five minutes |
| Otp.CodesAreUsedOnce | services/auth-service/src/utils/otp/verifyOtp.ts:36-53 | after a success or the block every guess is answered invalid-or-expired or blocked until another code is stored |
| Otp.SuccessesNeedTwoCodes | services/auth-service/src/utils/otp/verifyOtp.ts:52 | between two successes another code was stored |
| Otp.WrongGuessLeavesTheCode | services/auth-service/src/utils/otp/verifyOtp.ts:30-50 | a wrong guess short of the block leaves the code: the right one still succeeds |
| Otp.CodesExpire | services/auth-service/src/modules/auth/auth.service.ts:253-291 | a code still succeeds after a wait exactly if it is then younger than five minutes |
| Otp.UndisturbedRequest | services/auth-service/src/modules/auth/auth.service.ts:253-271 | the interleaved request run alone is gate, counter and code of the methods, with one grant and one code exactly if neither refused |
| Otp.GateExactly | services/auth-service/src/utils/otp/checkOtpRestrictions.ts:5-43 | in every run the gate refuses for a block, a spam block or the cooldown of the last grant exactly as the logs of blocks and grants tell |
| Otp.RefusedExactlyWhenSpamming | services/auth-service/src/utils/otp/trackOtpRequests.ts:20-35 | the counter refuses exactly in the hour after a spam block or as the fourth request of a streak |

## Left out

- Libraries and transport (kafkajs, Prisma, ioredis, Express, JWT, bcrypt, axios, email rendering): steps that succeed or fail.
- Two outbox pollers on one table: the claim is by id with no status guard, so nothing excludes them.
- Reaping of stuck rows, which the query never does, and waiting out the backoff, which the code only logs.
- `OutboxRuns.FirstAttemptOrder`: needs rows inserted in increasing `createdAt`; ties and late inserts of older rows are not ordered by the code either.
- Outbox.OutboxPoller.ProcessNextBatch: the database is up, so the path that logs a failed query, claim or row update is not modelled.
  What the query returns is a parameter constrained by its clauses, since rows of equal age may come in any order.
- `RefreshToken.RefreshTokens.Refresh`: whether the token verifies is a parameter; corrupt stored values read as absent.
- `RefreshToken.StepKeepsInv`: keys expire at any moment in the machine, which only allows more runs than their seven days.
- `RefreshToken.RefreshTokens.RevokeAllRefreshTokens`: the method is the undisturbed loop; interleaved scans are in the machine.
- `AdminInvite.AdminInvites.AcceptInvite`: takes the new id, the clock and the profile call's outcome as parameters; one clock reading stands for all.
- `AdminInvite.StepKeepsInv`: `createInvite` appears in the machine without its look for an existing account, which only allows more runs.
- `Notification.NotificationService.ProcessEvent`: text columns, timestamps and trace headers of the log row are not modelled.
- `Notification.RetryWithBackoff`: `maxAttempts` is an integer; a fractional configured value is not modelled. Sleeping is summed, not awaited.
- `Pagination.CursorRoundTrip`: base64url (section 5 of RFC 4648), JSON and ISO dates are abstract; malformed text is one failing case.
- `Otp.WrongGuessesBounded`: one `verifyOtp` is one instant; guesses racing inside it could be counted as one.
- Non-finite `limit` values in `parsePaginationParams`, which request validation excludes.
- The breakers of auth-service, notification-service and the gateway: an identical copy and simpler variants. In the
  notification pipeline the breaker may be open at any send.
- `CircuitBreaker.Circuit.Execute`: how the fallback ends is a parameter.
- The breaker's metrics; `checkOrThrow`, key builders and logging of the rate limiter.
- The axios retry interceptor, which resets its own counter and so has no bound to prove.
- End-to-end delivery from outbox to consumer: the poller publishes only the payload, consumers parse an envelope.
- Password reset, login lockout, role grants, profile provisioning, validation schemas, error handlers, templates and the web apps.
