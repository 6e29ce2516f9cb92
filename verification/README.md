# Dispatch, guards, retries and accounting of the contract platform

A Dafny model of the self-contained engines of a contract-processing platform, with
proofs of what they are for. `dafny verify dfyconfig.toml` checks all of it.

| file | models |
|---|---|
| `QueueIds.dfy`, `QueueStore.dfy`, `QueueService.dfy` | messages, queue ids, the dispatcher's endpoints and its worker handlers |
| `DispatchRuns.dfy`, `DispatchConservation.dfy`, `DispatchReplays.dfy`, `DispatchSteps.dfy`, `DispatchMessages.dfy` | runs of enqueue, dispatch, failure, dead-letter, replay, discard and retention steps, dispatchers taken through them, and what they carry |
| `RateLimit.dfy`, `Breaker.dfy`, `Lock.dfy` | the Redis-backed guards, under interleaving, time and lost replies |
| `CacheKeys.dfy`, `Cache.dfy` | cache keys, prefix invalidation and the read-through cache |
| `Retry.dfy`, `Alerts.dfy` | the two retry engines and their time bounds |
| `SplitSql.dfy`, `VectorCodec.dfy` | the SQL script splitter and the vector text codec |
| `Compare.dfy`, `CompareLaws.dfy`, `CompareItems.dfy` | the field-by-field comparison of two extraction results, its books, and what exactly it reports |
| `Migrations.dfy` | the migration graph and the database preflight |
| `Pipeline.dfy`, `Versions.dfy` | stages, their dependencies, component versions and checkpoint reuse |
| `WorkerLoop.dfy` | the claim loop of the Postgres worker and the settling of claimed rows |
| `Wrappers.dfy`, `Text.dfy` | Option, number texts, joining and cutting text |

## How the model is built

Objects whose methods update fields are classes; each method's contract gives the new state
as a function of the old one, and the laws are proved of those functions. Interleavings are
runs: a `State`, a `Step` datatype with `Enabled` and `Apply`, and sequences of steps from
`START`. One step is one atomic effect on Redis or on the process, so a replay is three steps
(read the entry, add the job, remove the entry) and a rate-limited request one or two. A call
on Redis, BullMQ or the Postgres driver ends in one of three ways: no effect, an effect whose
reply is lost, or an answered effect. Clocks, random draws, replies and what providers return
are parameters, so every theorem holds for all of them.

**Dispatch.** BullMQ is three facts: adding a retained id is a no-op that returns the id;
`addBulk` takes effect in order and as one step; a throw counts one attempt and the job is
retried while attempts remain. There are no stalled jobs, every dead-letter write lands in the
end, and all jobs have one attempt budget. A bulk request is its messages sent one by one
(`QueueStore.PartialBulkIsOneByOne`), so runs have a step for one message only. `contract_id`,
`project_id`, `trace`, `continue_pipeline` and `options` travel as one opaque payload.

**Guards.** A request counts in the window of its INCR. Redis time is in milliseconds, TTL
replies are rounded seconds, windows are positive. A failed Redis call admits the request
(`RateLimit.RateLimiter.Consume`); the runs of `RateLimit` have crashes between the two calls
but no failing call. Lock tokens are taken to be unique. Cache operations do not overlap.
A complete SCAN returns every key under its prefix that is there throughout; ids and namespaces
hold no pattern character and no colon. The digest of a long key is any function, stored
values are stable under JSON, and a stored null reads as a miss, as it does in the code.

**Retries.** Time passes only in attempts and sleeps. The random part of a delay is a draw in
[0, 1]. A configured base of 0 becomes 1.0 (backend/app/ai/resilience.py:144); the time bounds
are for positive bases and attempts that the timeout ends.

**Text and numbers.** Python's white space and line-break characters are written out in
`SplitSql`. Floats are reals without NaN; `bool`, `int` and `float` are one kind of number, as
Python compares them. `sorted` is any fixed way to list a set, and where it matters one that lists each
element once (`CompareItems.Lists`).

## What the proofs found

- A 4xx reply is retried like any other failure (queue/src/worker.ts:125-132), although
  queue/README.md:54 says it is not; the model follows the code. `RetryableStageError.delayMs`
  is stored and never read, and `lease_seconds` is unused in `_worker_loop`.
- The dead-letter id leaves out `dispatch_id`, so all dispatches of a (stage, job) share one
  entry. Conservation is therefore stated per (stage, job).
- Two orderings lose a job. A replayed job can fail before the replay has removed the old entry:
  its own dead-letter write is then a no-op, and the removal takes the last trace
  (`DispatchReplays.LostToSwallowedWrite`). Two replays of a pair in one millisecond share an id:
  the second adds nothing and still removes its entry (`DispatchReplays.LostToSameMillisecond`).
  `DispatchReplays.NothingIsLostIff` gives the exact condition for all runs; `NoPairIsLost` says that
  runs without these two orderings meet it, even when retention trims finished jobs; and
  `DispatchReplays.RemovalIsSafeWhile` says when the replay itself could tell.
- The replay and discard handlers have no try around their calls, and Express 4 does not answer
  for a rejected handler: such a request gets no reply at all (`QueueService.NoReply`).
- The limiter admits twice the limit within one window for every limit and window
  (`RateLimit.BoundIsReached`); without the window's last millisecond it admits at most one less.
- A release does not give back a grant of its own object exactly when the object has acquired
  again since (`Lock.ReleaseMissesItsGrantIff`).
- A key made with an empty project id escapes invalidation exactly when it is long enough to be
  digested (`CacheKeys.EmptyProjectEscapesIff`); an invalidation also covers every project whose
  id begins with the given one, which ids of one length rule out.
- The regression figure, rounded to four places, hides one differing field in two million
  (`CompareLaws.RegressionOfContracts`).
- The preflight reads the two fields of a migration file apart, so a file that names a down
  revision and no revision of its own can take a head away. A head exists exactly when such
  files do not name every top of the graph (`Migrations.HeadExistsIff`; the smallest case is
  `Migrations.StrayDownHidesTheHead`), and the verdict on a usable schema is right for every
  stored revision exactly when they name none (`Migrations.VerdictMeansIff`).

## Model

| member | source | states |
|---|---|---|
| QueueIds.EnqueueIdsAgree | queue/src/server.ts:126 | Two accepted messages get the same queue id exactly when job id, stage, attempt (1 if absent) and dispatch id (`legacy` if absent) agree, whatever characters the dispatch id holds |
| QueueIds.UuidIff | queue/src/server.ts:25 | A job id is accepted exactly if it is five groups of 8, 4, 4, 4 and 12 hexadecimal digits with hyphens between |
| QueueIds.ReplayIdsApart | queue/src/server.ts:313 | No replay id equals an enqueue id; two replays share one exactly when pair and millisecond agree |
| QueueIds.DlqIdsAgree | queue/src/worker.ts:169 | A dead-letter id determines stage, job id and attempt count, and nothing of the dispatch id |
| QueueStore.GroupingKeepsOrder | queue/src/server.ts:186-219 | Each queue after a batch holds what enqueuing the messages one by one in order leaves, by stage |
| QueueStore.BulkIsOneByOne | queue/src/server.ts:178-219 | A bulk request whose groups all take effect equals its messages sent to `/enqueue` one by one |
| QueueStore.PartialBulkIsOneByOne | queue/src/server.ts:195-230 | A bulk request of which some groups failed equals enqueuing exactly the messages of the other groups |
| QueueStore.AddAllRetains | queue/src/server.ts:198-213 | Adding a group changes no retained job, and every id sent is there afterwards |
| QueueStore.NewGroupArrivesInOrder | queue/src/server.ts:198-213 | A group of new ids arrives behind what is there, in its own order, each id with its own job |
| QueueStore.JobCarriesTheRequest | queue/src/server.ts:107-116 | Two requests make the same job exactly when message and delay (none meaning zero) agree |
| QueueStore.UrgentComesFirst | queue/src/server.ts:53-58 | Priorities rank urgent, high, normal, low; an absent or unknown one is normal |
| QueueStore.ResubmitIsNoOp | queue/src/server.ts:114-123 | While ids are retained, in whatever state, sending a group again changes nothing |
| QueueStore.RetriedBulkConverges | queue/src/server.ts:207-209 | Retrying a batch after any subset of groups was added, or resubmitting it, while the ids are kept: the ids of one clean batch in its order, jobs already there untouched, the rest as the clean batch adds them |
| DispatchSteps.RetryAfterWorkConverges | queue/src/server.ts:195-219 | The same with any run of worker steps between the first try and the retry |
| QueueStore.OnlyACleanReplySettles | queue/src/worker.ts:117-141 | Only a parseable reply below 400 without `should_retry` completes a job; a 4xx is retried like a 5xx |
| QueueStore.WorkMovesOneJob | queue/src/worker.ts:196-236 | Taking or settling a job changes its state and attempts alone and no other job |
| QueueService.Dispatcher.Enqueue | queue/src/server.ts:91-150 | The reply and the queues for a valid message, an invalid one, a failed add and an add whose reply is lost |
| QueueService.Dispatcher.PushAll | queue/src/server.ts:198-213 | The ids of a group come back in its order, one per message |
| QueueService.Dispatcher.EnqueueBulk | queue/src/server.ts:164-237 | All-or-nothing validation; the queues after any pattern of group faults; a full reply has no hole and `job_ids[i]` is message i's id |
| QueueService.Dispatcher.GroupByStage | queue/src/server.ts:186-191 | The map holds each present stage with its entries in request order |
| QueueService.Dispatcher.Scatter | queue/src/server.ts:214-217 | Each id lands at its own message's place and no other place changes |
| QueueService.EntriesAreTheGroup | queue/src/server.ts:186-213 | What a stage's addBulk is handed is that stage's part of the batch in order |
| QueueService.Dispatcher.Replay | queue/src/server.ts:287-322 | 404, 422, 202 with the new id; if a call raises, before or after taking effect, nobody answers, and the queues and entries show how far it came |
| QueueService.Dispatcher.AddReplay | queue/src/server.ts:308-314 | The add acts on the entry as it was read and gives back its id, which may already be taken |
| QueueService.Dispatcher.Discard | queue/src/server.ts:324-335 | Discarding removes that entry only, or answers 404; no answer if a call raises |
| QueueService.Dispatcher.Take | queue/src/worker.ts:196-202 | Python is sent the stored message with BullMQ's count plus one |
| QueueService.Dispatcher.Settle | queue/src/worker.ts:215-295 | The job after a reply, and the dead-letter write that is started exactly when the budget is used up |
| QueueService.Dispatcher.DeadLetter | queue/src/worker.ts:149-189 | The write adds the entry under its id unless that id is present |
| DispatchSteps.Perform | queue/src/worker.ts:196-295 | Every step of a run, done by the handler it stands for, leaves queues, entries and awaited writes as the step says |
| DispatchSteps.Drive | queue/src/server.ts:91-335 | A dispatcher taken through any run ends in the state of the run, and has lost no accepted pair if every removal was safe |
| DispatchConservation.NoPairIsLost | queue/src/worker.ts:268-295 | Over every orderly run, wherever replays stop and whatever retention trims, each accepted (stage, job) is queued, active, completed, discarded, dead-lettered or about to be |
| DispatchReplays.NothingIsLostIff | queue/src/server.ts:308-315 | Over every run, orderly or not: no accepted pair is ever lost if and only if every removal that ends a replay finds its pair accounted for by something other than the entry it takes |
| DispatchConservation.AcceptedPairsKeepAJob | queue/src/queues.ts:40-46 | Over every run without trimming, orderly or not, each accepted (stage, job) keeps a job in its stage's queue |
| DispatchRuns.AttemptsCountUp | queue/src/worker.ts:196-236 | Over every run Python is sent attempts 1..k of a queued job, k within the budget, all but the last failed, and it is dead-lettered exactly when the last of the budget failed |
| DispatchConservation.FailedIsExhausted | queue/src/worker.ts:279-294 | BullMQ's verdict on a failed job and the handler's own test agree |
| DispatchRuns.WorkersAddNothing | queue/src/worker.ts:251-254 | Worker steps add no job to any stage queue |
| DispatchMessages.NothingIsMadeUp | queue/src/worker.ts:149-189 | Over every run, what waits, is sent, is dead-lettered or replayed is a submitted message in every field but the attempt |
| DispatchMessages.StartedEntryIs | queue/src/worker.ts:154-169 | The dead-letter entry a failed job starts carries that job's stage, message and id |
| DispatchConservation.StepKeepsElsewhere | queue/src/server.ts:308-315 | No step but the landing of its own dead-letter write takes a pair out of the queues, the completed, the discarded and the awaited |
| DispatchConservation.SameKeySamePair | queue/src/worker.ts:165-169 | With one attempt budget a (stage, job) has exactly one dead-letter id, shared by all its dispatches |
| DispatchReplays.ReplayFinishIsSafeWhen | queue/src/server.ts:315 | The removal that ends a replay loses nothing exactly when its entry is not all that is left of the pair |
| DispatchReplays.RemovalIsSafeWhile | queue/src/server.ts:310-315 | What a replay could read before removing: over any run since its add took a new id, the removal is safe while that job waits or is active, and once it completed if nothing else was posted for the pair |
| DispatchConservation.AcceptedOnlyGrows | queue/src/server.ts:107-127 | No step takes a pair out of the accepted ones |
| DispatchReplays.LostToSwallowedWrite | queue/src/server.ts:310-315 | For every message and every attempt budget: a replayed job that fails before the old entry is removed is lost |
| DispatchReplays.LostToSameMillisecond | queue/src/server.ts:313 | For every message and every attempt budget: a second replay in the same millisecond adds nothing and still removes its entry |
| Breaker.CircuitBreaker.RecordFailure | backend/app/core/cache.py:177-188 | The breaker after a failure, with the clock read twice |
| Breaker.CallIsItsSteps | backend/app/core/cache.py:207-223 | A guarded call alone is skipped while the breaker is open, and else is its begin and end in a run |
| Breaker.OpeningsAreSpaced | backend/app/core/cache.py:154-194 | In every interleaving openings are at least 30 s apart and an open period ends exactly 30 s after its opening, whatever stragglers do |
| Breaker.FailuresAreFew | backend/app/core/cache.py:207-247 | In sequential runs any span of length L holds at most floor(L/30)+1 failed guarded calls |
| Breaker.SpacedTimesAreFew | backend/app/core/cache.py:155-157 | k times a cooldown apart need a span of k-1 cooldowns |
| RateLimit.RateLimiter.Consume | backend/app/core/middleware.py:264-302 | The verdict, counter and breaker for every fault, fail-open included; a refused request is told the counter's remaining time to the nearest second, at least one and at most the window |
| RateLimit.ToldWaitIsRight | backend/app/core/middleware.py:296-298 | A client that waits as told and half a second more finds a new lifetime; one that comes more than half a second early still finds the old |
| RateLimit.WindowIsBounded | backend/app/core/middleware.py:285-298 | In every interleaving a span of one window with both ends admits at most twice the limit, without its last millisecond one less |
| RateLimit.TwoLifetimesAtMost | backend/app/core/middleware.py:291-294 | Hits within one window belong to one lifetime or two successive ones |
| RateLimit.LifetimesAdmitTheirFirst | backend/app/core/middleware.py:290-298 | In every interleaving each lifetime of the key, over or not, begins with a hit, lasts at least a window, and of its numbered hits admits exactly the first `limit` |
| RateLimit.NumberedAdmits | backend/app/core/middleware.py:290-298 | Hits that carry their number within the lifetime are admitted min(hits, limit) times |
| RateLimit.StuckCounterIsRearmed | backend/app/core/middleware.py:292-294 | A counter without expiry has an EXPIRE pending or lost, and the next request re-arms it |
| RateLimit.BoundIsReached | backend/app/core/middleware.py:285-298 | For every limit and window, a run that admits twice the limit in one window |
| Lock.RedisLock.Acquire | backend/app/core/cache.py:360-369 | True exactly for an answered SET that took effect; the token is kept even when the reply is lost |
| Lock.RedisLock.Release | backend/app/core/cache.py:371-385 | The key goes only if it holds this object's token, and the token is dropped in any case |
| Lock.MutualExclusion | backend/app/core/cache.py:345-369 | In every interleaving at most one acquisition is held within its TTL |
| Lock.GrantedIffFree | backend/app/core/cache.py:360-369 | Over every run an acquire is granted exactly when its SET takes effect and no acquisition is held within its TTL |
| Lock.ReleaseFreesOnlyItsOwn | backend/app/core/cache.py:371-391 | A release ends no hold but its own, ends its own even when the acquire's reply was lost, and leaves the key free unless another holds it |
| Lock.ReleaseMissesItsGrantIff | backend/app/core/cache.py:360-385 | Over every run: a grant not yet released and within its TTL survives an effective release by the object that took it if and only if that object acquired again in between |
| Lock.SecondAcquireOrphansTheFirst | backend/app/core/cache.py:363-366 | After any run, acquiring twice on one object leaves the first hold beyond the reach of release |
| CacheKeys.BuildKey | backend/app/core/cache.py:120-136 | The key built segment by segment, digested above 200 characters |
| CacheKeys.KeysDifferWhen | backend/app/core/cache.py:120-136 | Keys of one namespace and project, of parts without colons, differ exactly when the parts do, and digested ones exactly when the digests do |
| CacheKeys.MissingPartIsSkipped | backend/app/core/cache.py:131 | A missing part leaves no trace in a key |
| CacheKeys.ProjectsApart | backend/app/core/cache.py:123-135 | No key of one project is a key of another |
| CacheKeys.ProjectKeyShape | backend/app/core/cache.py:128-135 | Every key of a project, hashed or not, is namespace, project id, then nothing or a colon, unless the id is empty and the key hashed |
| CacheKeys.InvalidationHitsExactly | backend/app/core/cache.py:281-298 | Invalidating a project removes a project key iff its namespace is listed, its id begins with the invalidated one and it is not a hashed key of the empty id; for ids of one length, iff it is that project's |
| CacheKeys.EmptyProjectEscapesIff | backend/app/core/cache.py:128-135 | A key made with an empty project id, whatever its parts, is removed exactly by the empty id's invalidation and only if its plain form has at most 200 characters |
| Cache.Client.CacheGet | backend/app/core/cache.py:207-223 | The value read and the breaker, skipped and failed calls included |
| Cache.Client.CacheSet | backend/app/core/cache.py:226-247 | The store and the breaker after a write, skipped, failed or half-failed |
| Cache.Client.Cached | backend/app/core/cache.py:301-317 | A hit is returned and nothing written; a miss returns the computed value and writes it |
| Cache.Client.InvalidatePrefix | backend/app/core/cache.py:260-278 | A complete scan removes exactly the keys under the prefix; when a SCAN or a DELETE fails, or only its reply is lost, what is gone and how much of it is counted |
| Cache.Client.InvalidateProject | backend/app/core/cache.py:281-298 | Whatever other prefixes do, a prefix that does not fail leaves no key under it and a failing one none of its applied rounds; no other key goes and no entry changes |
| Cache.AfterAllRemoves | backend/app/core/cache.py:276-298 | The same of the invalidations in a row, each failure staying with its own prefix |
| Cache.ProjectInvalidationRemovesExactly | backend/app/core/cache.py:281-298 | A clean project invalidation takes out of the store exactly the covered keys and keeps all other entries |
| Cache.InvalidateAllRemoves | backend/app/core/cache.py:289-298 | Prefix invalidations in a row remove exactly the keys under one of the prefixes |
| Cache.PartialScanStaysInside | backend/app/core/cache.py:270-278 | A scan that stops half way has removed only keys under the prefix |
| Cache.HitsAreFresh | backend/app/core/cache.py:301-317 | In every run every hit is the value last stored under its key, younger than its ttl and stored after the last successful invalidation covering it |
| Cache.HitsExactlyWhen | backend/app/core/cache.py:207-223 | After any run a `cached` call finds exactly the last value stored that nothing has taken since, if Redis is readable and the ttl is not over; in all other cases it recomputes |
| Cache.MissIsStored | backend/app/core/cache.py:311-317 | A miss stores what was computed and finds it for exactly its ttl; a hit stores nothing |
| Cache.StepsAreTheOperations | backend/app/core/cache.py:301-317 | The `cached` step of a run leaves the store as the operation does |
| Retry.CallWithRetries | backend/app/ai/resilience.py:125-238 | The loop ends as specified, the outcome record agrees with it, and the code after the loop is unreachable |
| Retry.CallIsOnTheClock | backend/app/ai/resilience.py:141-220 | For every call the time is the attempts made plus the sleeps between them, and a retry is started exactly when the failure is retryable, one more is allowed, and time so far, delay and a whole attempt fit before the deadline |
| Retry.RetriedIff | backend/app/ai/resilience.py:73-111 | Which exceptions are retried and for what reason, by type name and status; a refusal below 500, an unknown exception and a cancellation are not |
| Retry.CallIsAccounted | backend/app/ai/resilience.py:146-238 | Attempts in 1..n; each earlier failure was retryable and its reason recorded; success iff the last attempt returned; a raise only for a non-retryable error, exhaustion or the deadline |
| Retry.DelayRange | backend/app/ai/resilience.py:114-122 | A delay lies between 0 and the smaller of the cap and the doubled base |
| Retry.DelayIsDrawnFraction | backend/app/ai/resilience.py:114-122 | A delay is the drawn fraction of a ceiling that doubles from the base until the cap |
| Retry.DeadlineHolds | backend/app/ai/resilience.py:188-203 | With a deadline the call ends within the larger of the deadline and one attempt timeout |
| Retry.TotalTimeIsBounded | backend/app/ai/resilience.py:141-220 | n allowed attempts take at most n timeouts plus min(60(n-1), base(2^(n-1)-1)) |
| Retry.DeadProviderTakes | backend/app/ai/resilience.py:141-220 | The bound is reached: timeouts on every attempt with the longest draws take n timeouts and base(2^(n-1)-1) |
| Alerts.AlertDispatcher.Deliver | backend/app/alerting/dispatcher.py:93-132 | It sends until the first success or cancellation, at most the allowed times, and its time is the sends plus the first n-1 delays in closed form |
| Alerts.AlertDispatcher.constructor | backend/app/alerting/dispatcher.py:44-50 | Whatever the arguments, at least one attempt and no negative delay is kept |
| Alerts.DelayRecurrence | backend/app/alerting/dispatcher.py:119-121 | Doubling with a cap, zero staying zero, gives b and then min(b*2^(k-1), M) |
| Alerts.DeliveredIffOneSucceeds | backend/app/alerting/dispatcher.py:93-132 | Without cancellation it reports true iff one allowed send succeeds, and stops at the first that does |
| Alerts.DeliveryTimeIsBounded | backend/app/alerting/dispatcher.py:97-122 | A delivery takes at most n timeouts plus the first n-1 delays |
| Alerts.DeadChannelTakes | backend/app/alerting/dispatcher.py:97-122 | The bound is reached: a channel that times out every time takes n timeouts and backoff(2^(n-1)-1) until the cap |
| Alerts.LevelsRise | backend/app/alerting/base.py:52-57 | The four levels are in strict order |
| Alerts.AlertDispatcher.Dispatch | backend/app/alerting/dispatcher.py:66-91 | The report names exactly the providers, with the result of the last one of each name; nothing when suppressed |
| Alerts.ReportIsExact | backend/app/alerting/dispatcher.py:88-91 | With distinct names the report says true of exactly the providers that delivered |
| SplitSql.Split | backend/app/cli.py:909-936 | The scanner's loop equals splitting into groups of lines |
| SplitSql.StatementsHoldTheKeptLines | backend/app/cli.py:917-936 | The statements hold exactly the kept lines in order, all but the last end in `;` at even `$$` parity with no earlier such cut, and the filter drops nothing |
| SplitSql.DollarBlockIsOneStatement | backend/app/cli.py:909-936 | A line with one `$$`, any lines without `$$`, and a line with one `$$` ending in `;` come back as one statement |
| SplitSql.DollarBlockIsOneGroup | backend/app/cli.py:921-933 | The same at the start of any further lines |
| SplitSql.NoDollarsIff | backend/app/cli.py:926 | The count of `$$` is zero exactly where there is none |
| SplitSql.DollarsBehind | backend/app/cli.py:926 | The first `$$` counts one and counting goes on behind it |
| SplitSql.SkippableIff | backend/app/cli.py:923 | Outside a body exactly blank lines and lines that begin, after white space, with `--` are skipped |
| SplitSql.EndsStatementIff | backend/app/cli.py:930 | A line ends a statement exactly if its last character but white space is `;` |
| SplitSql.StripIs | backend/app/cli.py:922 | Stripping takes all white space off both ends and nothing else |
| SplitSql.SplitLinesIs | backend/app/cli.py:921 | Lines end at every break, a carriage return with its line feed being one |
| SplitSql.SplitIsANormalForm | backend/app/cli.py:909-936 | Splitting the newline-join of the output gives the output again, for every script |
| SplitSql.StatementIsTrimmed | backend/app/cli.py:931 | Stripping a statement's text trims its outer lines and nothing inside |
| SplitSql.GroupsAgain | backend/app/cli.py:921-935 | Scanning the lines of a list of statements finds those statements again |
| VectorCodec.RoundTrip | backend/app/db/types.py:67-86 | Reading back a bound vector gives the same list for every length, none included |
| VectorCodec.BoundText | backend/app/db/types.py:67-75 | The bound text is the printed numbers in order, with commas between, in brackets |
| VectorCodec.SplitJoin | backend/app/db/types.py:100-118 | Splitting the comma-join of number texts gives the texts again |
| VectorCodec.BindIsInjective | backend/app/db/types.py:74 | Two vectors bind to the same text only if they are equal |
| Compare.ContractReport.CompareClause | backend/app/evaluation/extraction_compare.py:362-396 | The report after comparing one pair of clauses |
| CompareItems.DiffReportedIff | backend/app/evaluation/extraction_compare.py:342-409 | A difference is reported if and only if, in the i-th pair of a shared type, a compared field or an attribute of either side differs (scores by more than a thousandth), or the chunk sets do |
| CompareItems.FieldsMatchIff | backend/app/evaluation/extraction_compare.py:362-385 | The field figure is full exactly when no two compared values differ so |
| CompareItems.ReportIsCounted | backend/app/evaluation/extraction_compare.py:342-396 | Every figure of the report is a count over the items compared, and its diffs are theirs in order |
| CompareItems.ItemsAre | backend/app/evaluation/extraction_compare.py:348-372 | The items compared, in terms of the two results alone |
| CompareItems.ItemsAreDistinct | backend/app/evaluation/extraction_compare.py:348-372 | Nothing is compared twice |
| Compare.ContractReport.Compare | backend/app/evaluation/extraction_compare.py:342-359 | The report after comparing two results by type, pair and field |
| Compare.Index | backend/app/evaluation/extraction_compare.py:399-403 | Each type with its clauses in order, and no other type |
| CompareLaws.DiffsBalance | backend/app/evaluation/extraction_compare.py:362-396 | The number of diffs is field mismatches plus citation mismatches |
| CompareLaws.SwapMirrors | backend/app/evaluation/extraction_compare.py:342-396 | Swapping the sides keeps every count but JSON validity, swaps the only-in lists and turns each diff around |
| CompareLaws.SelfComparisonIsClean | backend/app/evaluation/extraction_compare.py:342-409 | A result differs from itself nowhere |
| CompareLaws.ComputeTotals | backend/app/evaluation/extraction_compare.py:191-197 | The totals of any of a report's accuracies over all contracts |
| CompareLaws.RegressionOfContracts | backend/app/evaluation/extraction_compare.py:199-206 | The regression figure of any list of compared contracts is 0 iff at most one field in two million differs; below two million comparisons, iff no field of any contract differs |
| CompareItems.RegressionIsZeroIffAllAgree | backend/app/evaluation/extraction_compare.py:199-206 | Below two million comparisons the regression figure is zero exactly when no two compared values of any contract differ |
| CompareLaws.RegressionIsNearest | backend/app/evaluation/extraction_compare.py:206 | The figure is the share of failed comparisons to the nearest ten-thousandth of a percent |
| CompareLaws.RegressionIsZeroWhen | backend/app/evaluation/extraction_compare.py:199-206 | The rounded figure of one accuracy is 0 iff at most one comparison in two million fails |
| CompareLaws.TotalsAddUp | backend/app/evaluation/extraction_compare.py:191-197 | Matches and mismatches over all contracts add up to the comparisons, and no mismatch means every contract matches in full |
| CompareLaws.CountBy | backend/app/evaluation/extraction_compare.py:256-273 | Each clause type or field once with the number of its diffs, no other keys, by falling count and then by first appearance, the counts adding up to all diffs |
| Migrations.KnownRevisions | scripts/check-db-target.py:113-136 | The known revisions, and a head exactly when there is one |
| Migrations.EveryRevisionHasATop | scripts/check-db-target.py:135-136 | In a finite acyclic graph every revision has above it one that no migration goes down to |
| Migrations.HeadExistsIff | scripts/check-db-target.py:116-136 | A nonempty acyclic graph has a head if and only if the files without a revision of their own do not name all of those tops |
| Migrations.SingleHeadReachesAllIff | scripts/check-db-target.py:116-136 | A single head reaches every known revision through down links if and only if no such file names a top; nothing but itself reaches it |
| Migrations.Evaluate | scripts/check-db-target.py:142-197 | Which problems and warnings appear, each if and only if its condition holds |
| Migrations.VerdictMeansIff | scripts/check-db-target.py:179-195 | On a usable schema with one head: silent at the head, a warning on strict ancestors, a problem on unknown revisions, for every revision if and only if no file without a revision of its own names a top |
| Pipeline.NeedsComeEarlier | backend/app/core/enums.py:266-278 | What a dispatched stage needs, through any number of links, is dispatched earlier |
| Pipeline.StagesFromAre | backend/app/core/enums.py:307-309 | The replay set of a stage is it and the dispatched stages that need it, through any number of links, in their order |
| Versions.Diff | backend/app/core/versions.py:201-217 | The moved fields with stored and current value; empty iff `matches`, for a stored payload |
| Versions.MatchesIsAPreorder | backend/app/core/versions.py:180-199 | `matches` is reflexive and transitive |
| Versions.NewFieldInvalidates | backend/app/core/versions.py:183-186 | A newly tracked field invalidates old payloads, a dropped one does not |
| Versions.CheckpointSurvivesWhen | backend/app/core/versions.py:238-314 | A checkpoint survives a change of settings, version constants and profile iff nothing its stage reads has moved to another value; the model is the one that answers, an Azure deployment included |
| Versions.ReplayIsClosed | backend/app/core/enums.py:281-309 | Replaying from the first stale stage replays it and the stages that need it and no others; every kept stage matches and needs no replayed one |
| WorkerLoop.RunClaimed | backend/app/cli.py:375-415 | One `complete` for a returned outcome, one `fail` for an exception, nothing when cancelled, also when the call raises or loses its reply |
| WorkerLoop.Loop.Pass | backend/app/cli.py:340-357 | One turn of the claim loop, tasks of any stage ending during any claim, keeps every stage within its cap and says whether anything was claimed |
| WorkerLoop.QuietPass | backend/app/cli.py:347-354 | With nothing ending, each stage with a free place claims exactly its free places and runs what is returned; the others stay as they were |
| WorkerLoop.OnlyEndedLeave | backend/app/cli.py:351-354 | In a turn a task leaves only by ending, and a stage gains only what its own claim returns |
| WorkerLoop.CapsHold | backend/app/cli.py:322-357 | In every interleaving no stage has more unfinished tasks than its cap |
| WorkerLoop.RowsAreSettledOnce | backend/app/cli.py:394-409 | In every interleaving, whatever driver calls raise: exactly one of `complete` and `fail` for a run not cancelled, by how it ended, never a `fail` after a `complete` that raised, neither for a cancelled run |
| WorkerLoop.NothingOutlivesTheEngine | backend/app/cli.py:361-372 | When the engine is shut down every started task has ended |

## Left out

- DispatchConservation.AcceptedPairsKeepAJob: is for runs in which retention trims nothing; with trimming, `NoPairIsLost` and `NothingIsLostIff` apply.
- RateLimit.WindowIsBounded: does not cover failing Redis calls, which admit without a count; `RateLimiter.Consume` states what they do.
- Cache.HitsAreFresh: does not cover overlapping operations, where a slow computation can store a value older than an invalidation.
- Alerts.DeliveryTimeIsBounded: assumes that the per-send timeout ends every send in time.
- Versions.CheckpointSurvivesWhen: a falsy current value invalidates nothing, as in the code.
- WorkerLoop.RowsAreSettledOnce: a row claimed again after its lease is another claim; a claim awaited when the loop stops is left to its lease.
- WorkerLoop.NothingOutlivesTheEngine: does not model a second cancellation during the drain, nor the maintenance task.
- PRIORITY_RANK lookups of names inherited from `Object.prototype` (queue/src/server.ts).
- Dispatcher authentication, metrics, logging and the `/queues` and `/dlq` listings: plumbing.
- The failing `getJob` of a discard or replay is a missing reply; failures of the listings are not modelled.
- BullMQ's backoff delays and stalls, and the `reason` and `failed_at` fields of an entry.
- `_parse_rate`, the client key and the response headers of the rate limiter: single-branch rules.
- `cache_delete`, which no invalidation uses, and `reset_cache_breaker`, an operator's reset outside every run.
- The order of AlertDispatcher sends to several providers: each delivery is independent of the others.
- Clauses beyond the shorter list of a shared type: `zip` skips them, and no count claims them.
- Cost and latency figures and the rendering of difference rows in the comparison report.
- Reading revision identifiers out of migration files, and the `retrieval_versions` stamp.
- The stage runner, the workflow engine and PostgresQueueDriver are not part of this model; a stage run ends in any way, a claim returns any rows up to its limit.
- HTTP routes, Redis and Postgres clients, mail and chat payloads, settings, seed data, permissions, the frontend and the manual generator.
