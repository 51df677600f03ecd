# TrueStub: money, ownership and audit logic, proved

This project models the stateful core of the ticket-resale platform in Dafny and
proves properties of it over every input, every run and every interleaving.

* `OwnershipTransfer`, `OwnershipLaws`, `OwnershipService`: ownership transfers. Each call is a
  task that runs from one `await` to the next; a hand-written first-in-first-out
  mutex per transferId guards a read-check-write on the store. The step system
  is proved equivalent to serving the calls one at a time in call order, and the
  classes perform exactly its steps; the laws say what callers are told and what is
  stored in the words of the calls.
* `Refund`, `RefundLife`, `RefundHistory`, `RefundServiceModel`: refund claims around an external
  executor, with insert-first idempotency and a retention sweep, in the same
  step-system style. `Refund` counts executions in every run; `RefundLife` follows
  one refundId, its record and the replies about it while no sweep evicts it;
  `RefundHistory` says where records, executor calls and replies come from.
* `Webhooks`, `RateLimit`: two bounded, insertion-ordered maps with expiry, each
  refining a simple unbounded specification under a clock that does not go back.
* `Disputes`, `DisputeLaws`, `DisputeServiceModel`, `Changelog`, `ChangelogLaws`,
  `ChangelogServiceModel`: the
  dispute state machine, its audit log, its metrics, and the write-once changelog
  with its event stream.
* `Earnings`, `Analytics`, `Calendar`: aggregation into days, weeks, months and
  assets over the Gregorian calendar.
* `Notification`, `Retry`: delivery and retry loops with back-off.
* `Csv`, `ListingFraud`, `Text`: the CSV exporters with a reader for section 2 of
  RFC 4180, and listing fingerprints.
* `Paging`, `Keyed`, `Prelude`: pages, stable sorting, insertion-ordered maps and
  small datatypes shared by the others.

What the code does in place is a class whose methods are proved against functions
on values (`Step`, `Handle`, `Check`, `Apply`, `Summarize`, ...); the properties
are then lemmas about those functions over whole runs. Time is integer
milliseconds and money is an exact number; clock readings are parameters. Every
lemma carries `{:induction false}`: each induction is written out, and none relies
on Dafny's automatic induction.

Three places where the code and its comments or surroundings differ:

* A failed refund is described as retryable (`refund.service.ts:234-235,315-316`),
  but every later claim with the same refundId answers 409 and nothing is executed
  again. The model follows the code (`RefundLife.OnlyTheFirstClaimWins`,
  `RefundLife.SettledIsFinal`).
* `DISPUTE_EVENT_ENTRY_TYPES` (`dispute.service.ts:404`) is used without being
  imported; as written the resulting error is swallowed and no audit entry is
  stored. The model takes the table from `changelog-taxonomy.ts:90-94`, which
  declares it.
* A dead letter always reports five attempts (`notification.service.ts:191`), also
  after a permanent failure on the first (`Notification.PermanentFailureAtOnce`;
  `Notification.LetterAttempts` says exactly when the number is right).

Properties one might expect that are false, with what holds instead:

* "A refund is executed at most once." It is executed once for each payable claim
  that finds the refundId unrecorded (`Refund.ExecutionsAreAdmissions`), so at most
  once if and only if at most one claim does; a sweep makes room for another
  (`RefundLife.SweptClaimIsExecutedAgain`).
* "`alreadyClaimed` never changes the store." It does not while no sweep evicts the
  refundId (`RefundLife.RereadLeavesStore`); after an eviction it can write a stale
  failure over a stored payment (`RefundLife.StaleRewriteLosesPayment`).
* "There is one changelog entry per money movement." There is as long as callers
  append no money action under another id (`Changelog.OneEntryPerMovement`); one such
  append breaks it (`Changelog.MisnamedAppendIsDoubled`).
* "The CSV text reads back." It does if and only if every row has a cell
  (`Csv.ReadsBackIff`).
* "A fingerprint identifies a ticket." It does if and only if names and dates hold
  equally many separators (`ListingFraud.FingerprintIff`). The reason given for a
  section match, "different row or seat", is wrong if and only if the two listings
  agree on everything but the date (`ListingFraud.SectionWordingWrongIff`).
* "n attempts sleep base * (2^(n-1) - 1)." A fractional `maxAttempts` sleeps once more
  when every attempt fails (`Retry.Cost`).

## Model

| member | source | states |
|---|---|---|
| OwnershipService.Lock.Acquire | apps/backend/src/services/ownership-transfer.service.ts:113-123 | a free lock is taken at once; otherwise the caller is queued last |
| OwnershipService.Lock.Release | apps/backend/src/services/ownership-transfer.service.ts:125-132 | the oldest waiter is handed the lock, which stays locked; without waiters it becomes free |
| OwnershipService.InMemoryOwnershipStore.InsertIfAbsent | apps/backend/src/services/ownership-transfer.service.ts:81-92 | stores a record under a new id only; a taken id is a conflict naming the stored state |
| OwnershipService.OwnershipTransferService.GetLock | apps/backend/src/services/ownership-transfer.service.ts:142-147 | one lock per transferId, created on first use, others untouched |
| OwnershipService.OwnershipTransferService.Begin | apps/backend/src/services/ownership-transfer.service.ts:153-171 | the code up to the first await is the Arrive step: validation, then granted or queued |
| OwnershipService.OwnershipTransferService.Continue | apps/backend/src/services/ownership-transfer.service.ts:172-304 | the code between two awaits is the Resume step of the same call |
| OwnershipService.OwnershipTransferService.End | apps/backend/src/services/ownership-transfer.service.ts:216-218 | the finally block releases the lock and wakes the next waiter, whatever the reply |
| OwnershipTransfer.StepKeeps | apps/backend/src/services/ownership-transfer.service.ts:109-305 | every step of every call keeps the invariant linking locks, queues, tasks and store |
| OwnershipTransfer.Serializable | apps/backend/src/services/ownership-transfer.service.ts:153-305 | in every reachable state, store and answers are those of serving the calls that took effect one at a time in call order |
| OwnershipTransfer.SerialWhenQuiet | apps/backend/src/services/ownership-transfer.service.ts:153-305 | once all calls have returned, some clock readings make the serial run give every reply and the same store |
| OwnershipTransfer.OneWinner | apps/backend/src/services/ownership-transfer.service.ts:149-235 | under every interleaving one initiate wins once any has run, and at most one accept or cancel ever succeeds, one iff the record is finalised |
| OwnershipTransfer.FinalizedIsForever | apps/backend/src/services/ownership-transfer.service.ts:267-292 | a finalised record never changes again |
| OwnershipTransfer.LockDiscipline | apps/backend/src/services/ownership-transfer.service.ts:109-133 | at most one holder; a non-empty queue has a holder that can step; entry in arrival order |
| OwnershipTransfer.QueueStep | apps/backend/src/services/ownership-transfer.service.ts:125-132 | a release moves each waiter one place forward and nothing else does |
| OwnershipTransfer.WaiterEntersAfterItsTurn | apps/backend/src/services/ownership-transfer.service.ts:113-132 | the waiter at place p has entered exactly when there have been more than p releases |
| OwnershipTransfer.SchedulesEnd | apps/backend/src/services/ownership-transfer.service.ts:153-305 | without new calls every schedule ends, within four steps a call |
| OwnershipTransfer.NoDeadlock | apps/backend/src/services/ownership-transfer.service.ts:109-147 | while a call has not returned, some call can take a step |
| OwnershipLaws.CallsGetWhatTheyDeserve | apps/backend/src/services/ownership-transfer.service.ts:153-304 | under every interleaving each call is answered as the calls before it deserve: who opened, who closed, in which state, with its own fields, literally |
| OwnershipLaws.RecordsTellTheirHistory | apps/backend/src/services/ownership-transfer.service.ts:173-292 | a stored record has its opener's fields and time; ACCEPTED means an accept succeeded, CANCELLED a cancel, PENDING neither |
| OwnershipLaws.EveryReplyIsAboutItsCall | apps/backend/src/services/ownership-transfer.service.ts:225-235 | every returned initiate carries its own fields and PENDING, accept ACCEPTED, cancel CANCELLED, and every error names its own id and target |
| RefundServiceModel.InMemoryRefundStore.InsertIfAbsent | apps/backend/src/services/refund.service.ts:176-184 | true and stored for a new id, false and unchanged otherwise |
| RefundServiceModel.InMemoryRefundStore.CleanupBefore | apps/backend/src/services/refund.service.ts:186-195 | keeps exactly the records claimed at or after the cutoff and returns how many went |
| RefundServiceModel.RefundService.ClaimRefund | apps/backend/src/services/refund.service.ts:237-276 | the code up to the first await is the Begin step: validation errors in order, or the insert-first record |
| RefundServiceModel.RefundService.Continue | apps/backend/src/services/refund.service.ts:277-336 | a resumed claim goes to the executor, or re-reads, rewrites and answers 409 |
| RefundServiceModel.RefundService.Settle | apps/backend/src/services/refund.service.ts:288-311 | the executor's answer is stored as submitted with its hash, or as failed with its reason, and decides the reply |
| RefundServiceModel.RefundService.Cleanup | apps/backend/src/services/refund.service.ts:367-370 | sweeps the records older than the retention days |
| Refund.ExecutionsAreAdmissions | apps/backend/src/services/refund.service.ts:248-290 | under every interleaving with any sweeps, executions and pending hand-overs of an id are exactly the payable claims that found it unrecorded, so at most one iff at most one such claim |
| Refund.StoreBalance | apps/backend/src/services/refund.service.ts:161-195 | in every run a record appears by an admitted claim or a write-back and goes by an eviction, one for one |
| Refund.ExecutorCallsBounded | apps/backend/src/services/refund.service.ts:176-195 | the executor is called for an id at most once more than sweeps evicted it, and no more than that while it is unrecorded |
| RefundLife.ExecutedExactlyOnce | apps/backend/src/services/refund.service.ts:248-312 | in every run whose sweeps spare the id, a recorded refund was executed exactly once or its single winner is about to hand it over |
| Refund.OnlyPayableClaimsExecuted | apps/backend/src/services/refund.service.ts:338-349 | whatever reaches the executor passed the address, positive amount and milestone checks |
| RefundHistory.ExecutorGetsTheClaim | apps/backend/src/services/refund.service.ts:252-289 | in every run what is handed to the executor is that very claim's escrow, amount, currency, claimant, address, type (single-release if absent), milestone and time |
| RefundHistory.StoredRecordsAreClaims | apps/backend/src/services/refund.service.ts:252-296 | in every run a stored record is an admitted claim on its id with that claim's fields, and the status, hash or reason its executor answer calls for |
| RefundHistory.EveryClaimIsToldTheTruth | apps/backend/src/services/refund.service.ts:241-311 | in every run each returned claim got the reply its own executor answer calls for, or its own record, the first missing thing, or the 409 for its id |
| RefundHistory.AddressIff | apps/backend/src/services/refund.service.ts:213 | which texts are Stellar addresses, by code points |
| RefundHistory.SweepIsByAge | apps/backend/src/services/refund.service.ts:186-195 | a sweep evicts exactly the records claimed before its cutoff and touches no other |
| RefundLife.RecordLife | apps/backend/src/services/refund.service.ts:237-312 | in every run whose sweeps spare the id, its record moves only absent, pending, then submitted or failed by the answer for it; a hash is present iff submitted |
| RefundLife.SettledIsFinal | apps/backend/src/services/refund.service.ts:288-336 | until a sweep evicts it, a submitted or failed record stays as it is and is never executed again |
| RefundLife.RepliesMatchRecord | apps/backend/src/services/refund.service.ts:290-336 | until a sweep evicts the id, every reply about it agrees with the stored record: success, failure reason, or 409 with its claim time |
| RefundLife.OnlyTheFirstClaimWins | apps/backend/src/services/refund.service.ts:237-336 | until a sweep evicts the id, the first payable claim gets the outcome of the one execution and every later one the 409 with the stored claim time |
| RefundLife.RereadLeavesStore | apps/backend/src/services/refund.service.ts:319-325 | in every run whose sweeps spare the id, each step of alreadyClaimed on it leaves the whole store alone |
| RefundLife.StaleRewriteLosesPayment | apps/backend/src/services/refund.service.ts:319-325 | for every payable claim, a run with one sweep in which the rewrite puts a failed record over a stored payment |
| RefundLife.SweptClaimIsExecutedAgain | apps/backend/src/services/refund.service.ts:186-195 | for every payable claim, a run with one eviction and two executions |
| Webhooks.ProcessedEvents.Prune | apps/backend/src/routes/webhooks.ts:74-86 | the two deletion loops leave the unexpired entries, the last 10000 of them, in order |
| Webhooks.ProcessedEvents.Receive | apps/backend/src/routes/webhooks.ts:232-315 | prune, duplicate check, update, mark and notify, with the failed update leaving the event unmarked |
| Webhooks.PrunedCacheIsLiveHistory | apps/backend/src/routes/webhooks.ts:69-86 | the pruned cache is the suffix of all recorded events that is within the TTL and the last 10000 |
| Webhooks.DuplicateIff | apps/backend/src/routes/webhooks.ts:230-246 | a delivery is ignored iff its event is live in the unbounded history |
| Webhooks.AnswerIff | apps/backend/src/routes/webhooks.ts:232-301 | against everything ever recorded: duplicate iff known within 24 hours and the last 10000; otherwise notified iff the update works, failed iff not; only a notified event is recorded |
| Webhooks.RedeliveryIsIgnoredIffNotified | apps/backend/src/routes/webhooks.ts:264-278 | delivered again at once, a notified event is a duplicate and one whose update failed is not |
| Webhooks.NotificationsApart | apps/backend/src/routes/webhooks.ts:232-301 | two notifications of one event are more than 24 hours apart or have at least 10000 other recorded events between them |
| Webhooks.CacheBounded | apps/backend/src/routes/webhooks.ts:64-70 | never more than 10001 entries, never one id twice |
| RateLimit.RateLimiter.PruneHits | apps/frontend/src/lib/rate-limit.ts:48-61 | expired entries go, then the oldest until one place is free |
| RateLimit.RateLimiter.CheckRateLimit | apps/frontend/src/lib/rate-limit.ts:63-84 | table and verdict after one request, including the window restart and the prune when full |
| RateLimit.TableBounded | apps/frontend/src/lib/rate-limit.ts:31-74 | in any run the map stays a map and holds at most 10000 keys |
| RateLimit.SameVerdicts | apps/frontend/src/lib/rate-limit.ts:48-84 | a key the over-capacity loop never deletes gets the verdicts of an unbounded limiter; dropping expired entries changes none |
| RateLimit.SameRun | apps/frontend/src/lib/rate-limit.ts:48-84 | where that loop deletes nothing, the whole run has the unbounded verdicts |
| RateLimit.BurstBound | apps/frontend/src/lib/rate-limit.ts:63-84 | any interval of one window's length lets at most 2 * limit - 1 requests through, each window exactly its first limit |
| RateLimit.BurstBoundReached | apps/frontend/src/lib/rate-limit.ts:63-84 | for every limit from 1 and window from 2 ms, a run that lets 2 * limit - 1 requests through in one window's length |
| RateLimit.RetryAfterHonoured | apps/frontend/src/lib/rate-limit.ts:76-83 | a caller that waits retryAfter seconds is let through, whatever others do meanwhile |
| RateLimit.RetryAfterIsTight | apps/frontend/src/lib/rate-limit.ts:76-82 | retryAfter is the least whole number of seconds, at least one, after which the window is over |
| RateLimit.DeniedUntilReset | apps/frontend/src/lib/rate-limit.ts:68-83 | a denied caller back before its window is over is denied again, unless its key was evicted |
| RateLimit.RemainingIsExact | apps/frontend/src/lib/rate-limit.ts:76-82 | of further requests at the same instant exactly the first `remaining` are let through |
| RateLimit.WindowIs | apps/frontend/src/lib/rate-limit.ts:68-76 | an open window is kept and counted up, otherwise a new one of full length opens; nobody else is touched while there is room, and a known key keeps its place |
| RateLimit.OnlyTheOldestIsEvicted | apps/frontend/src/lib/rate-limit.ts:48-61 | a new key at a full table costs the oldest its place if all windows are open, and no open window otherwise |
| DisputeServiceModel.DisputeService.OpenDispute | apps/backend/src/services/dispute.service.ts:271-319 | the new dispute or the first error; nothing else changes |
| DisputeServiceModel.DisputeService.Transition | apps/backend/src/services/dispute.service.ts:333-423 | the moved dispute with its timestamps and one audit entry, or the error of the first failing guard |
| DisputeServiceModel.DisputeService.GetMetrics | apps/backend/src/services/dispute.service.ts:480-525 | the counting loop computes the metrics of the disputes in range |
| DisputeServiceModel.DisputeService.ListDisputesByUserPaginated | apps/backend/src/services/dispute.service.ts:440-464 | at most 50 of the user's own stored disputes, newest first, with the total and an exact hasMore, whatever limit and offset are asked for |
| Disputes.TrailReplaysToState | apps/backend/src/services/dispute.service.ts:192-219 | for every run, replaying a dispute's audit entries from OPEN gives its stored state, in at most two entries |
| Disputes.TrailChains | apps/backend/src/services/dispute.service.ts:405-417 | each audit entry starts in the state the one before ended in |
| Disputes.EveryTransitionIsAudited | apps/backend/src/services/dispute.service.ts:385-423 | a successful transition appends exactly one entry that replays it; none is rejected as a duplicate |
| DisputeLaws.TransitionsFollowTheRules | apps/backend/src/services/dispute.service.ts:192-219 | in every reachable store a transition succeeds iff the dispute is open, or escalated and not to be escalated; escalate, resolve and withdraw leave their own states, times and resolution and nothing else; each failure names its reason |
| DisputeLaws.OpeningIs | apps/backend/src/services/dispute.service.ts:277-307 | what opening stores and answers in any sound store, or its first error, with nothing else changed |
| DisputeLaws.AuditsSayWhatHappened | apps/backend/src/services/dispute.service.ts:403-417 | the audit entry of a transition in literal text: action, ids, actor, time, from and to states, request and resolution |
| DisputeLaws.DisputesAreTheirHistory | apps/backend/src/services/dispute.service.ts:271-385 | after any calls every field, state and time of a stored dispute was left by a successful call on it |
| Disputes.AuditIdsDiffer | apps/backend/src/services/dispute.service.ts:404-406 | equal audit ids mean the same event and dispute, whatever the dispute id contains |
| Disputes.TimestampsMatchState | apps/backend/src/services/dispute.service.ts:368-383 | in every reachable store timestamps are in order and present exactly as the state says |
| Disputes.OverdueIff | apps/backend/src/services/dispute.service.ts:134-154 | overdue iff escalated for the full SLA; critical iff for twice the SLA |
| Disputes.MetricsAreConsistent | apps/backend/src/services/dispute.service.ts:480-525 | total = sum of states = active + closed; overdue <= escalated <= ever escalated <= total; one duration per closed dispute; rates in 0..1 |
| Disputes.RangesAddUp | apps/backend/src/services/dispute.service.ts:482-525 | the counters of a range are the sums over two adjacent parts of it |
| DisputeLaws.MetricsCount | apps/backend/src/services/dispute.service.ts:484-516 | each counter is the number of disputes opened within the range that meet its test, overdue meaning thirty days in ESCALATED |
| DisputeLaws.MetricsAverage | apps/backend/src/services/dispute.service.ts:500-512 | the average is that from opening to closing over the closed disputes of the range, to a tenth of an hour |
| DisputeLaws.RatesAreShares | apps/backend/src/services/dispute.service.ts:513-525 | the rates are the shares of the total, 0 without disputes |
| Disputes.HistoryPagesCover | apps/backend/src/services/dispute.service.ts:440-464 | following the pages shows all the user's disputes, newest first, ties in stored order |
| Disputes.HistoryPageAt | apps/backend/src/services/dispute.service.ts:449-464 | every page followed is what is answered at its own offset |
| Disputes.HistoryLimitIs | apps/backend/src/services/dispute.service.ts:449-452 | ten to a page unless a number is asked for, fifty at most |
| ChangelogServiceModel.ChangelogService.AppendEntry | apps/backend/src/services/changelog.service.ts:249-295 | one new entry and its event, or the error with nothing changed |
| ChangelogServiceModel.ChangelogService.RecordMoneyMovement | apps/backend/src/services/changelog.service.ts:306-333 | the existing entry, or a new one under action:resource |
| ChangelogServiceModel.ChangelogService.RemoveEntry | apps/backend/src/services/changelog.service.ts:359-377 | the entry goes and its removal is emitted, or the error |
| ChangelogServiceModel.ChangelogService.ListEntriesPaginated | apps/backend/src/services/changelog.service.ts:415-434 | one page of the resource's chronological list |
| Changelog.EventsRetellTheStore | apps/backend/src/services/changelog.service.ts:279-377 | folding the emitted events from nothing gives the store, in the stored order |
| Changelog.WriteOnce | apps/backend/src/services/changelog.service.ts:249-345 | a present entry stays as written until a call removes it |
| Changelog.FirstRecordWins | apps/backend/src/services/changelog.service.ts:306-333 | later records of one action and resource return the first entry and write nothing |
| ChangelogLaws.AppendIs | apps/backend/src/services/changelog.service.ts:249-295 | exactly when an append is refused and why, and otherwise the entry it asked for, stored last and announced once |
| ChangelogLaws.RecordIs | apps/backend/src/services/changelog.service.ts:306-331 | the first entry if there is one, otherwise one with the given actor, resource, metadata and request under action:resource |
| ChangelogLaws.RemoveIs | apps/backend/src/services/changelog.service.ts:359-377 | exactly when a removal is refused, and otherwise that entry gone, announced, and no other touched |
| ChangelogLaws.EntriesComeFromCalls | apps/backend/src/services/changelog.service.ts:279-290 | after any calls every stored entry says what the call that wrote it asked for, at the time of that call |
| Changelog.MovementIdsDiffer | apps/backend/src/services/changelog.service.ts:315 | two movements share an id iff action and resource agree |
| Changelog.OneEntryPerMovement | apps/backend/src/services/changelog.service.ts:249-377 | in every run of appends, records, updates and removals, at most one entry per money action and resource, as long as no caller appends a money action under another id |
| Changelog.MisnamedAppendIsDoubled | apps/backend/src/services/changelog.service.ts:249-331 | from an empty changelog, every accepted append of a money action under another id is doubled by the record that follows |
| Changelog.ResourceListIsAppendOrder | apps/backend/src/services/changelog.service.ts:209-218 | under a clock that does not go back, a resource's list is its entries in append order |
| Changelog.BrowsingShowsAppendOrder | apps/backend/src/services/changelog.service.ts:415-453 | following the pages shows every entry once, in append order |
| Changelog.ListLimitIs | apps/backend/src/services/changelog.service.ts:436-453 | fifty to a page unless a number is asked for, two hundred at most |
| Paging.FollowingPagesShowsAll | apps/backend/src/services/changelog.service.ts:436-453 | whatever limit is asked for, the pages from 0 end and concatenate to the list, in the least number of pages |
| Paging.SortIsStable | apps/backend/src/services/changelog.service.ts:209-218 | the sort is ascending and keeps equal keys in their order; nothing is lost or added |
| Paging.LimitIs | apps/backend/src/services/changelog.service.ts:436-445 | a positive number is kept, rounded down and capped; anything else gives the standard limit |
| Paging.OffsetIs | apps/backend/src/services/changelog.service.ts:447-453 | a number not below 0 is kept, rounded down; anything else gives 0 |
| Earnings.SummarizeEarnings | apps/frontend/src/lib/earnings.ts:57-95 | the loop over two maps and the sort compute the summary |
| Earnings.SummaryIs | apps/frontend/src/lib/earnings.ts:65-93 | totals and counts are those of the escrows that count, and the bucket of every period holds exactly the escrows released in it, pending ones without a release counting now |
| Earnings.CountsIff | apps/frontend/src/lib/earnings.ts:30-43 | which statuses count as confirmed and which as pending, whatever their case |
| Earnings.BucketizeTallies | apps/frontend/src/lib/earnings.ts:65-93 | buckets ascend, one for each start that occurs, holding exactly what falls in it |
| Earnings.CoarseIsRebucketedDays | apps/frontend/src/lib/earnings.ts:45-95 | summarising by week or month is re-bucketing the day summary |
| Earnings.OrderDoesNotMatter | apps/frontend/src/lib/earnings.ts:57-95 | permuted escrows have the same summary |
| Earnings.SummaryAddsUp | apps/frontend/src/lib/earnings.ts:65-94 | bucket totals and counts add up to the overall figures; no escrow counts twice |
| Earnings.KeysAscend | apps/frontend/src/lib/earnings.ts:90-93 | the keys are strictly ascending as text |
| Earnings.BucketStarts | apps/frontend/src/lib/earnings.ts:45-50 | a week starts on the Monday at most six days earlier, a month on its first |
| Calendar.MonthStartIsFirst | apps/frontend/src/lib/earnings.ts:47 | setting the day to 1 stays in the month and is idempotent |
| Calendar.WeekStartIsMonday | apps/frontend/src/lib/earnings.ts:48 | going back (weekday + 6) mod 7 days reaches a Monday |
| Calendar.DayKeysOrdered | apps/frontend/src/lib/earnings.ts:49 | ISO day texts sort the way the days follow one another |
| Calendar.DateOfIsGregorian | apps/frontend/src/lib/earnings.ts:45-49 | the date of a day has that day's number by the Gregorian leap-year rules |
| Calendar.InstantsStartIn1970 | apps/frontend/src/lib/earnings.ts:46 | instant 0 is 1970-01-01, a Thursday, and every day has 86400000 milliseconds |
| Calendar.DayKeyReads | apps/frontend/src/lib/earnings.ts:49 | a day's text reads back as its year, month and day |
| Calendar.TimeTextReads | apps/backend/src/services/dispute.service.ts:368 | the time in an ISO text reads back as the time of day |
| Calendar.IsoReads | apps/backend/src/services/dispute.service.ts:368 | the ISO text of an instant is its day's text and its time of day |
| Analytics.FetchEscrows | apps/backend/src/routes/analytics.ts:43-77 | the paging loop returns the whole result set in order, in n / 500 + 1 requests |
| Analytics.CountRows | apps/backend/src/routes/analytics.ts:147-191 | the row loop fills day buckets, assets and durations from exactly the rows that have a bucket |
| Analytics.Answer | apps/backend/src/routes/analytics.ts:113-227 | 400 for an invalid range, 502 when a query fails, otherwise the report |
| Analytics.BuildReport | apps/backend/src/routes/analytics.ts:130-224 | the bucket, row and chart loops compute the report |
| Analytics.DayIs | apps/backend/src/routes/analytics.ts:161-191 | a day bucket holds the figures of the rows created on that day |
| Analytics.TotalIs | apps/backend/src/routes/analytics.ts:171-190 | volume, created, completed, disputed and release-time figures of any rows, by definition |
| Analytics.StatusCounts | apps/backend/src/routes/analytics.ts:39 | which statuses count as completed and which as disputed, whatever their case |
| Analytics.DollarsIff | apps/backend/src/routes/analytics.ts:84-88 | only USD and USDC rows add to the volume, by their amount |
| Analytics.CurrencyIff | apps/backend/src/routes/analytics.ts:79-82 | trimmed currencies that agree but for case are one asset; none is UNKNOWN |
| Analytics.ReleaseHoursIff | apps/backend/src/routes/analytics.ts:95-103 | when a release time counts and for how many hours |
| Analytics.ActiveIs | apps/backend/src/routes/analytics.ts:213-221 | how many escrows are active and the dollars locked in them |
| Analytics.AssetsAre | apps/backend/src/routes/analytics.ts:152-179 | the breakdown has, for each currency that occurs and no other, the sums over its own rows |
| Analytics.AssetsDistinct | apps/backend/src/routes/analytics.ts:150-159 | one entry per currency |
| Analytics.DaysConserve | apps/backend/src/routes/analytics.ts:134-191 | the days of the range add up to all rows inside it |
| Analytics.ReportAddsUp | apps/backend/src/routes/analytics.ts:161-224 | days and assets each sum to the totals; completed + disputed <= created every day |
| Analytics.OverallAverageIsWeightedMean | apps/backend/src/routes/analytics.ts:193-220 | the overall release average is the mean of the daily averages weighted by their releases |
| Analytics.RatesArePercentages | apps/backend/src/routes/analytics.ts:193-217 | dispute and completion rates lie in 0..100, completion at 100 exactly when all is completed |
| Notification.NotificationService.DispatchWithRetry | apps/backend/src/services/notification.service.ts:69-107 | the attempt loop has exactly the effects of Dispatch, in at most five deliveries, within the back-off time |
| Notification.NotificationService.HandleDeliveryFailure | apps/backend/src/services/notification.service.ts:178-206 | a dead letter if it can be stored, and an alert in any case |
| Notification.NotificationService.SendNotification | apps/backend/src/services/notification.service.ts:42-60 | skip known events, record, then dispatch; a failing repository changes nothing |
| Notification.SendIff | apps/backend/src/services/notification.service.ts:42-60 | after any sends, skipped iff the event was accepted before, accepted iff not and the repository works, refused otherwise; only an accepted one changes anything |
| Notification.FinalIff | apps/backend/src/services/notification.service.ts:119-162 | exactly the errors carrying a status from 400 to 499 are final |
| Notification.GiveUpSays | apps/backend/src/services/notification.service.ts:178-205 | the letter and the alert are about this notification and failure, flagged financial for the three escrow kinds |
| Notification.DispatchIs | apps/backend/src/services/notification.service.ts:69-107 | attempts go on exactly to the first that works or fails for good, or the fifth, whose answer decides the outcome |
| Notification.SomeDeliveryDecides | apps/backend/src/services/notification.service.ts:69-107 | whatever the provider answers, one of the five deliveries decides |
| Notification.OneOutcomePerRecord | apps/backend/src/services/notification.service.ts:42-107 | over any sends each recorded notification is delivered or alerted about, never both or neither, after at most five attempts |
| Notification.OncePerEvent | apps/backend/src/services/notification.service.ts:33-51 | an event id is recorded at most once and has at most one outcome and five attempts in all |
| Notification.LetterAttempts | apps/backend/src/services/notification.service.ts:187-193 | the attempts a dead letter reports are those made iff the first four deliveries failed transiently |
| Notification.PermanentFailureAtOnce | apps/backend/src/services/notification.service.ts:80-106 | a permanent first failure makes one delivery and a letter that says five |
| Notification.DelayBounds | apps/backend/src/services/notification.service.ts:164-168 | each delay lies between its doubling step and one base delay more; the cap is never reached |
| Retry.RetryWithBackoff | apps/frontend/src/lib/retry.ts:100-143 | outcome, calls, notices and total sleep of the loop for any sequence of attempts |
| Retry.RunIsDetermined | apps/frontend/src/lib/retry.ts:100-143 | that description admits one result only |
| Retry.FirstDecisionWins | apps/frontend/src/lib/retry.ts:114-142 | the first success or definitive error within the limit is the outcome, otherwise the last error |
| Retry.Cost | apps/frontend/src/lib/retry.ts:125-138 | n calls sleep base * (2^(n-1) - 1); a fractional limit waits once more when all fail |
| Retry.DefinitiveIff | apps/frontend/src/lib/retry.ts:26-77 | exactly which errors are not retried, by literal status and phrase; the transient phrases never decide |
| Csv.ReadsBackIff | apps/frontend/src/lib/exportToCSV.ts:16-21 | the reader recovers header and rows for all cell contents iff each has a cell |
| Csv.ContentInjective | apps/frontend/src/lib/exportToCSV.ts:16-21 | different tables have different texts |
| Csv.TransactionsReadBack | apps/frontend/src/lib/exportToCSV.ts:32-55 | an exported transaction list reads back as the six headings and each transaction's six columns in order |
| Csv.TransactionsRecovered | apps/frontend/src/lib/exportToCSV.ts:45-52 | two lists have one text iff every field agrees, amounts in sign and rounded to hundredths |
| Csv.Fixed2Iff | apps/frontend/src/lib/exportToCSV.ts:50 | two amounts print alike iff they have one sign and round to the same hundredth |
| Csv.Fixed2IsNearest | apps/frontend/src/lib/exportToCSV.ts:50 | a printed amount is its sign and the nearest number of hundredths, the larger of two |
| Csv.WalletsReadBack | apps/frontend/src/lib/exportToCSV.ts:57-70 | an exported wallet list reads back as the three headings and each wallet's columns |
| Csv.WalletsRecovered | apps/frontend/src/lib/exportToCSV.ts:57-70 | the exported text determines the wallets |
| ListingFraud.NormalizeIdempotent | apps/backend/src/services/listing-fraud.service.ts:29-38 | both normalisations are idempotent |
| ListingFraud.NormalizeIs | apps/backend/src/services/listing-fraud.service.ts:29-34 | the result is trimmed, lower case and single-spaced |
| ListingFraud.NormalizeKeepsWords | apps/backend/src/services/listing-fraud.service.ts:29-34 | normalising keeps the words of a text, lower-cased and in order |
| ListingFraud.SeatIs | apps/backend/src/services/listing-fraud.service.ts:36-38 | a seat is the letters, digits and hyphens of the lower-case text |
| ListingFraud.ActiveIff | apps/backend/src/services/listing-fraud.service.ts:53-55 | which statuses are active |
| ListingFraud.FingerprintReads | apps/backend/src/services/listing-fraud.service.ts:40-51 | without separators in them, the six normalised fields are read back from the fingerprint in order |
| ListingFraud.NormalizedIsSame | apps/backend/src/services/listing-fraud.service.ts:40-55 | normalising the fields first changes neither fingerprint nor activity |
| ListingFraud.FingerprintIff | apps/backend/src/services/listing-fraud.service.ts:40-51 | all six fields agree iff the fingerprints do and names and dates hold equally many separators |
| ListingFraud.FingerprintsCollide | apps/backend/src/services/listing-fraud.service.ts:40-51 | tickets that differ and share a fingerprint |
| ListingFraud.DuplicateIff | apps/backend/src/services/listing-fraud.service.ts:73-98 | duplicate iff another active listing has the fingerprint; the same ticket is never missed |
| ListingFraud.TiersPartition | apps/backend/src/services/listing-fraud.service.ts:69-159 | the tier is the closest resemblance among other active listings, the matches exactly those listings |
| ListingFraud.LevelIff | apps/backend/src/services/listing-fraud.service.ts:69-159 | high iff another active listing has the fingerprint, medium iff none has but one shares event, seller and named section, a warning iff one shares at least event and seller |
| ListingFraud.MatchesSay | apps/backend/src/services/listing-fraud.service.ts:79-149 | every match is about another active listing, with the confidence and reason of its level |
| ListingFraud.MoreListingsMoreRisk | apps/backend/src/services/listing-fraud.service.ts:69-159 | more listings never lower the risk; order and repetition do not matter |
| ListingFraud.AssessNormalized | apps/backend/src/services/listing-fraud.service.ts:69-159 | the answer depends only on the candidate's normalised fields |
| ListingFraud.SectionMatchDiffers | apps/backend/src/services/listing-fraud.service.ts:100-115 | a section match differs in date, row or seat |
| ListingFraud.SectionWordingWrongIff | apps/backend/src/services/listing-fraud.service.ts:100-115 | a section match has the same row and seat iff the listings agree on everything but the date |
| ListingFraud.OnlyTheDateDiffers | apps/backend/src/services/listing-fraud.service.ts:110-115 | a listing differing only in date is a section match, though its reason says row or seat |

## Left out

- HTTP routing, signature checks, hashing, Sentry, logging, GraphQL, Stellar signing and the Trustless Work client: foreign calls. The refund executor, the notification repository and the escrow query are arbitrary answers; event ids are opaque.
- Failures of the in-memory stores and of the transfer, refund, dispute and changelog repositories: the in-memory stores cannot fail.
- Interleaved webhook, dispute, changelog and notification calls: each call is one atomic step. Only transfers and refunds are modelled step by step.
- Changelog entries written by others than the dispute service are not part of the dispute runs; the claim that no audit entry is a duplicate is about a changelog that only disputes write.
- Individual changelog listeners: the emitted sequence is what a listener registered from the start receives.
- getTransfer, getClaimStatus, getDispute, listDisputesByEscrow, listDisputesByState, checkEscalatedSla's list and the store fallback without listAll: reads that add only easy members.
- Disputes: instants before 1970 and ISO years beyond 9999.
- Earnings.KeysAscend: not for dates before year 0 or years beyond 9999, whose ISO texts have another format.
- Earnings.SummarizeEarnings: one clock reading for all pending escrows of a summary, where the original reads the clock for each; and a releasedAt that is no date, which makes the original throw. Release times are instants here, an empty one is absent.
- Earnings.CoarseIsRebucketedDays: buckets are days, not their texts; two years beyond 9999 share a text key in the original.
- Analytics.BuildReport: the asset list is in order of first appearance; its order by localeCompare is left out. The rates and averages are functions of the report.
- Floating-point rounding throughout: numbers are exact.
- Csv.TransactionsRecovered: amounts of 10^21 and more, which toFixed prints with an exponent, and amounts that are no number.
- Unicode case folding: upper and lower case are those of ASCII letters. White space is JavaScript's.
- Retry: an onRetry callback that throws, and an infinite or not-a-number maxAttempts.
- Notification.NotificationService.DispatchWithRetry: log lines and the captured Sentry context; what happened outside is the recorded effects.
- The CSV download through the browser.
- Routing rules, client addresses and resetRateLimits of the rate limiter.
