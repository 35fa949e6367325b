# Hover's job pipeline in Dafny

A model of the parts of Hover that must not lose, repeat or miscount work, with proofs. Redis is an abstract store of
sorted sets, streams with pending lists, hashes, pacing configurations and expiring gates; every Redis command, MULTI/EXEC
block and Lua script is one atomic step on it. Faults, clocks and the moves of other processes are parameters: a command
can fail before it acts, or act and lose its reply.

| file | content |
|---|---|
| `Text.dfy` | numerals with their widths and rounding, the separator-delimited text format |
| `Schedule.dfy` | Redis key names; the codec of sorted-set members |
| `Redis.dfy` | the abstract store and its commands |
| `Messages.dfy` | stream messages as written and as read by the two consumers |
| `Scheduler.dfy`, `Dispatcher.dfy`, `Consumer.dfy`, `Outbox.dfy`, `Pacer.dfy`, `Counters.dfy` | the broker's components |
| `Pipeline.dfy` | all of them together as a state machine: no task is ever lost |
| `Dispatchers.dfy` | the same machine with several dispatchers told apart: when a member is sent more than once |
| `Audit.dfy` | lighthouse audits: guarded row updates, the consumer, and their protocol with rivals and crashes |
| `TaskTable.dfy`, `DailyUsage.dfy`, `BatchWriter.dfy` | grouped task updates, organisation usage, the batch manager |
| `Robots.dfy` | robots.txt patterns against RFC 9309 |
| `LogAggregation.dfy` | incremental log aggregation against a full rebuild |
| `Teardown.dfy` | removing the keys of finished jobs |

Classes carry the fields their originals update; each method is proved equal to, or within, a pure specification, and the
theorems are about those specifications over whole runs.

Where comments and code disagree the code is followed:

- `internal/broker/consumer.go` logs that messages without a delivery count are treated as reclaimable; they are skipped.
- `scripts/aggregate_logs.py` warns at its head that rewritten files are added on top; a rewritten known file forces a
  rebuild instead.
- `internal/crawler/robots.go` cites RFC 9309 for the precedence of Allow; any Allow wins there, however short
  (`Robots.LongestMatchIff` says exactly where that departs from the standard).

Conventions: a stream is never trimmed, so its k-th entry has id k and id 0 is the end-of-scan cursor; a Redis key with a
deadline lives up to and including it; priorities are non-negative reals with the rounding of `%.4f` written out; page ids,
retry counts and run ids are signed 64-bit; job ids are free of `:` where keys of different jobs must differ.

## Model

| member | source | states |
|---|---|---|
| `Schedule.ParseAfterPrint` | internal/broker/scheduler.go:32-99 | for separator-free text, parsing a printed member gives the entry back, its priority rounded to four decimals and its score as run time |
| `Schedule.PrintAfterParse` | internal/broker/scheduler.go:32-99 | re-printing a parsed member gives the very member stored if and only if that member is canonical: eleven fields, canonical numerals, a task type |
| `Schedule.PrintParsePrint` | internal/broker/scheduler.go:24-99 | every member the program prints survives parse and print unchanged, so the ZREM and ZADD XX of an entry name the stored member |
| `Schedule.MemberInjective` | internal/broker/keys.go:32-42 | two entries print alike if and only if they agree on everything a sorted set stores |
| `Schedule.LegacyReprintsDifferently` | internal/broker/scheduler.go:51-99 | a nine-field member never re-prints as itself |
| `Schedule.ReadableIffPipeFree` | internal/broker/scheduler.go:51-99 | a stored member can be read back at all if and only if none of its text fields holds a separator |
| `Schedule.ParsedIsPipeFree` | internal/broker/scheduler.go:51-99 | whatever the parser accepts has no separator in a text field and a task type |
| `Text.Fixed4Writes` | internal/broker/keys.go:39-42 | a decimal numeral re-prints with four decimals as itself if and only if it is canonical |
| `Text.IntStrWrites` | internal/broker/scheduler.go:57-91 | a signed 64-bit numeral re-prints as itself if and only if it is canonical |
| `Text.JoinUnique` | internal/broker/keys.go:39-42 | no list of separator-free pieces joins to a member with fewer pieces than its fields, and with as many pieces they are the fields |
| `Messages.MessageRoundTrip` | internal/broker/consumer.go:404-441 | a published entry is read back by the crawl consumer exactly when task, job, host and path are non-empty, and then field for field |
| `Messages.AuditMessageRoundTrip` | cmd/analysis/main.go:606-616 | a published lighthouse entry is read back with its run id exactly when that is positive |
| `Keys.StreamsApart` | internal/broker/keys.go:10-30 | no crawl stream of a job whose id is free of colons is a lighthouse stream |
| `Scheduler.RangeExists` | internal/broker/scheduler.go:220-232 | an ordered, limited due range as Redis promises it exists for every sorted set |
| `Scheduler.RangeDistinct` | internal/broker/scheduler.go:220-232 | and holds no member twice |
| `Scheduler.Scheduler.ScheduleBatch` | internal/broker/scheduler.go:152-187 | the store holds exactly the entries whose ZADD was applied; a partial error names exactly the others; a broken pipeline says nothing |
| `Scheduler.BatchAdds` | internal/broker/scheduler.go:152-187 | every sorted set afterwards: a member is there if and only if it was there or a command for it was applied, with the run time of the last such command or else its old score |
| `Scheduler.Scheduler.ScheduleAndAck` | internal/broker/scheduler.go:196-214 | retry entry and acknowledgement happen together or not at all |
| `Scheduler.Scheduler.DueItems` | internal/broker/scheduler.go:220-258 | the entries are exactly the readable members of the reply; of all members exactly the unreadable ones of the reply leave the sorted set |
| `Scheduler.ParsedInOrder` | internal/broker/scheduler.go:233-258 | and they come in the order of the reply |
| `Scheduler.Scheduler.RescheduleZSet` | internal/broker/scheduler.go:286-295 | moves a member that is there and never adds one |
| `Dispatcher.Dispatcher.PublishAndRemove` | internal/broker/dispatcher.go:337-393 | XADD and ZREM of the printed member in one step, or nothing; entries without a route are refused |
| `Dispatcher.Dispatcher.HandleEntry` | internal/broker/dispatcher.go:232-275 | one due entry, under every Redis fault: sent if and only if the pacer answers, its host's gate does not refuse it, its task type routes and the transaction takes effect; paced by the gate's remaining time or the floor if and only if the gate refuses it and the push-back works; otherwise kept |
| `Dispatcher.Dispatcher.DispatchJob` | internal/broker/dispatcher.go:199-280 | the fate of every due entry from the gates and the world's answers alone, with each host's in-flight count and the running counter risen by what was published and counted and no other hash field moved; exact whenever the members are canonical and of this job |
| `Dispatcher.PassFates` | internal/broker/dispatcher.go:199-280 | entry by entry: unreached if and only if capacity was missing at or before it, and else what its host's gate, set anew by each earlier attempt it let through, and the replies make of it |
| `Dispatcher.PassHashes` | internal/broker/dispatcher.go:262-268 | every hash field after a pass |
| `Dispatcher.PassIsExact` | internal/broker/dispatcher.go:199-280 | with one dispatcher and canonical members a pass appends to each stream exactly the sent members in due order and removes exactly those, moves paced ones strictly after now, leaves all other members and keys alone, and raises the job's counts by those published; which are sent and which paced follows from the gates and the replies |
| `Dispatcher.FatesPointwise` | internal/broker/dispatcher.go:199-280 | member by member, what a pass does to the sorted set |
| `Dispatcher.PublishMovesIff` | internal/broker/dispatcher.go:363-393 | a publish changes the sorted set if and only if the printed member is still in it |
| `Dispatcher.PublishRemovesIffCanonical` | internal/broker/dispatcher.go:363-393 | publishing an entry removes the member it was parsed from if and only if that member is canonical |
| `Dispatcher.LegacyIsSentAgain` | internal/broker/dispatcher.go:337-393 | sending the entry of a nine-field member appends a copy to its stream and leaves the member with its score, so that reading it again gives the same entry |
| `Dispatchers.OncePerAddIff` | internal/broker/dispatcher.go:199-280 | over every run with any number of dispatchers, each ZADD of a member is followed by at most one send if and only if no dispatcher sends it that had read it before another sent it |
| `Dispatchers.ReadsApartSendOnce` | internal/broker/dispatcher.go:199-280 | if no dispatcher reads the member between another's read of it and its send, each ZADD is followed by at most one send |
| `Dispatchers.SecondReadCanSendTwice` | internal/broker/dispatcher.go:199-280 | conversely every run in which a dispatcher holds a scheduled member has a continuation, in which another reads it and both send it, with two sends for one ZADD |
| `Dispatchers.TwoDispatchersSendTwice` | internal/broker/dispatcher.go:363-393 | such a run, from the empty state, for every row that can be routed |
| `Dispatchers.SendsAreCopies` | internal/broker/dispatcher.go:363-393 | in every run a send appends exactly one copy of the entry to its stream and nothing else ever appends to a stream |
| `Dispatcher.Dispatcher.MaybeTriggerReconcile` | internal/broker/dispatcher.go:286-323 | the stuck clock and the trigger log after one refusal, other jobs untouched |
| `Dispatcher.Dispatcher.ClearStuck` | internal/broker/dispatcher.go:325-331 | forgets since when the job is stuck and nothing else |
| `SelfHeal.TriggerCondition` | internal/broker/dispatcher.go:286-331 | over any run, a stuck call triggers if and only if the job has been stuck without interruption for the threshold and the last trigger lies twice the threshold back |
| `SelfHeal.TriggersApart` | internal/broker/dispatcher.go:286-331 | triggers of a job are at least twice the threshold apart, whatever cleared it in between |
| `SelfHeal.TriggerFollowsPeriod` | internal/broker/dispatcher.go:286-331 | each trigger follows an uninterrupted stuck period of at least the threshold |
| `Pacer.RateBound` | internal/broker/pacer_lua.go:46-75 | while the delay is at least B > 0, successes are more than B apart and a window of length W holds at most 1 + W/B of them |
| `Pacer.SucceedsIff` | internal/broker/pacer_lua.go:46-75 | under a constant positive delay an attempt of a chronological run succeeds if and only if no earlier success, nor the gate there at first, lies within the delay |
| `Pacer.NoDelayNoSpacing` | internal/broker/pacer_lua.go:53-63 | while no configured delay is positive every attempt of every run succeeds, whatever gate was left |
| `Pacer.SpacedIff` | internal/broker/pacer_lua.go:46-75 | under a constant delay every chronological run keeps successes more than B > 0 apart if and only if the delay is at least B |
| `Pacer.DomainPacer.TryAcquire` | internal/broker/pacer.go:76-122 | the gate after the script, and the push-back: positive, at least the floor, at or past the deadline |
| `Pacer.DelayStaysInBand` | internal/broker/pacer_lua.go:11-97 | every sequence of outcomes keeps floor <= delay <= max and, above the floor, the streak below its threshold |
| `Pacer.StraightSuccesses` | internal/broker/pacer_lua.go:11-40 | n straight successes lower the delay to max(floor, d - step * ((s + n) / threshold)) |
| `Pacer.StraightErrors` | internal/broker/pacer_lua.go:77-97 | n straight rate limits raise the delay to min(max, d + n * step), count n errors and end the success streak |
| `Pacer.DelayIsLarger` | internal/broker/pacer_lua.go:46-63 | the delay of an attempt is the larger of the base and the adaptive one |
| `Pacer.ReseedChangesNothing` | internal/broker/pacer.go:56-74 | re-seeding a domain never changes what adaptation has learnt |
| `Pacer.DomainPacer.Release` | internal/broker/pacer.go:124-153 | under every fault: one adaptation, and unless its script reported an error one in-flight slot of this job returned, no field left at zero, every other field, hash and key as before |
| `Pacer.TakeAndReturn` | internal/broker/pacer.go:189-206 | a slot taken and given back without a fault leaves the in-flight hash exactly as it was |
| `Counters.Ledger` | internal/broker/counters.go:24-40 | under any interleaving, value = start + increments - decrements - what late HDELs erased + what HDELs of negative values restored |
| `Counters.ExactIffDeletesAtZero` | internal/broker/counters.go:24-40 | the stored counter is exact throughout a run if and only if every HDEL lands when start + increments - decrements is zero |
| `Counters.UninterruptedIsExact` | internal/broker/counters.go:24-40 | decrement pairs that run uninterrupted after their own increments keep it exact and non-negative |
| `Counters.LateDeleteLosesIncrements` | internal/broker/counters.go:28-40 | from any field holding one, all increments between the two commands of the decrement are lost, however many |
| `Counters.RunningCounters.Reconcile` | internal/broker/counters.go:70-94 | from any state exactly the positive entries given are stored |
| `Consumer.Consumer.ReclaimStale` | internal/broker/consumer.go:180-276 | under every fault the walk covers a prefix of the pending list, settles it entry by entry and sees at most the cap; without an error it stops short of cap and end only after ten claims that could have seen three times the cap, makes no more claims than that takes, reaches the end of any list no longer than the cap, and gives the one-shot selection of its prefix: for a complete walk exactly the stale readable entries below and at the delivery limit |
| `Consumer.CompleteWalkIsExact` | internal/broker/consumer.go:180-276 | a complete walk puts each readable stale entry in exactly one list, by its delivery count, without duplicates and in order |
| `Consumer.AfterClaim` | internal/broker/consumer.go:213-240 | one claimed page continues the one-shot settlement exactly where the cursor stood |
| `Consumer.ClaimBudget` | internal/broker/consumer.go:213-240 | a page claims no more than it asked for |
| `Consumer.LookUpCounts` | internal/broker/consumer.go:286-372 | under every fault each recorded count is the pending one; with a stable list and no error every readable claimed id has exactly its pending count, or no entry if it is not pending |
| `Consumer.Consumer.Read` | internal/broker/consumer.go:70-107 | the next undelivered entries become pending once each; the readable ones are handed out in order, the others acknowledged |
| `Consumer.SplitByCount` | internal/broker/consumer.go:348-372 | messages at the limit are dead-letter candidates, messages without a count are skipped |
| `Consumer.ReadableIsParsed` | internal/broker/consumer.go:404-441 | readable are exactly the entries that parse, and as they parse |
| `Outbox.Sweeper.Tick` | internal/broker/outbox.go:110-298 | under every database and Redis fault, row by row: a committed tick deletes a claimed row if and only if its ZADD succeeded, and otherwise bumps it, or moves it to the dead-letter table on its last attempt; other rows stay; success is reported if and only if nothing failed |
| `Outbox.BackoffDoubles` | internal/broker/outbox.go:337-354 | the back-off starts at the base and doubles with every attempt until it meets its limit |
| `Outbox.PartitionRetry` | internal/broker/outbox.go:237-253 | the in-place compaction of the failed rows keeps the retryable ones in order and returns the exhausted ones |
| `Outbox.TickPartitions` | internal/broker/outbox.go:203-276 | each claimed row ends in exactly one place, others are untouched, attempts stay below the limit and a retry comes within the longest back-off |
| `Outbox.RowLifetime` | internal/broker/outbox.go:302-354 | a row fails at most maxAttempts times and its summed back-off is at most (maxAttempts - 1 - attempts) * maxBackoff |
| `Outbox.RowInRun` | internal/broker/outbox.go:110-354 | over any run of committed ticks an unscheduled row lives that life and fails in at most maxAttempts of them |
| `Pipeline.NoTaskLost` | internal/broker/outbox.go:110-298 | over every interleaving of sweeps, dispatches, push-backs, deliveries, reclaims, retries and acknowledgements, with crashes anywhere, each committed well-formed row of a job not torn down is in the outbox, the dead-letter table, the sorted set, a stream or its pending list, or acknowledged |
| `Pipeline.RowReachesWorker` | internal/broker/outbox.go:167-199 | what a worker reads from the stream of a row's kind is what was put into the outbox, field for field, the priority to four decimals |
| `Pipeline.RetryReachesWorker` | internal/jobs/stream_worker.go:332-348 | a rescheduled message comes back the same, with the new retry count |
| `Pipeline.StepSafe` | internal/broker/dispatcher.go:337-393 | no step takes a task out of Redis unless it hands it on, acknowledges it or tears its job down |
| `Pipeline.TickIsARun` | internal/broker/outbox.go:110-298 | a committed tick is one run of the machine: lock, ZADD by ZADD, commit |
| `Pipeline.SeparatorLosesTask` | internal/broker/scheduler.go:233-258 | from any reachable state a row with a separator in its text can be enqueued and vanish |
| `Pipeline.RetriedMember` | internal/jobs/stream_worker.go:332-360 | the entry a worker reschedules stands for the same task |
| `Audit.RunTable.MarkLighthouseRunRunning` | internal/db/lighthouse.go:113-134 | moves pending and running rows, and reports no move only for a terminal or missing one |
| `Audit.RunTable.CompleteLighthouseRun` | internal/db/lighthouse.go:136-183 | a running row becomes succeeded with these metrics, duration and completion time; no other row or column changes, and anything else reports not-found |
| `Audit.RunTable.FailLighthouseRun` | internal/db/lighthouse.go:185-209 | a running row becomes failed with this message, duration and completion time; no other row or column changes, and anything else reports not-found |
| `Audit.RunTable.MarkLighthouseRunSkippedQuota` | internal/db/lighthouse.go:211-231 | skips a pending row only |
| `Audit.AuditConsumer.ProcessOne` | cmd/analysis/main.go:493-593 | under every fault and whatever others do meanwhile, the message is acknowledged only when its row is terminal or gone |
| `Audit.AuditConsumer.DispatchMessages` | cmd/analysis/main.go:446-488 | the workers started are the readable messages reached, in order; of those reached exactly the malformed ones are acknowledged, and nothing else changes |
| `Audit.ReachedOnly` | cmd/analysis/main.go:446-488 | which messages are reached: all, or those before the readable one that finds no free slot |
| `AuditProtocol.AtMostOneTerminalWrite` | cmd/analysis/main.go:493-593 | over any run with crashes, duplicates, redeliveries and rival consumers at most one write ever leaves a row terminal, counting writes over a terminal row too, and a row is terminal exactly after one |
| `AuditProtocol.TerminalRowTells` | cmd/analysis/main.go:493-593 | over any run a terminal row holds what its one closing write was asked to record: metrics as a success, a message as a failure, or the lack of quota |
| `AuditProtocol.TerminalRowsNeverChange` | internal/db/lighthouse.go:113-231 | a terminal row stays as it is in every continuation until it is deleted |
| `AuditProtocol.OpenRunKeepsItsMessages` | cmd/analysis/main.go:493-593 | no message of a row that is not terminal is ever acknowledged |
| `AuditProtocol.NeverStuck` | cmd/analysis/main.go:373-411 | from every reachable state a redelivery, a mark and a write finish an open row |
| `AuditProtocol.ProcessOneIsTwoSteps` | cmd/analysis/main.go:493-593 | the method is two steps of the machine with anything in between |
| `TaskTable.FlushIsOneByOne` | internal/db/batch.go:502-592 | with updates of a task in statement order every possible outcome of the five statements is the updates applied in queue order |
| `TaskTable.DistinctFlushIsOneByOne` | internal/db/batch.go:502-592 | with distinct ids the outcomes are exactly that one |
| `TaskTable.OneByOneIsFlush` | internal/db/batch.go:502-592 | and that outcome is possible |
| `TaskTable.StatusSurvivesIff` | internal/db/batch.go:544-577 | for every task of a batch: each outcome of the flush gives it the status queue order would give it if and only if every update of it from its last one's statement on has the last one's status |
| `TaskTable.LastStatementWins` | internal/db/batch.go:544-577 | the status after a flush is that of an update of the task taken by the last statement that took any |
| `TaskTable.StatusAfterFlush` | internal/db/batch.go:544-577 | in whatever order updates of a task were queued, waiting wins over pending, pending over skipped, skipped over failed and blocked, these over completed; a task with none of them keeps its row |
| `TaskTable.RowAfterFlush` | internal/db/batch.go:781-1222 | with distinct ids every column of every row after a flush, by the name of the update's status |
| `DailyUsage.Database.RunFlush` | internal/db/batch.go:544-592 | one flush transaction: the five statements, and usage raised for each organisation by its completed, failed and blocked tasks |
| `DailyUsage.Database.IncrementDailyUsageForTasks` | internal/db/batch.go:678-731 | each organisation's usage rises by exactly the number of given tasks whose job belongs to it |
| `DailyUsage.BucketsFinish` | internal/db/batch.go:516-573 | the two counted buckets hold exactly the completed, failed and blocked updates |
| `DailyUsage.Database.RunStatement` | internal/db/batch.go:781-1222 | a grouped UPDATE computes every matched row from what it was before the statement |
| `BatchWriter.BatchManager.QueueTaskUpdate` | internal/db/batch.go:253-281 | an update is queued, or parked in place of the parked one of its task, which is the only one superseded |
| `BatchWriter.BatchManager.PopOverflowBatch` | internal/db/batch.go:283-305 | takes parked updates as they are, at most the limit, none for a limit that is not positive |
| `BatchWriter.BatchManager.GroupByStatus` | internal/db/batch.go:516-541 | stamps the batch in place and sorts it into the statements' buckets in queue order |
| `BatchWriter.BatchManager.FlushIndividualUpdates` | internal/db/batch.go:735-778 | the fallback applies exactly the savable updates one by one and leaves the usage alone |
| `BatchWriter.SavableIff` | internal/db/batch.go:735-778 | savable are the updates of the six known statuses that do not fail on their own |
| `BatchWriter.FallbackIsFlush` | internal/db/batch.go:735-778 | with distinct ids a fallback in which nothing fails leaves the table a flush would have left |
| `BatchWriter.BatchManager.Flush` | internal/db/batch.go:316-388 | batch, ledger, counter and the list of database writes after a flush, for every way it can end, and that the tables moved by exactly those writes |
| `BatchWriter.FlushByReply` | internal/db/batch.go:115-171 | by reply and error class: a seen commit empties the batch and commits all of it, classes 22 and 23 count towards the fallback at three, and any other error changes nothing but the stamps |
| `BatchWriter.AfterFlush` | internal/db/batch.go:316-388 | what those writes make of tasks and usage: rolled back, committed with its reply seen or lost, each with and without the fallback |
| `BatchWriter.ChargedOnceIff` | internal/db/batch.go:316-404 | over every life of the manager an update settled by a flush whose success was seen was committed, and so charged, exactly once, and any other never, if and only if no commit containing it lost its reply |
| `BatchWriter.OverchargedIff` | internal/db/batch.go:316-404 | an organisation is charged more than its seen commits charge it if and only if a commit with a lost reply finished a task of its jobs |
| `BatchWriter.OverchargeIsLost` | internal/db/batch.go:316-404 | and the excess is exactly what those commits charged |
| `BatchWriter.BatchManager.ProcessUpdateBatches` | internal/db/batch.go:308-404 | whatever happens in whatever order, each event is one step: an arrival is queued or parked, a received update joins the batch, which is flushed when full, a tick takes as many parked updates as there is room for and flushes; arrivals are counted, a final seen tick leaves no batch, each update is in exactly one place, tables moved by exactly the writes listed, and with known statuses and no bad data nothing is dropped |
| `BatchWriter.LastTickCommits` | internal/db/batch.go:402-404 | after a tick whose commit was seen the batch is empty, all that was in it is committed, and the overflow is shorter by the room there was |
| `BatchWriter.EveryArrivalCounts` | internal/db/batch.go:253-281 | over any script the number of updates queued rises by the number of arrivals |
| `BatchWriter.BatchManager.Stop` | internal/db/batch.go:406-498 | shutdown empties channel and overflow, and moves the tables by exactly the writes listed; if any of its five commits is seen everything held is committed; after a success or a fallback every update ever queued is persisted, superseded or dropped |
| `BatchWriter.FallbackOnThird` | internal/db/batch.go:344-388 | the fallback runs at a data failure if and only if it is the third since the last success or fallback |
| `BatchWriter.FlushedDropsNothing` | internal/db/batch.go:316-388 | without bad data and unknown statuses a flush drops nothing |
| `Robots.MatchesRobotsPattern` | internal/crawler/robots.go:228-254 | the leftmost scan succeeds if and only if the parts occur in order without overlap |
| `Robots.GreedyStep` | internal/crawler/robots.go:240-250 | nothing is lost by taking the leftmost occurrence of a part |
| `Robots.GlobIsAnchored` | internal/crawler/robots.go:228-254 | a pattern matches from a position under RFC 9309 if and only if its parts are anchored there and follow in order |
| `Robots.MissesNothingIff` | internal/crawler/robots.go:228-254 | every match under sections 2.2.2 and 2.2.3 of RFC 9309 is found if and only if the pattern has not both a star and a trailing dollar |
| `Robots.AgreesIff` | internal/crawler/robots.go:228-254 | matcher and standard agree on all paths exactly for patterns without a star, and without a dollar for those that begin with a star or have one final star |
| `Robots.IsPathAllowed` | internal/crawler/robots.go:206-225 | allowed if and only if there are no rules, some Allow matches or no Disallow does |
| `Robots.LongestMatchIff` | internal/crawler/robots.go:206-225 | where matcher and standard agree on every pattern, the answer is that of the longest match of section 2.2.2 of RFC 9309 if and only if it is not the case that some Allow matches and each matching Allow is shorter than some matching Disallow |
| `Robots.ShortAllowWins` | internal/crawler/robots.go:211-216 | for example an Allow for everything lets through a path that a longer Disallow forbids |
| `Robots.DisallowIsRespected` | internal/crawler/robots.go:206-225 | without Allow rules no path is admitted that such a Disallow rule forbids under the standard |
| `LogAggregation.ProcessJsonFile` | scripts/aggregate_logs.py:135-191 | a file adds all its counts or, on any error halfway, none |
| `LogAggregation.SummaryAdds` | scripts/aggregate_logs.py:145-182 | what those counts are, for each counter: totals, counts by minute and name, and one sample for each level entry of the minute |
| `LogAggregation.MinuteOf` | scripts/aggregate_logs.py:150-152 | time stamps are counted by date, hour and minute |
| `LogAggregation.AggregateLogs` | scripts/aggregate_logs.py:300-377 | a run refines its specification: from scratch when asked to or when a known file was rewritten, otherwise adding the new files |
| `LogAggregation.IncrementalHistory` | scripts/aggregate_logs.py:300-377 | over any history of added and rewritten files the cached aggregate is the sum of each present file's contribution once, and equals a full run on the last directory |
| `LogAggregation.IncrementalIsFull` | scripts/aggregate_logs.py:300-377 | one incremental run on a sound cache ends with the cache of a full run |
| `LogAggregation.SumUnique` | scripts/aggregate_logs.py:173-182 | the sum does not depend on the order of the files |
| `LogAggregation.IncrementalIsFullIff` | scripts/aggregate_logs.py:300-377 | on any cache that is a sum with positive line totals for files whose stat failed, an incremental run equals a full one if and only if a known file was rewritten or every known file is still there with its fingerprint |
| `LogAggregation.FailedStatCountsTwice` | scripts/aggregate_logs.py:100-106 | for example a file counted while its stat failed is counted again by the next incremental run |
| `Teardown.Broker.RemoveJobKeys` | internal/broker/redis.go:89-120 | no fault makes the removal touch another job; without one nothing of the job is left |
| `Teardown.Broker.CleanupInflightForJob` | internal/broker/redis.go:125-142 | removes the job's field from every domain reached, and no other field of any hash, whatever the ids |
| `Teardown.Broker.SweepOrphanInflight` | internal/broker/redis.go:163-201 | leaves in every reached domain exactly the fields of active jobs |
| `Teardown.Broker.ListJobIDsInRedis` | internal/broker/reclaim.go:62-112 | exactly the jobs named by a scanned key or a counter, each once |
| `Teardown.PresentIsNamed` | internal/broker/reclaim.go:62-112 | every colon-free job with a sorted set, a stream or a counter is among them |
| `Teardown.TerminalJobFilter` | internal/api/admin.go:329-406 | when no status leaves the terminal ones, exactly the given jobs that are over or missing as of the second query |
| `Teardown.InactiveByName` | internal/api/admin.go:337-378 | a job is inactive if and only if it is missing or completed, failed, cancelled or archived |
| `Teardown.Broker.ReclaimTerminalJobKeys` | internal/broker/reclaim.go:25-58 | active jobs keep all their state whatever fails; without faults nothing is left of any job found that is over or missing |

## Left out

- The dispatcher's first-dispatch hook, the creation of consumer groups and its memo, its round over active jobs and its capacity check: the last two are parameters of a pass.
- Decimal numerals with a sign, an exponent, hexadecimal digits, infinities or NaN: the program never prints them, and the parser here refuses them.
- Sorted-set members that are not strings, missing consumer groups in the middle of a walk, and a ZREM or XACK of something malformed that fails.
- The rounding of scores and priorities to binary floating point: both are exact here, the four printed decimals aside.
- Expiry of job keys after a day, `ClearAll`, `FlushAdaptiveDelays` and the counters' synchronisation with the jobs table.
- The copy of a new run time into the tasks table that `Reschedule` makes; only its sorted-set half is modelled.
- The analysis consumer's reclaim walk, which is the crawl consumer's without cap and classification; its redeliveries are steps of the audit protocol.
- The sampling that creates audit rows, the audit itself and its metrics beyond the columns written.
- Task columns of the same kind as the modelled ones: of the response columns one copied, one defaulted, one kept when empty and one kept when not positive stand for all.
- The quota flag `increment_daily_usage` may set, and the usage date: usage is a total for each organisation.
- The flush callback, timers and waits of the batch manager; an update queued after the shutdown drain.
- Robots.txt parsing and percent-encoding.
- The server clock advancing between the pages of one reclaim walk: a walk sees one time.
- Summaries whose JSON is not an object, which abort a run before anything is saved.
- The derived CSV and Markdown outputs of the aggregation, metrics, logging and configuration from the environment.
- Concurrent changes during a SCAN: a scan sees one state of the key space.
