# kURL: clicks, lookups and the link cache

A Dafny model of the stateful parts of the URL shortener, with proofs of what they keep.

* **Click counting** (`analytics`). Clicks sit in a Redis stream and are applied by one atomic script to volatile
  counters. A flush captures the counters, merges them into Postgres by pointwise maximum with running totals kept by
  deltas, pushes the committed counts back and deletes old fields. A restart rehydrates Redis from Postgres.
  `Snapshot`, `PgSnapshotRepo`, `RedisStats`, `Persistence` and `EventConsumer` follow the files of the same names, as
  classes whose methods are proved against functions on values. `Pipeline` takes the same functions as interleaved
  atomic steps: any number of writers, crashes, failed commands, lost Redis contents. `MergeLaws`, `MergeJoin` and
  `Conservation` prove what merges and whole runs keep, and `Refinement` proves that the loops of the code, undisturbed
  and with whatever faults, are runs of the pipeline, so those theorems hold of them. `Witnesses` gives runs from the
  empty system to the states in which a property fails. `Calendar`, `RedisKeys` and `RedisText` go down to the keys,
  dates and decimal numbers Redis really holds, and to the click script command by command.
* **Single flight** (`gateway`). `CoreClient` models flights, waiters, permits and the map of channels step by step,
  with cancellation and crashes.
* **Link cache** (`core` and `gateway`). `LinkCache` models the database, the handlers between their database step
  and their send, the worker's queue, the cache with its deadlines, and the clock.
* **Retries** (`common`). `Retry` models the loop, saturating doubling, the cap and jitter.

## Findings

Each of these follows from the code as it is and is stated by a member named here.

* The compare-and-delete script (`analytics/src/redis_stats.rs:34-41`) reads `argv`, a global Redis does not have, so
  every call is an error and stale days stay in Redis for good (`Refinement.AsWrittenForgetsNothing`,
  `Conservation.FieldsStay`). Its success branch would also set the field where its callers expect a deletion.
  Everything said about cleanup takes the text as a parameter and covers both the script as written and the documented
  deletion.
* `record_click_event` maps the script's 1 ("processed" by the script's comment) to `AlreadyHandled` and 0 to
  `Applied`. Only a metric depends on it (`RedisStats.RedisServer.RecordClickEvent`).
* The click script acknowledges first and Redis does not roll back. A click is applied whole if and only if both its
  fields are absent or integers below the greatest and the stored click time is a number; otherwise the entry is
  acknowledged but stays in the stream, counted not at all, only globally, or without its time
  (`RedisText.RecordWholeIff`; `RedisText.ForeignTextLosesClick` is such an input). On text the writers wrote this does
  not happen (`RedisText.RecordRefines`).
* The hmax script compares doubles: it is the maximum of the counts if and only if a greater value reads as a greater
  double, which holds up to 2^53 (`RedisText.HmaxRefinesIff`, `RedisText.HmaxRefines`) and fails right after it
  (`RedisText.HmaxMissesGreaterCount`).
* A click on a day whose field in Redis, absent counting zero, is behind its row in Postgres is late: it disappears in
  the maximum. An applied click counts if and only if it is not late (`Conservation.ClickCountsIffNotLate`), and over
  any run, with any number of writers, what survives of a bucket grows by exactly the clicks that are not
  (`Conservation.RunCountsTimely`). Clicking, flushing, a loss of Redis and clicking the same day again before the next
  rehydration is a run with a late click (`Witnesses.LateClickHappens`). As long as Redis keeps its contents and one
  writer at a time is at work, the code as written has none (`Conservation.EveryClickCountedAsWritten`); with the
  deletion as documented flushes alone can bring one about (`Witnesses.LateClickAfterCleanup`), but not on a day within
  the window of every flush (`Conservation.InWindowRunIsGentle`).
* If two writers ever overlap, `total_clicks` stays equal to its rows if and only if no day was inserted, with clicks,
  between the second writer's select and its upsert (`MergeLaws.TotalsSurviveTornMergeIff`, and
  `MergeLaws.ClickCountSurvivesTornMergeIff` for links); otherwise it is too high, as in the run of
  `Witnesses.OverlapBreaksTotal`. No bucket's count is ever too high even then (`Pipeline.RunKeepsSound`).
* A link created between the two link statements of a merge gets a `click_count` without rows, if and only if the
  snapshot has clicks for its code (`MergeLaws.TotalsSurviveCreateInMergeIff`). The writer lock does not exclude this;
  it is the one step of a single writer that can break a total (`Pipeline.NextKeepsTotalsIff`,
  `Witnesses.CreateInMergeBreaksLinkTotal`).
* `drain_pending` never ends while the server refuses the command for one pending entry, because the entry is claimed
  again by every batch (`EventConsumer.DrainStopsIff`, `Witnesses.DrainGoesOn`).
* After a crashed task whose waiters had all left, every request for the code is told "unavailable" without an RPC
  until the first of them has removed the entry, however many there are (`CoreClient.DeadEntryHappens`,
  `CoreClient.MisledUntilRemoval`, `CoreClient.AnyNumberMisled`). A request can still be answered if and only if its
  code's map entry does not point to a dead flight (`CoreClient.RequestAnswerableIff`).
* A `get_link` that read a row before a delete and finishes after it puts the deleted link back into the cache
  (`LinkCache.GetRacingDeleteServesDeletedLink`). The step that breaks agreement is that send: sending a Set leaves an
  outdated cache if and only if the database has moved on from its target (`LinkCache.SendBreaksAgreementIff`). If no
  Set is sent of a row that is no longer current, unless a deletion is still to be sent, and no deletion is lost, every
  interleaving agrees (`LinkCache.ReplayAgreesWithDatabase`).

## Model

| member | source | states |
|---|---|---|
| Conservation.RunConserves | analytics/src/redis_persistence.rs:32-242 | in every state of every run with one writer, no wipe and no late click on the bucket, the Redis count if present, else the Postgres count, has grown by exactly the distinct entries applied to it; running totals stay equal to sums unless a clicked link is created within a merge |
| Conservation.RunCountsTimely | analytics/src/redis_persistence.rs:32-242 | with any number of writers, overtaken merges, cleanups and crashes, but no wipe and no deletion of the link, max(Redis, Postgres) of a bucket grows by exactly the clicks applied while its field was not behind its row, which are the applied clicks less the late ones |
| Conservation.EveryClickCounted | analytics/src/redis_persistence.rs:32-242 | over such runs, whatever was lost before them and whatever the totals were worth, the running total (global, or of one link never deleted) plus the sum of Redis minus Postgres over present fields grows by exactly the distinct clicks applied |
| Conservation.InWindowRunIsGentle | analytics/src/redis_persistence.rs:245-247 | from a state where the field is in Redis or Postgres has nothing for it, no click on the bucket is late in any run with one writer, no wipe and flushes whose cutoff is not past its day, whenever clicks come |
| Conservation.FieldsStay | analytics/src/redis_stats.rs:34-41 | in every run without a deletion by the cleanup and without a wipe no field leaves Redis |
| Conservation.EveryClickCountedFromInit | analytics/src/redis_persistence.rs:32-242 | from the empty system, in runs without late clicks, `total_clicks` plus the unflushed counts is the number of entries applied |
| Conservation.EveryClickCountedAsWritten | analytics/src/redis_stats.rs:34-41 | with the compare-and-delete script as written, one writer at a time and no wipe, that holds with no condition on the clicks |
| Conservation.AsWrittenRunIsGentle | analytics/src/redis_stats.rs:34-41 | there no click on any bucket is late, unless its link is deleted |
| Refinement.CountedSinceRehydration | analytics/src/redis_persistence.rs:32-242 | from a complete rehydration on, whatever Redis held before, the count of a day of its window is the greater of field and row at that moment plus the distinct clicks applied since, as long as one writer at a time flushes with cutoffs not past the day |
| Refinement.TotalsSinceRehydration | analytics/src/redis_persistence.rs:32-242 | the same for the running totals over gentle runs, if no field older than the window is behind its row at the rehydration; what such an old field loses is left out |
| Refinement.RehydrateSettles | analytics/src/redis_persistence.rs:32-65 | a complete rehydration by the only writer leaves no field of its window behind its row and none absent that has a row, and settles every older bucket whose field was not behind its row |
| Conservation.TotalPlusUnflushed | analytics/src/db/pg_snapshot_repo.rs:61-97 | whenever every bucket of a group is exact and totals are consistent, running total plus unflushed counts equals the clicks of the group |
| Conservation.StepConserves | analytics/src/redis_persistence.rs:94-242 | each single step, mid-capture, between commit, reconciliation and cleanup, changes a bucket's count by one if it applies a click to it and by nothing otherwise |
| Conservation.ClickCountsIffNotLate | analytics/src/redis_stats.rs:56-68 | an applied click adds one to max(Redis, Postgres) exactly when its field, absent counting zero, is not behind its row |
| Witnesses.LateClickHappens | analytics/src/redis_persistence.rs:70-242 | a run of the code as written, with one loss of Redis, from the empty system to a click that is applied and lost |
| Witnesses.LateClickAfterCleanup | analytics/src/redis_persistence.rs:187-202 | with the documented deletion, such a run without a loss of Redis |
| Witnesses.WipeLosesClicks | analytics/src/redis_persistence.rs:32-65 | a run from the empty system to a wipe that loses a click |
| Conservation.WipeKeepsIffFlushed | analytics/src/redis_persistence.rs:32-65 | losing Redis loses nothing of a bucket exactly when its row has at least its field's count |
| Conservation.CleanRemovesOnlyFlushed | analytics/src/redis_persistence.rs:187-202 | under one writer cleanup deletes a field only when Postgres holds its whole count, so a click since the capture keeps its field |
| Conservation.KeptNeverDecreases | analytics/src/redis_persistence.rs:169-242 | with any number of writers, no step but a wipe or the link's deletion lowers max(Redis, Postgres) of a bucket |
| Conservation.RunKeepsCounts | analytics/src/redis_persistence.rs:32-242 | the same over whole runs |
| Conservation.GlobalCountsEqualLinkCounts | analytics/src/redis_stats.rs:56-68 | in every run from an empty store without hmax and cleanup, each day's global count is the sum of its links' counts |
| Conservation.StoredTimeIsGreatest | analytics/src/redis_stats.rs:61-65 | in every run without a wipe the click time stored for a code is the greatest positive timestamp among its applied clicks, and there is one exactly if there is such a click |
| Pipeline.RunKeepsSound | analytics/src/redis_stats.rs:56-68 | over every run with redelivery, crashes, failed merges, wipes, partial rehydrations and several writers: no count in Redis, in a snapshot or merge outcome, or in Postgres exceeds the distinct entries applied to its bucket; every entry has one fate; every stale field has a committed count |
| Pipeline.NextNeverOver | analytics/src/redis_persistence.rs:94-242 | each step keeps every count at or below the applied clicks |
| Pipeline.NextKeepsOneFate | analytics/src/redis_stats.rs:56-68 | each step keeps every entry in exactly one of undelivered, pending, applied, dropped and lost, and the stream holding exactly the first two kinds |
| Pipeline.RunKeepsOneFate | analytics/src/event_consumer.rs:182-257 | so does every run, and an applied entry stays applied |
| Pipeline.SecondRecordChangesNothing | analytics/src/redis_stats.rs:57-58 | recording or dropping an entry again, from any old copy, changes nothing |
| Pipeline.ClaimOnlyForgets | analytics/src/event_consumer.rs:234-247 | a claim only removes a pending entry the stream has lost, which never happens while every entry has its fate |
| Pipeline.NextKeepsStaleCommitted | analytics/src/redis_persistence.rs:187-239 | every stale or reconciled field has a committed count, so the default of zero is never used |
| Pipeline.RunKeepsTotals | analytics/src/db/pg_snapshot_repo.rs:41-201 | while the writer lock serialises merges and no link with clicks in the snapshot is created within its merge, every running total equals the sum of its rows in every state |
| Pipeline.NextKeepsTotalsIff | analytics/src/db/pg_snapshot_repo.rs:41-201 | without an overtaken merge, a step keeps all totals equal to sums exactly when it is no merge around the creation of a clicked link |
| Refinement.FlushIsRun | analytics/src/redis_persistence.rs:70-242 | a flush is a run of one writer's pipeline steps, whether its capture, its merge, its connection after the commit or single commands fail; with the script as written none of the steps deletes |
| Refinement.FlushRuns | analytics/src/redis_persistence.rs:70-242 | calling `Persistence.Flush` where the pipeline is takes Redis and Postgres to the state that run reaches |
| Refinement.RehydrateRuns | analytics/src/redis_persistence.rs:32-65 | the same for `Persistence.Rehydrate` |
| Refinement.DrainRuns | analytics/src/event_consumer.rs:217-231 | the same for draining, a run of record and drop steps |
| Refinement.AsWrittenForgetsNothing | analytics/src/redis_stats.rs:34-41 | with the script as written a flush, failed or not, and any run after it without deletion or wipe keep every field |
| Refinement.FlushConserves | analytics/src/redis_persistence.rs:70-242 | so a flush by the only writer, failed or not, with any faults and either script text, changes no bucket's count and keeps totals and bounds |
| Refinement.RehydrateIsRun | analytics/src/redis_persistence.rs:32-65 | the same for rehydration |
| Refinement.RehydrateConserves | analytics/src/redis_persistence.rs:32-65 | a rehydration by the only writer, even a partly failed one, changes no bucket's count |
| Refinement.CaptureIsRun | analytics/src/redis_persistence.rs:94-166 | the whole snapshot is what capturing field by field collects |
| Refinement.ProcessingIsRun | analytics/src/event_consumer.rs:182-213 | processing a batch is a run of record and drop steps on the entries that do not fail |
| MergeLaws.MergeKeepsDrift | analytics/src/db/pg_snapshot_repo.rs:41-201 | a serialised merge leaves each running total's distance from the sum of its rows as it was |
| MergeLaws.MergeKeepsConsistent | analytics/src/db/pg_snapshot_repo.rs:41-201 | running totals equal sums after the merge if they did before, filtered codes included |
| MergeLaws.OutcomeTells | analytics/src/db/pg_snapshot_repo.rs:68-134 | the outcome names every captured field, the committed count of each row that landed, and what `total_clicks` and each `click_count` gained |
| MergeLaws.LinkChangesKeepConsistent | migrations/20260711161811_daily.sql:21-27 | creating a link adds a row with no clicks and no daily rows, deleting one takes its daily rows along and nothing else, and both keep all totals equal to sums |
| MergeLaws.TornGlobalDrift | analytics/src/db/pg_snapshot_repo.rs:43-97 | a merge whose select missed rows inserted since is off by exactly what it counted twice |
| MergeLaws.TornLinkDrift | analytics/src/db/pg_snapshot_repo.rs:109-198 | the same for each link |
| MergeLaws.TotalsSurviveTornMergeIff | analytics/src/db/pg_snapshot_repo.rs:43-97 | exactly when an overtaken merge keeps `total_clicks` equal to its rows |
| MergeLaws.ClickCountSurvivesTornMergeIff | analytics/src/db/pg_snapshot_repo.rs:109-198 | exactly when it keeps a link's `click_count` equal to its rows |
| Witnesses.OverlapBreaksTotal | analytics/src/db/pg_snapshot_repo.rs:43-97 | a run from the empty system to an overtaken merge that breaks the total |
| Witnesses.CreateInMergeBreaksLinkTotal | analytics/src/db/pg_snapshot_repo.rs:139-198 | a run from the empty system that ends in a merge around the creation of a clicked link and breaks that link's total |
| MergeLaws.TotalsSurviveCreateInMergeIff | analytics/src/db/pg_snapshot_repo.rs:139-198 | exactly when a link created between upsert and update has a total equal to its rows |
| MergeLaws.MergeAroundCreateKeepsOthers | analytics/src/db/pg_snapshot_repo.rs:139-198 | such a merge changes the rows as any other and no other total's drift |
| MergeJoin.MergeAllIsJoin | analytics/src/db/pg_snapshot_repo.rs:32-211 | merging a list of snapshots gives the pointwise maximum of rows and click times and keeps every drift |
| MergeJoin.JoinIsUnique | analytics/src/db/pg_snapshot_repo.rs:32-211 | tables and a set of snapshots determine that result |
| MergeJoin.MergeOrderIrrelevant | analytics/src/db/pg_snapshot_repo.rs:32-211 | any order and any repeats of the same snapshots give the same tables |
| Refinement.SnapshotsAreCaptured | analytics/src/redis_persistence.rs:94-166 | in every state of every run the snapshots about to be merged are of the kind these laws are about: counts not negative, click times after the epoch and only for captured links |
| MergeJoin.RemergeChangesNothing | analytics/src/db/pg_snapshot_repo.rs:32-211 | merging a snapshot again, after any others, changes nothing |
| MergeJoin.MergeBelow | analytics/src/db/pg_snapshot_repo.rs:32-211 | a snapshot below the rows is merged without effect |
| Snapshot.CalculateMergeDelta | analytics/src/snapshot.rs:31-35 | the committed count is one of the two and at least both; existing plus delta is the committed count, the delta not negative |
| PgSnapshotRepo.SnapshotRepo.MergeSnapshot | analytics/src/db/pg_snapshot_repo.rs:32-211 | commits the maximum merge with its totals and outcome, or changes nothing and fails; an empty snapshot never fails |
| PgSnapshotRepo.Transaction | analytics/src/db/pg_snapshot_repo.rs:39-201 | the statements in their order leave exactly the merged tables and the outcome, whatever is absent from the snapshot |
| PgSnapshotRepo.GlobalBlock | analytics/src/db/pg_snapshot_repo.rs:41-100 | the day rows are upserted and the total grows by the sum of the gains |
| PgSnapshotRepo.LinkBlock | analytics/src/db/pg_snapshot_repo.rs:102-199 | the upsert skips codes without a link, and each link row gets its gains once |
| PgSnapshotRepo.GlobalRows | analytics/src/db/pg_snapshot_repo.rs:57-68 | the loop computes the maximum for every captured day and the sum of the gains |
| PgSnapshotRepo.LinkRows | analytics/src/db/pg_snapshot_repo.rs:123-134 | the loop computes the maximum for every captured field and each code's total gain |
| PgSnapshotRepo.DeltaRows | analytics/src/db/pg_snapshot_repo.rs:156-180 | the batch names each code once: those that gained clicks or carry a click time |
| PgSnapshotRepo.BatchUpdates | analytics/src/db/pg_snapshot_repo.rs:182-198 | applying that batch row by row updates every existing link by its gain and its latest click time |
| RedisStats.RedisServer.Hmax | analytics/src/redis_stats.rs:18-25 | the field becomes the greater of itself and the value; the answer says whether it changed |
| RedisStats.RedisServer.CompareAndDeleteField | analytics/src/redis_stats.rs:34-41 | as written: always an error, no effect; as documented: the field goes exactly when it equals the expected value |
| RedisStats.RedisServer.RecordClickEvent | analytics/src/redis_stats.rs:56-135 | effects exactly when the entry was pending; the label `Applied` exactly when nothing was done |
| RedisStats.RedisServer.DropClickEvent | analytics/src/redis_stats.rs:138-153 | a pending entry leaves stream and pending list, nothing else changes |
| Persistence.Persistence.HmaxAll | analytics/src/redis_persistence.rs:175-184 | every row whose command succeeds is joined into Redis, the others are skipped, and the reconciled set is exactly the former |
| Persistence.Persistence.Rehydrate | analytics/src/redis_persistence.rs:32-65 | Redis becomes the join of itself and the rows from seven days ago on, less failed commands; unchanged when the query or connection fails |
| Persistence.Persistence.CleanupStale | analytics/src/redis_persistence.rs:187-202 | deletes exactly the stale, reconciled fields whose command succeeds |
| Persistence.Persistence.ReconcileAndCleanup | analytics/src/redis_persistence.rs:169-242 | pushes the committed counts and then removes the stale fields; nothing without a connection |
| Persistence.Persistence.Flush | analytics/src/redis_persistence.rs:70-91 | a failed flush changes nothing; a successful one merges the captured snapshot and reconciles with the committed counts |
| Persistence.RehydrateMirrors | analytics/src/redis_persistence.rs:32-65 | a rehydration with any failures keeps every field equal to its row |
| Persistence.RehydrationsMirror | analytics/src/redis_persistence.rs:32-91 | from an empty Redis any number of rehydrations with any failures does, and a flush without new clicks then changes no table |
| Persistence.FlushAfterRehydrateChangesNothing | analytics/src/redis_persistence.rs:32-91 | flushing that without new clicks changes no table |
| Persistence.RehydrateDominates | analytics/src/redis_persistence.rs:245-247 | a complete rehydration brings exactly the rows of days from today - 7 on up to the greater of field and row, touches no other field, and restores no stale day |
| Persistence.FlushLeaves | analytics/src/redis_persistence.rs:169-242 | after a complete flush a field is there exactly if its day is not before today - 8, and equals the committed count, which Postgres holds for global fields and existing links |
| Persistence.FlushBringsTimes | analytics/src/db/pg_snapshot_repo.rs:160-198 | a flush brings the click time of an existing link with captured fields up to the one in Redis and lowers none |
| Persistence.AsWrittenRemovesNothing | analytics/src/redis_stats.rs:34-41 | with the script as written a flush leaves exactly the fields there were |
| EventConsumer.Consumer.ProcessEntry | analytics/src/event_consumer.rs:182-213 | records a click, drops an entry that does not parse, and leaves one pending whose command the server did not execute |
| EventConsumer.Consumer.AutoClaim | analytics/src/event_consumer.rs:238-247 | the oldest pending entries, as many as the batch holds, oldest first |
| EventConsumer.Consumer.DrainPendingBatch | analytics/src/event_consumer.rs:234-257 | processes what it claims in order and returns how many |
| EventConsumer.Consumer.DrainPending | analytics/src/event_consumer.rs:217-231 | with no failing entry, no shutdown and no other reader it ends with nothing pending, every pending entry processed once and oldest first, after the number of batches below |
| EventConsumer.BatchesAreCeil | analytics/src/event_consumer.rs:217-231 | that number is ceil(pending / batch) + 1 |
| EventConsumer.DrainStopsIff | analytics/src/event_consumer.rs:217-231 | with entries whose command is refused every time, the loop gets to an empty claim exactly when none of them was pending |
| Witnesses.DrainGoesOn | analytics/src/event_consumer.rs:217-231 | a reachable state with such an entry from which any number of batches is followed by another claim |
| RedisText.CaptureSnapshot | analytics/src/redis_persistence.rs:94-166 | reads a bucket exactly when one of its hash's fields parses to its day, reports exactly the fields that do not parse, adds the click times of the captured links and the stale fields, and returns nothing when one of these times is bad |
| RedisText.LastClickedAtBatch | analytics/src/redis_stats.rs:156-190 | the times of the codes that have one, or nothing if one does not parse or is no known time |
| RedisText.CaptureUndoesWriters | analytics/src/redis_persistence.rs:94-166 | of what the writers wrote it never fails and gives back exactly the counts, click times and stale fields, nothing malformed |
| RedisText.ParseDailyCounts | analytics/src/snapshot.rs:45-80 | every field is read as its day and count or reported with the right reason, and nothing else is |
| RedisText.ReadIff | analytics/src/snapshot.rs:49-78 | a field is a day and a count exactly if its name is a date and its value a 64-bit integer not below zero; otherwise the first that fails is the reason |
| RedisText.HmaxRefinesIff | analytics/src/redis_stats.rs:18-25 | the script on text does to the text what hmax does to the counts exactly when a greater value reads as a greater double |
| RedisText.HmaxRefines | analytics/src/redis_stats.rs:18-25 | so it does up to 2^53 |
| RedisText.HmaxMissesGreaterCount | analytics/src/redis_stats.rs:18-25 | at 2^53 it does not: with rounding as doubles have it, 2^53 + 1 is not written |
| RedisText.RecordWholeIff | analytics/src/redis_stats.rs:56-68 | exactly when a pending click is applied whole, and what each of the script's errors leaves behind |
| RedisText.ForeignTextLosesClick | analytics/src/redis_stats.rs:56-68 | with text that is no number in the day's global field the click is acknowledged, stays in the stream and counts nowhere |
| RedisText.RecordRefines | analytics/src/redis_stats.rs:56-68 | on text the writers wrote the script never errs and does to the text what `RecordClick` does to counts, times, stream and pending list |
| RedisText.IncrRefines | analytics/src/redis_stats.rs:59-60 | HINCRBY on text adds one to the count, and errs exactly at the greatest integer |
| RedisText.CompareAndDeleteRefines | analytics/src/redis_persistence.rs:193-196 | comparing the field with the printed count is comparing the counts |
| Calendar.DayNumberOfDate | analytics/src/redis_persistence.rs:45 | the date of a day number has that number |
| Calendar.DateOfDayNumber | analytics/src/redis_persistence.rs:45 | and every date of the calendar is the date of its number |
| Calendar.WhichDatesExist | analytics/src/snapshot.rs:50 | a date exists exactly by the lengths of the months and the 4, 100 and 400 year rule |
| Calendar.DayNumberIsDaysBefore | analytics/src/redis_persistence.rs:45 | the number of a day is 365 for each year before plus the leap days, the days of the months before and of the month |
| Calendar.ParseDateOf | analytics/src/snapshot.rs:50 | up to four digits, up to two and up to two with dashes between parse exactly if the date exists |
| Calendar.ParsedDateShape | analytics/src/snapshot.rs:50 | nothing else parses |
| Calendar.PrintDateShape | analytics/src/redis_stats.rs:122 | a printed date is ten characters, its numbers in digits with dashes between |
| Calendar.ParsePrintDate | analytics/src/snapshot.rs:50 | parsing a printed date gives it back, for the years 0 to 9999 |
| Calendar.ParsePrint | analytics/src/snapshot.rs:58 | parsing a printed count gives it back, up to the greatest 64-bit integer |
| Calendar.ParsePrintInt | analytics/src/snapshot.rs:58 | the same for every 64-bit integer, negative ones included |
| Calendar.ParseUnsigned | analytics/src/snapshot.rs:58 | digits parse to their value if that is within 64 bits |
| Calendar.ParseSigned | analytics/src/snapshot.rs:58 | and so do digits after a plus or minus |
| Calendar.ParseNothingElse | analytics/src/snapshot.rs:58 | nothing else parses |
| Calendar.PrintInjective | analytics/src/redis_persistence.rs:195-196 | two counts print alike exactly when they are equal |
| RedisKeys.KeyFamilies | common/src/redis_keys.rs:7-17 | the key families are disjoint, a key names its code, and stripping the prefix gives it back |
| RedisKeys.KeyTexts | common/src/redis_keys.rs:4-17 | the keys, letter by letter |
| CoreClient.OneFlightPerCode | gateway/src/grpc/core_client.rs:37-72 | in every reachable state at most one live unpublished flight per code |
| CoreClient.RunKeepsInv | gateway/src/grpc/core_client.rs:37-72 | a live flight is the one its map entry points to, entries and waiters point to flights for their code, available plus held permits is the limit |
| CoreClient.WaitersAnsweredRight | gateway/src/grpc/core_client.rs:62-71 | every answer is the result published by the flight joined, for the waiter's code, the same for all who joined; "unavailable" only if that flight died unpublished |
| CoreClient.ValuesNeverChange | gateway/src/grpc/core_client.rs:56 | a channel's value is written at most once and an answer never changes |
| CoreClient.CancelTouchesNoFlight | gateway/src/grpc/core_client.rs:52-58 | cancelling any set of waiters changes no flight, entry or permit, then or in any later steps of the tasks, and no other waiter |
| CoreClient.RemovalIsGuarded | gateway/src/grpc/core_client.rs:57-68 | finished tasks and failed waiters remove no later flight's entry, and a channel is inserted only when created |
| CoreClient.WhatStaysInTheMap | gateway/src/grpc/core_client.rs:57-68 | with all tasks ended and all waiters served, an entry remains only for a dead flight whose waiters were all cancelled; so the map is empty when all tasks finished normally |
| CoreClient.DeadEntryHappens | gateway/src/grpc/core_client.rs:38-61 | from every state without an entry for the code, the initial one included, a leaving waiter and a crash leave an entry for a dead flight |
| CoreClient.MisledUntilRemoval | gateway/src/grpc/core_client.rs:38-71 | every request for the code before that entry is removed joins the dead flight, starts none, is never answered, and ends as "unavailable" or cancelled, whatever the schedule |
| CoreClient.AnyNumberMisled | gateway/src/grpc/core_client.rs:38-61 | there can be any number of them |
| CoreClient.FirstRemovalEndsIt | gateway/src/grpc/core_client.rs:66-70 | the first of them told so removes the entry, and the next request starts a flight |
| CoreClient.RequestJoins | gateway/src/grpc/core_client.rs:38-61 | a request joins a dead flight exactly when its code's entry points to one, else a live flight or one whose channel has a value |
| CoreClient.DeadFlightNeverAnswers | gateway/src/grpc/core_client.rs:62-71 | no continuation answers a waiter of a dead flight |
| CoreClient.RequestAnswerableIff | gateway/src/grpc/core_client.rs:37-72 | some continuation answers a request exactly when its code's entry does not point to a dead flight |
| CoreClient.StepLowersMeasure | gateway/src/grpc/core_client.rs:52-71 | every step other than a request lowers a measure over flight phases and waiters |
| CoreClient.NoDeadlock | gateway/src/grpc/core_client.rs:52-71 | with a limit of at least one, an unanswered waiter means the system has an enabled step of its own |
| CoreClient.EveryWaiterAnswered | gateway/src/grpc/core_client.rs:52-71 | so under any schedule, after boundedly many steps, every waiter is answered, told "unavailable", or cancelled |
| CoreClient.RpcsWithinLimit | gateway/src/grpc/core_client.rs:52-55 | RPCs in progress never exceed the limit |
| CoreClient.Client.WithMaxInFlight | gateway/src/grpc/core_client.rs:28-35 | starts with an empty map and all permits |
| CoreClient.Client.GetLink | gateway/src/grpc/core_client.rs:37-61 | joins the flight in the map or inserts a new channel with its task |
| CoreClient.Client.SpawnedTask | gateway/src/grpc/core_client.rs:52-58 | undisturbed, publishes the reply, gives the permit back and removes its own entry only |
| CoreClient.Client.Wake | gateway/src/grpc/core_client.rs:63-71 | returns the published value, or removes the dead flight's entry and no other |
| LinkCache.ReplayAgreesWithDatabase | core/src/grpc.rs:45-135 | under every interleaving in which no Set of a row no longer current is sent without a deletion still to be sent, and no deletion is dropped, replaying the pending queue onto the cache leaves only the database's target, and nothing for a deleted code, in every reachable state with no deletion of the key still to be sent |
| LinkCache.UninterruptedIsGuarded | core/src/grpc.rs:24-136 | a handler not interrupted between its database step and its send keeps that condition |
| LinkCache.SendBreaksAgreementIff | core/src/grpc.rs:94-104 | in every reachable state sending a Set leaves a drained cache that is outdated exactly when the database has moved on from its target |
| LinkCache.HitIsCurrent | gateway/src/api/redirect.rs:34-43 | in such runs, with a drained queue and no deletion to be sent, a hit is the target `get_link` would read for an unexpired link |
| LinkCache.RunAgrees | core/src/grpc.rs:45-135 | in every state of such a run whatever is stale in cache or queue has its deletion behind it |
| LinkCache.WorkIsReplay | core/src/cache.rs:43-64 | the worker emptying its queue is that replay |
| LinkCache.StalenessIsBounded | core/src/grpc.rs:158-168 | under every interleaving a cached value was once the target of its key, outlives neither its application by more than the cache TTL nor its row's expiration by more than its delay on the way, and goes less than a second before one of the two |
| LinkCache.EntryLivesItsTtl | core/src/cache.rs:80-87 | a cached target is served for exactly the whole seconds of its TTL |
| LinkCache.LinkAnswersUntilExpiration | core/src/grpc.rs:74-108 | a created link answers with its target until its expiration and is expired from then on, whatever else happens, until it is deleted or purged; redirect does the same unless the cache has it |
| LinkCache.LinkExpiresInTime | core/src/grpc.rs:90-92 | with a given time to live it is found before that has passed and expired when it has |
| LinkCache.DeletedIsNotFound | core/src/grpc.rs:111-136 | a deleted link is not found until its code is created again |
| LinkCache.PurgeRemovesIff | migrations/20260802173655_expiration.sql:11-15 | the purge removes a link exactly when its expiration is more than 90 days past, and no other |
| LinkCache.PurgeFindsNoLiveEntry | migrations/20260802173655_expiration.sql:11-15 | the purge leaves a live entry of the row it removes only if that entry was over 90 days on its way |
| LinkCache.DrainedCacheOutdatedIff | core/src/grpc.rs:45-135 | in every reachable state, under any interleaving, the drained cache serves a target the database does not have exactly when the last pending operation on the key sets one, or none is pending and a live entry holds one |
| LinkCache.ReplayIsLastOp | core/src/cache.rs:43-64 | at a key the queue leaves what its last operation on the key leaves |
| LinkCache.FinishedGetAgreesIff | core/src/grpc.rs:74-108 | exactly when a get that finishes undisturbed on an empty queue leaves cache and service in agreement |
| LinkCache.GetRacingDeleteServesDeletedLink | core/src/grpc.rs:74-135 | a run in which a get racing a delete puts the deleted link back |
| LinkCache.CalculateCacheTtl | core/src/grpc.rs:158-168 | the TTL is the cache TTL or what is left of the link, whichever is less; none exactly when that is under a second |
| LinkCache.Core.CreateLink | core/src/grpc.rs:24-71 | stores the row with its target and expiration and enqueues a Set with its TTL exactly when the code is free and the expiration in the future; otherwise changes nothing |
| LinkCache.Core.GetLinkRequest | core/src/grpc.rs:74-108 | answers with the row's target before its expiration, expired from then on, not found without a row, and enqueues a Set with the row's TTL |
| LinkCache.Core.DeleteLink | core/src/grpc.rs:111-136 | deletes the row and enqueues the deletion, or reports that there is none; other rows stay |
| LinkCache.Core.ProcessOp | core/src/cache.rs:71-93 | applies an operation in whole seconds, or drops it without a connection |
| LinkCache.Core.Drain | core/src/cache.rs:55-61 | empties the queue into the cache in order |
| LinkCache.Gateway.Serve | gateway/src/api/redirect.rs:30-64 | a readable hit answers without the service; otherwise the service's answer; a click event exactly when a target was found and the task that sends it does not fail |
| Retry.Run | common/src/retry/mod.rs:89-115 | returns the first success, or the last error after all retries; an always failing operation is called max_retries + 1 times with max_retries sleeps, each the capped, jittered delay of the configured strategy |
| Retry.NextDelay | common/src/retry/backoff_strategy/mod.rs:11-15 | every strategy answers its n-th delay: none, constant, linear in the attempt, or doubled |
| Retry.ExponentialBackoff.NextBackoff | common/src/retry/backoff_strategy/exponential.rs:22-27 | returns the delay and doubles it, up to the greatest duration |
| Retry.TotalDoublesIff | common/src/retry/backoff_strategy/exponential.rs:22-27 | without jitter or cap the sleeps add up to initial doubled n times minus initial exactly if the last did not saturate, and to less otherwise |
| Retry.ExactIsPower | common/src/retry/backoff_strategy/exponential.rs:22-27 | initial doubled n times is initial times 2^n |
| Retry.TotalUnderCap | common/src/retry/mod.rs:97-100 | with a cap the sleeps add up to at most n times the cap |
| Retry.CapIsExact | common/src/retry/mod.rs:97-100 | a delay above the cap is slept as the cap, any other as it is |
| Retry.DelaysAre | common/src/retry/backoff_strategy/linear.rs:23 | the delays of the strategies below and above saturation |
| Retry.DelayDoubles | common/src/retry/backoff_strategy/exponential.rs:22-27 | the first delay is the initial one and each next one double, up to the greatest duration |
| Retry.JitterIs | common/src/retry/backoff_strategy/jitter.rs:16-23 | full jitter scales by the random number, equal jitter is half the delay and half of that |
| Retry.JitterKeepsHalf | common/src/retry/backoff_strategy/jitter.rs:16-27 | jitter never lengthens the schedule, and equal jitter keeps at least half of it, capped or not |

## Left out

- Redis, Postgres, gRPC and HTTP transport, connection pools and SQL parsing: a script is one atomic step, a merge one
  commit or no-op (its statements matter only where another writer or the creation of a link comes between them), and failures are parameters.
- Limits of numbers in Redis and Postgres outside RedisText: counts are unbounded integers there, so overflowing 64-bit
  totals are not modelled. What Lua's tonumber makes of text is a parameter with the properties of doubles.
- Redis coming back with older persisted contents: it keeps what it has or loses everything.
- RedisStats.RedisServer.RecordClickEvent: the script takes effect as a whole; its errors after the XACK need text the writers never write or the greatest integer, and are the subject of RedisText.RecordWholeIff.
- EventConsumer.Consumer.ProcessEntry: likewise, a failing entry is one whose command was not executed.
- RedisText.ParseDailyCounts: dates with signs or blanks, which the source's date parser may accept and no writer writes, are read as invalid.
- Values of the wrong Redis type under the keys, on which every command errs.
- XAUTOCLAIM's scan limit (ten times the count): a batch claims the oldest pending entries, as many as it may.
- Which 64-bit click times chrono can represent is a parameter of the capture.
- `parse_click_event`: which entries parse, and to what, is given.
- Persistence.Persistence.Flush: runs without interference; other parties' steps between its commands are covered by Pipeline and Refinement.
- EventConsumer.Consumer.DrainPending: no shutdown in the middle of the loop; `run`, `event_loop` and the acquisition of the writer lock are only the pipeline's freedom to take steps and to have one writer or several.
- Calendar.ParsePrintDate: years 0 to 9999, and the parser on text without signs and blanks, which is all that is ever printed.
- RedisText.CaptureSnapshot: no writer interferes with the scan; interleaved captures are steps of Pipeline.
- CoreClient.Client.SpawnedTask: the undisturbed task; interleavings, cancellation and crashes are steps of the state machine.
- LinkCache.HitIsCurrent: needs the guard on sends, which a get racing a delete breaks; SendBreaksAgreementIff and DrainedCacheOutdatedIff say exactly, for every interleaving, when the drained cache is outdated.
- LinkCache.Core.CreateLink: the code is given; generating a free one is not modelled.
- Retry.Run: delays are real numbers, so rounding in the jitter multiplication is not modelled.
- Several replicas of the core service, each with its own queue.
- The `create` and `stats` handlers, status codes, metrics, logging, configuration, the unused update functions and the unfinished statistics query.
