# Verified model of the fleet telemetry service

A Windows agent collects readings and sends them as JSON envelopes to a server, which stores them in SQLite, derives
trust and a health verdict for each device, and keeps its tables small. This project models the parts whose guarantees
hold over whole runs, and proves those guarantees. `dafny verify dfyconfig.toml` checks everything.

Each module follows one source file or one mechanism:

| module | part of the system |
|---|---|
| `RescoreQueue` | the coalescing rescore worker: one worker, many submitters and drain callers, one condition variable with an explicit, ordered wait set |
| `IngestGuards` | the sliding-window rate limiter and the idempotency set |
| `IngestApi` | the order of guards in `ingest`, the moment a key is marked, overlapping requests and restarts |
| `SpoolFile` | the agent's offline spool, as the text of one file |
| `Transport` | the delivery protocol end to end: retries, throttling, lost requests and replies, failing file writes, restarts |
| `Health` | the verdict with hysteresis, fed back through the stored history |
| `Rollup` | the maintenance sweep: daily folds, then the age prune, with failures in between |
| `Archive` | aged rows moving into text blobs before they are deleted |
| `Scores` | the verdict history, slimmed by one row per insert |
| `Shrink` | the batched one-off migration of a legacy verdict table |
| `DiskReadings` | disk readings with a bounded set of keys |
| `RuleStats` | rule episodes, counted once through a dedup table that is pruned |
| `TrustStaleness` | trust of a source: ingests against a sweep that reads, decides and writes in separate transactions |
| `NetLinks` | idempotent replacement of the links of probed nodes |
| `PrintCounters` | page accounting from spooler counters |
| `Restore` | database restore under failing renames |
| `Updater` | update attempts across checks, failures and restarts |
| `Wrappers`, `Sequences` | an option type and facts about sequences |

Objects and modules that change state are classes whose methods are proved against functions of the old state; what the
system promises is then proved of those functions, over every run. Time is an integer or real number of seconds. One
`with _lock, _connect()` block, or one block under the condition variable, is one step, and any other step may come
between two of them. File failures, network outcomes, clock readings and what SQL leaves open are parameters.

Assumptions, where a statement has any: the server's clock does not go back; JSON text of a value reads back as that
value; primary keys grow; a 2xx answer comes from the server itself. Statements that need more say so in their
`requires`, as do those that need readings of the clock to take effect in the order in which they were made
(`IngestGuards.SwappedReadingsAdmitOneMore` shows what two swapped ones do).

Where the code does something other than its documentation says, the model follows the code:

- `replace_net_links` is said never to duplicate rows. Its unique index takes a NULL kind as different from every
  other, so each rerun adds a row for a link without a kind (`NetLinks.IdempotentIffKindsKnown`). Its one caller
  (server/netdisco/reconcile.py:146-159) always passes a kind, so this is a property of the function only.
- `Retry-After` names an instant at which the retry can still be refused, because the window is closed
  (`IngestGuards.RetryAfterIsExact` gives the exact condition).
- The spool is read with `splitlines`, so an envelope holding U+0085, U+2028 or U+2029 comes back as several lines
  (`SpoolFile.SpoolRoundTrip`, `SpoolFile.SeparatorSplitsAnEnvelope`). A piece that is JSON and no object, such as a
  number, is not dropped as corrupt: whatever its POST meets, reading a message type from it raises, and the flush ends
  before it rewrites the file. A flush raises if and only if it comes to such a line with the network open
  (`Transport.FlushRaisesAtValue`), and the line leaves the spool by an eviction only
  (`Transport.ValueLeavesByEviction`, `Transport.WedgeIsReached`).
- A spool append that breaks off leaves no newline, and the next envelope becomes part of the torn line
  (`Transport.TornAppendLosesNext`).
- A staleness write is said to err towards "stale", never towards "ok". That holds if and only if the threshold, which
  is at least 60 s whatever is configured, never rises (`TrustStaleness.EarnedIffThresholdNeverRises`): after a rise a
  write can revive a source (`TrustStaleness.RiseRevives`).
- The health memory is taken before the systemic floor, so a blind cycle forgets the floor
  (`Health.BlindCyclesForgetTheFloor`).
- Raw rows are said never to be pruned unfolded. They are exactly when a prune reaches a row that its own sweep missed,
  or an unfolded one of that sweep's own day (`Rollup.LosesIffPrunesMissed`). What a sweep misses can be told when it
  starts (`Rollup.StartMisses`), up to rows stored late. With sweeps at most 35 days apart and heartbeats stored on the
  day of their stamp none is missed (`Rollup.NothingPrunedUnfolded`); that leaves a prune which comes so late that it
  reaches into the UTC day on which its sweep started (`Rollup.LongSweepLoses`). A first backfill of a legacy database
  that fails after its oldest day is never finished (`Rollup.InterruptedBackfillLoses`), and a heartbeat stamped before
  midnight but stored after the new day's sweep has read the old day is not read again (`Rollup.LateStoreLoses`).
- A print sweep that leaves its old state file counts its pages twice, and one that tears it loses the baselines
  (`PrintCounters.PagesAreConserved`). Two queues whose clipped names agree are counted against each other
  (`PrintCounters.SharedNameVersusPrinted` says when that emits more than was printed).
- A restore checks only the database's set-aside name, so a journal stranded by an earlier failed restore of the same
  second is overwritten (`Restore.StrandedJournalIsLost`).
- The ceiling of three download attempts is one of three since the counter last started over
  (`Updater.CounterIsExact`, `Updater.DownloadedIffBelowThree`). It starts over when another target's attempt is
  written, when a restart finds the version reached, when a write of the state file breaks off, and when the file cannot
  be read for once; each makes a fourth download possible (`Updater.ReturningTargetStartsOver`,
  `Updater.RollbackStartsOver`, `Updater.TornWriteStartsOver`, `Updater.UnreadableStateStartsOver`).

## Model

| member | source | states |
|---|---|---|
| `RescoreQueue.Queue.Submit` | server/rescore_queue.py:44-49 | after `stop` nothing changes; otherwise the device is pending and exactly the longest waiter is woken |
| `RescoreQueue.Queue.Stop` | server/rescore_queue.py:62-67 | the flag is set and every waiter is woken |
| `RescoreQueue.Queue.DrainPass` | server/rescore_queue.py:51-60 | True exactly with nothing pending or running, False on a deadline, else the caller joins the wait set |
| `RescoreQueue.Queue.Take` | server/rescore_queue.py:69-81 | sleep, exit or take some pending device, by pending set and stop flag; pending work is finished before exit |
| `RescoreQueue.Queue.Finish` | server/rescore_queue.py:80-85 | the busy count falls and every waiter is woken, raised or not |
| `RescoreQueue.StepKeepsHistory` | server/rescore_queue.py:44-85 | in every interleaving the pending set is exactly the devices owed a recompute by the history of submits and starts |
| `RescoreQueue.StepKeepsWaitSet` | server/rescore_queue.py:44-85 | the wait set is exactly the sleeping threads, each once |
| `RescoreQueue.AsleepWorkerWaitsAlone` | server/rescore_queue.py:51-85 | the worker and a drain caller are never both un-notified waiters |
| `RescoreQueue.StepKeepsInv` | server/rescore_queue.py:44-85 | every critical section of every thread keeps the invariant |
| `RescoreQueue.RunKeepsInv` | server/rescore_queue.py:44-85 | so does every run |
| `RescoreQueue.SubmitWakesSleepingWorker` | server/rescore_queue.py:44-49 | no lost wakeup: the single `notify()` of an accepted submit always reaches a sleeping worker |
| `RescoreQueue.NothingOwedAtRest` | server/rescore_queue.py:69-85 | no lost work: when the worker sleeps or has exited, every accepted submit was followed by a start of its device, and every start has ended |
| `RescoreQueue.DrainIsExact` | server/rescore_queue.py:51-60 | `drain` answers True if and only if nothing is owed and nothing is running at that instant |
| `RescoreQueue.RecomputesNeverExceedSubmits` | server/rescore_queue.py:44-85 | for each device, ended recomputes are at most started ones, and those at most accepted submits |
| `RescoreQueue.RunSpendsWork` | server/rescore_queue.py:69-85 | the worker's steps in any run are bounded by the work at its start and what others add |
| `RescoreQueue.OwedWorkIsServed` | server/rescore_queue.py:44-85 | while a recompute is owed a started worker can move, and after boundedly many of its steps nothing is owed |
| `IngestGuards.Guards.CheckRateLimit` | server/ingest_guards.py:100-120 | prunes the key's window, trims an oversized dictionary, refuses at 30 and otherwise records the admission |
| `IngestGuards.Guards.TrimWindows` | server/ingest_guards.py:108-113 | above the trim size exactly the keys without an admission in the window go |
| `IngestGuards.Guards.RetryAfterSec` | server/ingest_guards.py:123-136 | 1 when the window is not full; else the first whole second, from 1 on, by which the oldest admission is a window old |
| `IngestGuards.SeenAfterMark` | server/ingest_guards.py:69-97 | a key is seen from its mark on, until a mark of another key finds the set oversized after the TTL; an absent key never |
| `IngestGuards.Guards.MarkSeen` | server/ingest_guards.py:81-97 | marks the key after dropping entries past the TTL from an oversized set |
| `IngestGuards.StepKeepsView` | server/ingest_guards.py:100-120 | one check answers as the reference does, and keeps both views of every key equal |
| `IngestGuards.LimiterIsExact` | server/ingest_guards.py:100-120 | in whatever order readings take the lock, pruned lists and trimming answer every run as a limiter that keeps each admission for ever, unless a check comes upon an admission in its own window that was outside the window of an earlier check; never with readings in order |
| `IngestGuards.SwappedReadingsAdmitOneMore` | server/ingest_guards.py:102-104 | two readings that take the lock against their order: the pruned list admits what the complete one refuses |
| `IngestGuards.NoWindowOverflows` | server/ingest_guards.py:100-120 | no closed 60 s window ever holds more than 30 admissions of one key |
| `IngestGuards.RetryAfterIsExact` | server/ingest_guards.py:123-136 | whatever happened before, and with any traffic in between that admits nothing of the key: at least 1; any later retry is admitted; at exactly the named instant it is admitted if and only if the oldest admission has left the closed window |
| `IngestGuards.RetryAtNamedInstantRefused` | server/ingest_guards.py:123-136 | after thirty admissions at one instant the retry at exactly the named instant is refused |
| `IngestApi.Api.Ingest` | server/api.py:58-109 | guards in order, an ingest before its mark, and one reply for each outcome |
| `IngestApi.StepKeepsInv` | server/api.py:58-109 | with requests overlapping between rate limit, duplicate check, ingest and mark, the dedup set is exactly the remembered marks, and each mark follows its ingest |
| `IngestApi.RunKeepsInv` | server/api.py:58-109 | the same over every run, restarts included |
| `IngestApi.SecondIngestNeedsForgetting` | server/ingest_guards.py:69-97 | a key with an earlier mark is ingested again only after a mark found the set oversized and was past the TTL |
| `IngestApi.DuplicateImpliesCompleted` | server/api.py:80-82 | a "duplicate" answer implies an earlier completed ingest of the key |
| `IngestApi.DuplicateIffRemembered` | server/api.py:80-82 | past the first guards, "duplicate" is answered if and only if a mark of the key is remembered |
| `IngestApi.RepeatIsDuplicate` | server/api.py:103-109 | a repeat right after a stored request is a duplicate, if the limiter admits it |
| `IngestApi.OverlappingRequestsBothIngested` | server/api.py:58-109 | the accepted race: two overlapping requests with one key are both ingested |
| `IngestApi.OnlyStoredMarks` | server/api.py:103-109 | only a stored request touches the store or the set, so a 422 never burns its key |
| `IngestApi.OnceUnlessForgotten` | server/api.py:58-109 | one request at a time: two completed ingests of a key need a mark between them that found the set oversized after the TTL |
| `IngestApi.AtMostOncePerKey` | server/api.py:58-109 | the same from a fresh server, for any sequence of requests |
| `SpoolFile.SpoolRoundTrip` | client/transport.py:270-298 | what is written reads back if and only if no line is blank or holds a line break of `splitlines` |
| `SpoolFile.AppendAddsPieces` | client/transport.py:300-308 | appending to a terminated file adds the pieces of the line, one piece if it is storable |
| `SpoolFile.SeparatorSplitsAnEnvelope` | client/transport.py:274 | an envelope with U+2028 comes back as two lines |
| `SpoolFile.TwoSeparators` | client/transport.py:274 | an envelope with two of them comes back as three |
| `SpoolFile.TornAppendSwallowsNext` | client/transport.py:300-308 | an append cut short makes the next envelope part of the torn line |
| `SpoolFile.LinesOfParts` | client/transport.py:270-278 | the lines of a file are those up to its last newline and the pieces of what an append that broke off left behind it |
| `SpoolFile.WrittenAdds` | client/transport.py:300-308 | an append leaves the terminated lines and joins what it writes to what was behind them |
| `SpoolFile.LongestFitIsLongest` | client/transport.py:310-329 | the trim keeps the longest suffix within both 5000 lines and 50 MiB |
| `SpoolFile.LinesFitFile` | client/transport.py:310-329 | a file within the byte cap holds lines within it, so the cheap size check is enough |
| `SpoolFile.Keep` | client/transport.py:310-329 | the trim's two cuts, by count and then line by line, are that suffix |
| `SpoolFile.Spool.Read` | client/transport.py:270-278 | the non-blank pieces, or nothing when reading fails |
| `SpoolFile.Spool.Write` | client/transport.py:280-298 | a failed rewrite leaves the old file, an empty list removes it, anything else reads back, and ends with a newline |
| `SpoolFile.Spool.Append` | client/transport.py:300-308 | appended and trimmed; an append may break off after any number of characters, and is then not trimmed |
| `SpoolFile.Spool.Trim` | client/transport.py:310-329 | the longest suffix that fits, or the old content when a file operation fails |
| `Transport.RetryWait` | client/transport.py:248-267 | the wait is positive and at most five minutes, whatever the header says |
| `Transport.Sender.Attempt` | client/transport.py:196-245 | the outcome of one POST and the throttle window that it opens; it raises exactly for a body that is no object |
| `Transport.Sender.DeliverOne` | client/transport.py:172-194 | nothing while offline or throttled; at most two attempts; success, permanent rejection or "keep"; the exception of a body that is no object passes through |
| `Transport.Sender.DrainLines` | client/transport.py:113-134 | a prefix is handled oldest first; unless a line raises, the rest comes back from the first undelivered line on |
| `Transport.Sender.FlushBuffer` | client/transport.py:108-138 | the file is rewritten with what remains, and the count of handled lines returned; an exception comes before the rewrite |
| `Transport.Sender.AppendBuffer` | client/transport.py:300-308 | the spool grows by what was written, and the broken append, the swallowed line or the eviction is recorded |
| `Transport.Sender.Send` | client/transport.py:76-106 | size check, fresh envelope first, then the backlog, whose exception passes through; else spooled |
| `Transport.DrainStops` | client/transport.py:113-134 | a drain that stops short has handled every line before, and in the state that this left the next delivery failed or raised |
| `Transport.FlushLeavesSuffix` | client/transport.py:108-138 | a flush leaves exactly the suffix from that line on, each handled line got its reason, and an exception, a failed read or a failed rewrite leaves the old spool |
| `Transport.FlushRaisesAtValue` | client/transport.py:119-134 | a flush raises if and only if every line before some line that is JSON and no object is handled and the network is then open |
| `Transport.FlushKeepsValue` | client/transport.py:119-135 | no flush takes off such a line, nor anything behind it |
| `Transport.ValueLeavesByEviction` | client/transport.py:108-138 | over every run such a line, once terminated, leaves the spool by an eviction only |
| `Transport.SplitAroundValue` | client/transport.py:274 | an envelope whose text holds such a piece between two separators is spooled as three lines |
| `Transport.WedgedSpool` | client/transport.py:108-138 | a flush of those lines raises and leaves all of them if the network is open; otherwise only the torn head goes |
| `Transport.WedgedForGood` | client/transport.py:108-138 | with such a line first, no flush changes the spool, and every one with the network open raises |
| `Transport.WedgeIsReached` | client/transport.py:108-138 | an envelope and a silent server from which that happens |
| `Transport.SpoolOnlyLosesItsHead` | client/transport.py:270-329 | every step leaves a suffix of the spool, or of its terminated lines with what the step appended: order holds in the backlog and a removed line never reappears |
| `Transport.TornAppendLosesNext` | client/transport.py:300-308 | an append that breaks off inside its line swallows the next one whole, and that one's fate says so |
| `Transport.StepKeepsInv` | client/transport.py:76-138 | every send, flush and restart, with any requests and restarts at the server before each POST, keeps the delivery invariant |
| `Transport.NothingLeavesSilently` | client/transport.py:76-138 | over every run an envelope is a terminated line of the spool or left for a recorded reason, and each reason is true: a 2xx and a completed ingest, a non-retryable 4xx, the size check, not JSON, a line that `splitlines` takes apart, an append that broke off, an append behind one that broke off, or the head that an append pushed over a cap and its trim took off |
| `Transport.IngestedAtMostOnce` | client/transport.py:172-245 | end to end without server restarts, with requests of other agents between any two POSTs, retries and replays alone never ingest a key twice |
| `Transport.ThrottleIsRespected` | client/transport.py:172-267 | inside the window nothing is posted; a window lasts at most five minutes; a delivery posts at most twice |
| `Transport.FreshEnvelopeOvertakesBacklog` | client/transport.py:102-104 | order holds for the backlog only: a fresh envelope is the next one stored, ahead of the spool |
| `Health.RatchetIsMaximum` | server/analytics/health.py:420-440 | the branches amount to the maximum of the raw rank and the held rank, less one step with evidence, unless the worst disk was replaced |
| `Health.CycleKeepsMemory` | server/analytics/health.py:625-632 | one cycle lowers the remembered rank by at most one, only with evidence in a known cycle, and a blind cycle leaves it |
| `Health.DropsNeedEvidence` | server/pipeline.py:842-863 | over any run fed back on one disk, the sum of rank drops is at most the number of evidence-bearing cycles |
| `Health.FailingDiskNeedsFourSteps` | server/pipeline.py:842-863 | h4 reaches h0 on one disk only after four of them |
| `Health.FourStepsSuffice` | server/analytics/health.py:420-440 | and four are enough, so the bound is tight |
| `Health.FinalNotBelowRaw` | server/analytics/health.py:604-667 | the final rank is never below the raw rank nor the memory, and at least 2 when systemic |
| `Health.BlindCyclesForgetTheFloor` | server/analytics/health.py:625-632 | after any blind cycles a calm verdict is the larger of raw rank and memory, so it holds the shown rank if and only if the raw rank carries it or no floor had raised it |
| `Health.FloorFallsTwoRanks` | server/analytics/health.py:628-632 | a state that only the floor raised falls from h2 to h0 over one blind cycle |
| `Health.IndexBetweenMaxAndMean` | server/analytics/health.py:446-453 | the index lies between 100 less the larger loss and 100 less the mean loss, up to rounding |
| `Health.WorseSignalsNeverImprove` | server/analytics/health.py:383-453 | more damage or less resilience never lowers the raw rank nor raises the index |
| `Health.ColourAgreesWithState` | server/analytics/health.py:459-475 | for every verdict and history: the defensive clamp is dead, h0 never bad, h4 always, h2 and h3 never good, no colour exactly when unknown |
| `Health.StorageAloneIsNotSystemic` | server/analytics/health.py:504-558 | storage axes and trends alone are one mechanism |
| `Health.ThreeAxesLiftHealthy` | server/analytics/health.py:550-558 | three unrelated axes are systemic and lift a healthy device to h2 while its memory stays h0 |
| `Health.Horizon` | server/analytics/health.py:580-598 | the loop gives the bucket of the least depletion estimate, combined with the state's horizon |
| `Rollup.TargetDays` | server/db.py:1588-1622 | ascending: all days with rows at first, then from the last folded day, within 35 days and at least from yesterday, through today |
| `Rollup.RollupHeartbeats` | server/db.py:1417-1457 | every device of the day's snapshot ends with the larger of the stored and the new count, no other entry changes |
| `Rollup.SeededMissesNothing` | server/db.py:1588-1622 | a sweep that starts within 35 days of the last completed one misses nothing |
| `Rollup.StepKeepsInv` | server/main.py:128-149 | from any table, through every ingest, fold, failure and prune: the unfolded rows that a sweep will not read are exactly the missed ones |
| `Rollup.PruneLosesExactlyMissed` | server/db.py:1726-1757 | of the unfolded rows an age prune deletes exactly the aged ones that its own sweep missed or that are of that sweep's own day or later; none of the latter if it does not reach into that day |
| `Rollup.LosesIffPrunesMissed` | server/main.py:128-149 | over every run from any table, legacy ones included, something is pruned unfolded if and only if some prune deletes such a row |
| `Rollup.NothingPrunedUnfolded` | server/main.py:128-149 | from the creation on, with heartbeats stored within the day of their stamp and sweeps on time but failing between any two transactions: a row is age-pruned unfolded if and only if some prune reaches an unfolded row of its own sweep's day or later, so never if no prune reaches into that day |
| `Rollup.LegacyBackfillLosesNothing` | server/db.py:1588-1634 | the same from a legacy table of any age, if the first rollup is not interrupted |
| `Rollup.InterruptedBackfillLeavesBehind` | server/db.py:1588-1634 | a first backfill that fails after its oldest day leaves later heartbeats behind that are more than 35 days old |
| `Rollup.LateStoreLeavesBehind` | server/pipeline.py:393 | so does a heartbeat stamped before midnight and stored after the new day's sweep has read the old day |
| `Rollup.BehindIsLost` | server/main.py:128-149 | a row left behind is never folded, however many sweeps follow, and the prune that finds it aged deletes it unfolded |
| `Rollup.BehindCanBeLost` | server/main.py:128-149 | whenever heartbeats age at all, some run from there does lose it |
| `Rollup.InterruptedBackfillLoses` | server/db.py:1588-1634 | a legacy table of two heartbeats and a first rollup that fails after the first day: the second heartbeat is left behind and can be lost |
| `Rollup.LateStoreLoses` | server/pipeline.py:393 | from an empty database, a run that loses a heartbeat stored a second late |
| `Rollup.LongSweepLoses` | server/db.py:1726-1757 | and one in which a sweep that lasts a day loses a heartbeat of its own day |
| `Rollup.EventsAreFoldedAtBirth` | server/db.py:1969-2006 | every event is folded in the transaction that stores it, before the row cap |
| `Rollup.RefoldNeverLowers` | server/db.py:1417-1526 | no step lowers a stored count; it goes only with its whole day |
| `Rollup.StartMisses` | server/db.py:1588-1622 | a starting sweep misses, of the unfolded rows, exactly those before the first day of its list, and on a first backfill none |
| `Rollup.InterruptedBackfillSkipsDays` | server/db.py:1588-1622 | a first backfill stopped after its oldest day leaves older days out of every later list |
| `Archive.SplitJoin` | server/db.py:1691-1705 | joining with newlines and `split("\n")` is lossless for any lines without a newline |
| `Archive.GrownDecodes` | server/db.py:1683-1706 | a day archived in parts decodes to the old rows followed by the new ones, and its count is theirs |
| `Archive.Database.ArchiveAgedRows` | server/db.py:1640-1707 | the loop over groups adds to every device and day exactly its aged rows, and returns how many there were |
| `Archive.Database.PruneTable` | server/db.py:1741-1757 | with the delete after it, live rows keep exactly those not aged, and the archive gains the rest |
| `Archive.Database.DropArchive` | server/db.py:1765-1773 | the archive's own age drops whole days and nothing else |
| `Archive.Database.GetRawArchive` | server/db.py:1710-1723 | the rows of every archived day from the first asked for, in day order |
| `Archive.StepConserves` | server/db.py:1640-1757 | inserts, row caps and prunes move rows between live, archived and capped without loss or gain |
| `Archive.RowsAreConserved` | server/db.py:1640-1757 | over every run live and archived rows of a device and day are the inserted ones less the capped ones, as multisets |
| `Archive.NoRowTwice` | server/db.py:1640-1707 | no row is archived twice or both live and archived |
| `Archive.RowsNIsExact` | server/db.py:1694-1706 | `rows_n` is the decoded length, never zero |
| `Scores.SlimKeepsWhatIsRead` | server/db.py:113-139 | health, storage band, flags and error-chain stage read the same before and after |
| `Scores.SlimKeepsHealthDeep` | server/db.py:113-139 | so does every path below health |
| `Scores.SlimTwice` | server/db.py:113-139 | slimming is idempotent and leaves its marker |
| `Scores.CodecsExist` | server/db.py:104-110 | texts and verdicts as the other statements assume them exist, with a readable verdict that is not slim |
| `Scores.SlimmedVerdict` | server/db.py:142-166 | a slimmed row is settled and reads back as the slim verdict |
| `Scores.FullPassIsTidy` | server/db.py:142-166 | the reference pass leaves every row with ten newer ones of its device slim or unreadable |
| `Scores.BoundaryIsEnough` | server/db.py:142-166 | after one insert the row at offset ten is all that the reference pass would change |
| `Scores.DeletionKeepsTidy` | server/db.py:1774-1784 | deleting any rows keeps the table tidy |
| `Scores.StoredIsFullPass` | server/db.py:2009-2032 | on a tidy table O(1) slimming equals the whole pass |
| `Scores.Table.SlimStaleScores` | server/db.py:142-166 | rewrites the boundary row or nothing, and says which |
| `Scores.Table.StoreScores` | server/db.py:2009-2032 | insert, row cap and slimming; on a tidy table the result of the whole pass |
| `Scores.RunIsTidy` | server/db.py:2009-2032 | every run of inserts, row caps, age prunes and device removals keeps the table tidy |
| `Scores.RunIsGenuine` | server/db.py:142-166 | no row is ever changed but by one slimming, and never while it is its device's newest |
| `Scores.NewestIsVerbatim` | server/db.py:1774-1784 | the newest row of a device is exactly a stored one |
| `Shrink.KeepIds` | server/shrink.py:33-53 | the loop over devices gives the newest ten of each inside the snapshot |
| `Shrink.RewriteRow` | server/shrink.py:88-108 | one row: slimmed, compacted, untouched or skipped |
| `Shrink.RewriteJsonColumn` | server/shrink.py:56-109 | batches of 500 above a cursor handle each row up to the snapshot id exactly once and count each outcome; later rows are out of reach |
| `Shrink.RunScores` | server/shrink.py:137-147 | the scores part of the migration |
| `Shrink.OneCandidate` | server/shrink.py:79-108 | the next row of a batch moves the handled part on, whatever lies between |
| `Shrink.MigratedRow` | server/shrink.py:88-108 | a kept row keeps its verdict, another settles, and migrating again changes nothing |
| `Shrink.MigrationEstablishesTidy` | server/shrink.py:116-147 | on any legacy table the migration establishes what the server keeps row by row |
| `Shrink.NewestTenStayFull` | server/shrink.py:137-147 | a device's newest ten verdicts are never slimmed |
| `Shrink.SecondRunChangesNothing` | server/shrink.py:116-147 | a second run changes nothing and counts only the unreadable rows again |
| `DiskReadings.AllowedCount` | server/db.py:1184-1186 | exactly as many new keys pass as the limit leaves room for |
| `DiskReadings.Device.StoreDiskReadings` | server/db.py:1152-1209 | the statements together, key by key: history, cap, refusal and eviction |
| `DiskReadings.Device.EvictInactiveDiskKeys` | server/db.py:1139-1149 | key by key: every row stays if one is inside the window, and none otherwise |
| `DiskReadings.Device.CapKeys` | server/db.py:1195-1201 | the loop leaves every inserted key its newest rows and touches no other key |
| `DiskReadings.StepKeepsBounds` | server/db.py:1152-1209 | no call takes a device above 32 keys or a key above its cap |
| `DiskReadings.RunIsBounded` | server/db.py:1152-1209 | so over any run, whatever keys, receipts and clock readings, with at most 32 times the cap of rows |
| `DiskReadings.ReportedKeyKeepsHistory` | server/db.py:1202-1209 | an accepted key with a receipt inside the window loses rows only to its own cap, however long it was silent |
| `DiskReadings.StaleReceiptLosesHistory` | server/db.py:1202-1209 | with a receipt older than the window a silent key loses everything |
| `DiskReadings.SilentKeyIsEvictedByNewKeys` | server/db.py:1202-1209 | a silent key not accepted in the call loses its rows if and only if the call brings a new key |
| `DiskReadings.ActiveKeyIsSafe` | server/db.py:1139-1209 | a key with a row inside the window that the call does not report keeps every row |
| `RuleStats.ScanRule` | server/analytics/rulestats.py:102-126 | the loop over rows yields one report for each resolved end of a flagged run |
| `RuleStats.ScanDevice` | server/analytics/rulestats.py:129-149 | the three rules in order |
| `RuleStats.ScanIsExact` | server/analytics/rulestats.py:102-126 | reported are exactly the ends where a flagged row is followed by an unflagged one and an outcome is resolved |
| `RuleStats.ReportsAreFlaggedEnds` | server/analytics/rulestats.py:87-126 | a report ends at a flagged row of the window and has that end's outcome |
| `RuleStats.ReportsAreRecent` | server/db.py:1884-1903 | nothing reported is older than the lookback |
| `RuleStats.Database.RecordRuleOutcomes` | server/db.py:1829-1873 | the first outcome of an episode stays, and counters grow by exactly the rows really inserted |
| `RuleStats.Database.RunRulestatsScan` | server/db.py:1884-1915 | scan, record and prune; the prune may not be reached |
| `RuleStats.RecentInserts` | server/db.py:1829-1873 | the pruned table and one never pruned insert the same recent reports |
| `RuleStats.EpisodesCountOnce` | server/db.py:1829-1915 | over every run of sweeps a rule's counters are the distinct episodes ever reported, each under its first outcome |
| `RuleStats.TotalIsDistinctEpisodes` | server/db.py:1829-1915 | confirmed plus refuted is the number of distinct (device, end) pairs |
| `RuleStats.EverKeepsFirst` | server/db.py:1829-1873 | a later report never changes an earlier outcome |
| `TrustStaleness.Trust.UpsertSourceTrust` | server/db.py:5008-5059 | the row is replaced, and a missing stamp keeps the old one |
| `TrustStaleness.Trust.EvaluateTrust` | server/pipeline.py:294-362 | unknown sources ignored, an empty "ok" coerced, evidence only for what is then "ok" |
| `TrustStaleness.Trust.ReevaluateStaleness` | server/trust/staleness.py:77-124 | exactly the rows whose state changes with their age |
| `TrustStaleness.Trust.ApplySourceStaleness` | server/db.py:5088-5115 | state, weight and reason change where the evidence is the one read, nowhere else, and the count is theirs |
| `TrustStaleness.StepKeepsClock` | server/db.py:5008-5115 | no sweep moves an evidence clock, and an ingest only with evidence |
| `TrustStaleness.ClockIsLastEvidence` | server/trust/staleness.py:77-172 | over every interleaving, whatever the thresholds, the clock is the last evidence-bearing receipt |
| `TrustStaleness.EarnedIffThresholdNeverRises` | server/trust/staleness.py:77-172 | every interleaving leaves only weights that the last ingest earned, if and only if the floored threshold never rises from one sweep to the next |
| `TrustStaleness.FenceIsExact` | server/db.py:5088-5115 | a sweep's write takes effect if and only if no evidence was stored for the source since the read, receipts differing |
| `TrustStaleness.NoEvidenceNoFence` | server/db.py:5088-5115 | an ingest without evidence does not fence off a pending write |
| `TrustStaleness.SameInstantNoFence` | server/db.py:5088-5115 | nor does evidence of the very instant that was read |
| `TrustStaleness.RiseRevives` | server/trust/staleness.py:77-172 | for any rise above the floor, a run from an empty table in which a write puts a failed source back to full weight |
| `NetLinks.Links.Canonical` | server/db.py:2607-2636 | usable links with the smaller id first, their ports along with it, and their keys |
| `NetLinks.Links.DeleteAll` | server/db.py:2637-2649 | exactly the rows of the given keys go |
| `NetLinks.Links.ReplaceNetLinks` | server/db.py:2592-2673 | stale keys of probed nodes deleted, every input upserted in order |
| `NetLinks.ReplacedAt` | server/db.py:2637-2673 | the row of a key: newest known ports, last facts, first sighting; gone if stale; else untouched |
| `NetLinks.UpsertedLoose` | server/db.py:2650-2673 | every input without a kind adds a row |
| `NetLinks.KeysAfter` | server/db.py:2592-2673 | exactly the derived keys remain at probed nodes, elsewhere the old ones with the derived ones; pairs stay in order |
| `NetLinks.SurvivorsKeepFirstSeen` | server/db.py:2650-2673 | a surviving key keeps its first sighting, and a link not derived and not at a probed node its whole row |
| `NetLinks.DirectionIsIrrelevant` | server/db.py:2611-2617 | writing any input links from the other end gives the same table |
| `NetLinks.IdempotentIffKindsKnown` | server/db.py:2592-2673 | a rerun changes only `last_seen` if and only if every usable link has a kind |
| `NetLinks.KindlessLinkIsDuplicated` | server/db.py:2650-2673 | one link without a kind is stored twice by two equal cycles |
| `PrintCounters.CounterJobs` | client/collectors/print_jobs.py:304-358 | the loop's jobs and the next baselines |
| `PrintCounters.Collector.CollectViaCounter` | client/collectors/print_jobs.py:426-457 | a reseed, or an unreadable state file, starts from nothing; a state file that is not written leaves the old baselines, and a torn one none |
| `PrintCounters.SeenAreRetained` | client/collectors/print_jobs.py:350-357 | every queue of a sweep keeps its reading, however many there are |
| `PrintCounters.OrderIsKept` | client/collectors/print_jobs.py:350-357 | map order stays the order of last appearance |
| `PrintCounters.EvictedAreOldest` | client/collectors/print_jobs.py:350-357 | a dropped name was last seen no later than any that stays |
| `PrintCounters.SoftCap` | client/collectors/print_jobs.py:350-357 | never more than 500 names, unless one sweep saw more |
| `PrintCounters.SweepOfQueue` | client/collectors/print_jobs.py:320-349 | a sweep emits for a queue exactly its delta against its own baseline |
| `PrintCounters.PagesAreConserved` | client/collectors/print_jobs.py:304-358 | over every run, unwritten and torn state files included, pages emitted never exceed pages printed plus those emitted with the old file left; while no baseline is lost, emitted and owed equal printed if and only if no sweep that emitted left the old file |
| `PrintCounters.TwiceIsUnsaved` | client/collectors/print_jobs.py:122-124 | pages are counted twice exactly by the sweeps that emit and leave the old file |
| `PrintCounters.UnsavedSweepCountsTwice` | client/collectors/print_jobs.py:122-124 | the next sweep emits the same pages again if and only if the old file was left |
| `PrintCounters.SharedNameIsExact` | client/collectors/print_jobs.py:321-339 | queues under one clipped name: a sweep emits no more than the last one's delta if and only if every other reading is the baseline or zero |
| `PrintCounters.SharedNameVersusPrinted` | client/collectors/print_jobs.py:321-339 | two queues under one clipped name over two sweeps: what is emitted, and that it is no more than was printed if and only if the earlier listed queue started at zero and stays below the other's reading, or started no higher than it |
| `PrintCounters.SharedClippedName` | client/collectors/print_jobs.py:321-324 | two such queues emit pages that nobody printed |
| `Restore.Directory.FreeCounter` | server/backup.py:209-214 | the first counter whose set-aside database name is free |
| `Restore.Directory.Restore` | server/backup.py:185-235 | a bad copy touches nothing; else the renames, and their undo in reverse order, under any failures |
| `Restore.FailureIsUndone` | server/backup.py:223-231 | a failure whose undos work leaves the live triple exactly as before |
| `Restore.FailureLeavesNoTrace` | server/backup.py:223-231 | with fresh set-aside names the whole directory too |
| `Restore.FailureLosesNothing` | server/backup.py:223-231 | even when undos fail each original is under its live or set-aside name, and a live name holds its own content or nothing |
| `Restore.SuccessIsComplete` | server/backup.py:214-235 | the target holds the copy, no journal is live, the old triple is set aside, nothing else changes |
| `Restore.EarlierDatabasesStay` | server/backup.py:207-235 | no restore, failed or not, overwrites a database set aside earlier |
| `Restore.MovedUpTo` | server/backup.py:214-222 | a live file is renamed if and only if neither its own rename nor that of a live file before it fails |
| `Restore.EarlierJournalOverwritten` | server/backup.py:207-231 | what each set-aside name holds after any outcome: the live file if it was renamed and stays, nothing if it was renamed and went back, else what was there; so an earlier file goes if and only if the live one was renamed |
| `Restore.StrandedJournalIsLost` | server/backup.py:207-231 | a journal stranded by a failed undo is lost to the next restore of that second |
| `Updater.SelectUpdate` | client/updater.py:114-137 | a version is selected if and only if it is well formed, within size, signed where a secret is held, and strictly newer |
| `Updater.Agent.Check` | client/updater.py:248-293 | attempt, state, report and restart flag of one check, with the state file unreadable or its write not begun or broken off |
| `Updater.Agent.Apply` | client/updater.py:296-343 | signature, counted attempt, download and hand-over |
| `Updater.RepeatsAreHeldBack` | client/updater.py:409-420 | over any run of reports one is held back if and only if it is good news and equal to the report before it, so a failure never is |
| `Updater.Agent.ReconcileAfterRestart` | client/updater.py:226-246 | cleared at the target; silent inside the grace period; a failure after it |
| `Updater.ExhaustedIsReported` | client/updater.py:286-293 | a version without attempts is reported failed at every check, and only a handed-over one as updating |
| `Updater.MismatchChangesNothing` | client/updater.py:299-317 | a signature mismatch, readable state or not, burns no attempt and asks for no package |
| `Updater.AttemptIsCounted` | client/updater.py:313-321 | an attempt is counted before its download; a write not begun counts nothing, and one that breaks off takes the count away |
| `Updater.CounterIsExact` | client/updater.py:226-455 | over every run, with any offers, versions and fortunes of the state file, the stored counter is the number of downloads recorded since it last started over, and at most three |
| `Updater.DownloadedIffBelowThree` | client/updater.py:286-343 | so a version is downloaded if and only if it is selected and rightly signed, the agent can apply it, and that number is below three or the state unreadable |
| `Updater.ThreePerStretch` | client/updater.py:226-455 | over every run at most three downloads for each start-over and the stretch before the first, plus those whose state was not written |
| `Updater.StepKeepsInv` | client/updater.py:226-343 | every check and restart keeps the counter and the recorded downloads of a version in step |
| `Updater.AtMostThreeDownloads` | client/updater.py:226-455 | if no offer returns to a replaced target and the version never goes back, a version is downloaded at most three times, three more for each fault of the state file, and once for each download whose state was not written |
| `Updater.ClearedOnlyAtTarget` | client/updater.py:226-246 | only a restart into the target clears the state, and only a write that breaks off destroys it |
| `Updater.SpellingKeepsState` | client/updater.py:238-241 | a target spelled otherwise than the running version is never cleared |
| `Updater.ReturningTargetStartsOver` | client/updater.py:430-450 | from an empty state: three downloads of a version, one attempt at another, three more |
| `Updater.RollbackStartsOver` | client/updater.py:226-246 | three, the version reached, a rollback, three more |
| `Updater.TornWriteStartsOver` | client/updater.py:447-450 | two, one whose state write breaks off, three more |
| `Updater.UnreadableStateStartsOver` | client/updater.py:440-445 | three, and one with the state file unreadable, which then counts as the first |
| `Updater.UnwritableStateNeverStops` | client/updater.py:447-450 | with a state file that is never written, any number |

## Left out

- HTTP, sockets, FastAPI routing, token and signature arithmetic, zip handling and scheduled tasks: only their outcomes appear.
- SQLite itself: tables are sequences or maps, a transaction is one step, timestamps that are compared as text are numbers.
- Compression of archive blobs, and columns that no statement reads.
- The damage, resilience, observability and confidence sums of the health verdict, its factor lists and texts: the two coordinates and the flags are inputs.
- Percentiles of the heartbeat rollup and the choice of the event keys that its cap keeps: a fold stores the count, the kept set is arbitrary.
- Printer readings and the other columns that the migration only compacts, and rows inserted while it runs.
- A crash of the agent in the middle of `send`, and 2xx answers by something other than the server.
- `stop`'s bounded join of the rescore thread, and the text kept in `last_error`.
- `validate_source` and what is extracted from a payload: the semantic status and emptiness of a reading are inputs.
- A failing `mkdir` in front of the updater's state write, which raises.
- A write that breaks off inside a UTF-8 character, which makes the spool or the print state raise at every later read.
- The fail-closed handling of rows with unreadable statuses or times in the staleness job and the rule scan: stored values are taken as well formed.
- Switching between event and counter mode of the print collector: runs stay in counter mode.
- An interrupt between a rename and the note of it in `restore`.
- Tray, dashboards, exports, discovery, certificates, configuration and schema validation.
- IngestGuards.LimiterIsExact: one way only; a run in which a check does come upon such an admission may still get the same answers.
