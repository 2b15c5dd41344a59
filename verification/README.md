# Receipt: job queue, receipt store and their helpers

A Dafny model of the parts of Receipt that keep state: the job queue with its in-memory index and lease protocol, the
append-only receipt store with the tables derived from it, the memory entries, the retry driver, and four smaller
algorithms. `dafny verify dfyconfig.toml` checks everything.

| file | models |
|---|---|
| `Jobs.dfy` | job records, the events of a job's stream and their reducer |
| `JobProtocol.dfy` | what each queue operation appends to a job's stream; the lease protocol over whole runs |
| `JobEffects.dfy`, `QueueEffects.dfy` | what each operation leaves of a job, and leaseNext, enqueue and the expiry of leases of all jobs, field by field |
| `CommandDelivery.dfy` | commands queued for a job and handed out at most once |
| `QueueIndex.dfy`, `LiveIndex.dfy` | the sorted lists, sets and counts of the index: what they must be, and the object that changes them in place |
| `QueueSpec.dfy`, `QueueSteps.dfy`, `LiveQueue.dfy` | all streams together: leaseNext, enqueue, singleton modes over runs; the queue object with every operation |
| `Interleaving.dfy` | several queue objects on one store, called in any order |
| `ReceiptStore.dfy`, `LiveReceipts.dfy` | the hash-linked receipt log, stream heads, branches and change log |
| `ChangeFeed.dfy`, `JobProjection.dfy` | the list of changed streams and the incrementally kept job projection |
| `QueueTables.dfy` | the queues' store read off the receipt tables and the job projection |
| `Memory.dfy` | memory entries, written through and rebuilt |
| `Driver.dfy` | the retry driver, running on the queue object |
| `StdoutLines.dfy`, `OverlapSweep.dfy`, `DagWalk.dfy`, `Continuation.dfy` | chunked JSON lines, overlapping control jobs, the dependency printout, continued runs |

How the pieces fit. A job is the fold of its stream, and every queue operation is a function from a stream to a longer
one (`JobProtocol.Apply`). Every stream any run of operations can build is `Good`, and the safety results are about all
good streams. The queue object is proved to do exactly those operations; its index is proved to be, after every change,
the one a rebuild from the indexed jobs would give. Streams may grow between operations because other queues write them
too, so every operation is specified with the index lagging behind: an indexed job is shown as some earlier part of its
stream left it. Enqueue is an exact step decided from that index, and the singleton guarantees need no more than that
every stored job has been discovered. LeaseNext is optimal where the index is in step. `Interleaving.dfy` shows
that calls on any number of queue objects over one store, in any order, make such a history and that each queue keeps its
invariant through the calls of the others.

A queue reads a job through its projection row where there is one. `LiveQueue.JobStore` keeps those rows as emitEvent
does; a row shows its job exactly, except that after a heartbeat a running job may still show as leased (`Shown`).
`JobProjection.dfy` has the tables themselves and the sync of all changed streams; `QueueTables.dfy` shows that emitting
on those tables does to job streams and rows what the queue's own store does.

The definitions everything is stated with mirror the source one to one: `Jobs.Reduce` the job reducer
(src/modules/job.ts:147-288), `JobProtocol.EventsOn` the branches of the queue operations
(src/adapters/sqlite-queue.ts:690-1093), `QueueSpec.EnqueueStep` and `QueueSpec.LeasedNext` the two operations on the
whole queue, `ReceiptStore.AppendTo` the append transaction (src/adapters/sqlite.ts:71-148), `Memory.ReduceMemory` the
memory reducer (src/adapters/memory-tools.ts:77-108) and `StdoutLines.Handled` the handling of one line
(src/adapters/codex-executor.ts:603-664).

The contracts of the queue object and of the driver are not stated through those definitions but in terms of the jobs'
fields: which job is leased first, what a new job looks like, what a report, an expired lease, a command or the outcome of
an attempt makes of a job, and what stays as it was (`JobEffects.dfy`, `QueueEffects.dfy`, `Driver.Settles`).

Results that differ from what one might expect of the code:

- A singleton cancel that saw a job as queued appends a cancellation even if the job is terminal by then
  (`TerminalAbsorbs`, with a state in `CancelReachesTerminal`); the reducer ignores it. This is the only receipt other
  than command records that a terminal job can get.
- A command stamped at time 0 reads as unconsumed and is handed out again (`RedeliveredExactlyAtZero`).
- A steering enqueue can be lost. It steers the session's most recently updated job among those the index shows as
  active, and discovery never refreshes an indexed job; if another queue ended that job, the command goes to a terminal
  job, nothing is created, and the session has no active job (`SteerCanBeLost`). The steered job is active exactly when
  no receipt since its copy was taken ended it, and while the session has one active job this is exactly when the command
  goes to that job (`SteerReachesActive`); with the index in step it always goes to the most recently updated active job
  (`SteerAppendsOneCommand`).
- The first append on a forked stream gets through exactly when the fork took an empty prefix of its parent
  (`FirstAppendOnFork`, with a store in `ForkRefused`): the runtime builds that receipt on the parent's last hash and
  passes no expected hash, so the store compares the parent's hash with the fork's own empty head.
- After the first heartbeat of an attempt the job's projection row still says "leased" where a replay says "running"
  (`HeartbeatRowExact`). No queue operation decides differently for it (`ShownDecidesAlike`) and the next sync replaces
  the row.
- Forgetting a memory entry leaves it in a later rebuild exactly when its scope is kept in another stream than the
  default one (`ForgetMatches`).
- A refresh trusts its copy of a terminal job, so it shows every job as it stands exactly when no such job got a command
  record after it was indexed (`RefreshOverRuns`, with a state in `CommandGoesUnseen`); other late receipts, such as the
  ignored cancellation, do no harm.
- A steering or cancelling enqueue can create a second live job of the session only while one is missing from the index,
  as when another queue creates it after the discovery (`SteerKeepsOneActive`, `CancelKeepsOneUnaborted`, with a state
  for both in `UndiscoveredBreaksOne`).
- The driver leaves a job unsettled when another worker holds it, and with nobody else acting only then (`RunDriver`).
- The peak of overlapping control jobs is an upper bound, and `PeakIsExact` says when it is the true peak.

## Model

| member | source | states |
|---|---|---|
| JobProtocol.ApplyGood | src/adapters/sqlite-queue.ts:690-1093 | every operation only appends, and appends only what the protocol allows at that point, so replaying never throws |
| JobProtocol.RunGood | src/adapters/sqlite-queue.ts:690-1093 | whatever run of operations built it, a job's stream satisfies the protocol |
| JobProtocol.GoodFold | src/modules/job.ts:147-288 | a queued job always has an attempt left; a leased or running one has a holder, and exactly those have a lease deadline |
| JobProtocol.LeasesAreNumbered | src/adapters/sqlite-queue.ts:900-920 | in every stream the leases are numbered 1, 2, 3, ... and never pass the job's own limit, itself between 1 and 8 |
| JobProtocol.RetryBetweenLeases | src/adapters/sqlite-queue.ts:690-709 | between any two leases of a job an active attempt was handed back by a retrying failure or expiry, so no two leases are current at once |
| JobProtocol.HolderIsLastLessee | src/adapters/sqlite-queue.ts:364-372 | the holder of an active job is the worker that took its last lease, unless that lease was taken under an empty worker id, which the code reads as no owner |
| JobProtocol.ForeignReportIsSilent | src/adapters/sqlite-queue.ts:924-1010 | a heartbeat, progress, completion or failure appends nothing exactly when the job is terminal or owned by another worker |
| JobProtocol.NeverTakenBack | src/modules/job.ts:147-288 | id, agent, lane, session, payload, creation time and attempt limit never change; abort requests and terminal statuses are for good |
| JobProtocol.TerminalAbsorbs | src/adapters/sqlite-queue.ts:748-1093 | on a terminal job an operation appends no receipt but command records, with the one exception of a singleton cancel that still sees the job as queued; the status stays |
| JobProtocol.TerminalCopy | src/modules/job.ts:147-288 | where no command is consumed twice, a copy taken of a terminal job is out of date exactly when a command record came after it |
| JobProtocol.EndedIsTerminal | src/modules/job.ts:147-288 | a job that was not terminal is terminal now exactly when a cancellation, or a completion, final failure or final expiry of the active job, came since |
| JobProtocol.HeartbeatKeepsShown | src/adapters/sqlite-queue.ts:471-486 | a heartbeat's two-column update keeps a job's projection row showing the job, but for "leased" in place of "running" |
| JobProtocol.ShownDecidesAlike | src/adapters/sqlite-queue.ts:443-452 | on such a row every operation emits what it would emit on a replay of the stream |
| JobProtocol.MeasureDecreases | src/modules/job.ts:147-288 | the number of status changes a job can still have strictly decreases at each one, and nothing else moves it |
| JobProtocol.StatusChangesBounded | src/adapters/sqlite-queue.ts:690-1093 | over any run a job changes status at most three times per allowed attempt, at most 24 times |
| JobEffects.LeaseGives | src/modules/job.ts:164-176 | what a lease makes of a queued job, field by field |
| JobEffects.ReportGives | src/adapters/sqlite-queue.ts:924-1010 | what an accepted heartbeat, progress, completion or failure makes of a job, field by field |
| JobEffects.CancelGives | src/adapters/sqlite-queue.ts:1012-1030 | a cancellation finishes a job that is not finished and leaves any other alone |
| JobEffects.ExpireGives | src/adapters/sqlite-queue.ts:690-709 | a leased or running job with a nonzero deadline not after now loses its lease, and no other |
| JobEffects.CommandGives | src/adapters/sqlite-queue.ts:1032-1069 | the recorded command carries what it was sent with; aborting a queued job cancels it |
| JobEffects.ConsumeGives | src/adapters/sqlite-queue.ts:1071-1093 | exactly the commands under the id of a waiting one are stamped |
| JobEffects.StopGives | src/adapters/sqlite-queue.ts:748-772 | a job shown as queued is canceled, any other gets an abort command, by one receipt |
| JobEffects.SteerGives | src/adapters/sqlite-queue.ts:774-791 | one receipt records the steer command with the enqueued payload and session |
| CommandDelivery.RunStampsTheDue | src/adapters/sqlite-queue.ts:1071-1093 | in any run with fresh command ids one call stamps exactly the unconsumed commands of the wanted kinds and leaves all other commands and the rest of the job alone |
| CommandDelivery.RunDistinctIds | src/adapters/sqlite-queue.ts:1032-1069 | a run with fresh command ids never gives a job two commands with the same id |
| CommandDelivery.DueInOrder | src/adapters/sqlite-queue.ts:1077 | the commands handed out are all the unconsumed ones of the wanted kinds, each once and in queue order |
| CommandDelivery.RedeliveredExactlyAtZero | src/adapters/sqlite-queue.ts:1077 | asking again at once returns nothing, except that commands stamped 0 all come back |
| CommandDelivery.DeliveredAtMostOnce | src/adapters/sqlite-queue.ts:1032-1093 | over any run with fresh command ids no command stamped at a nonzero time is handed out twice |
| CommandDelivery.RunTakesPending | src/adapters/sqlite-queue.ts:1071-1093 | a run with fresh command ids and nonzero clock values never consumes a command that is consumed already |
| CommandDelivery.RunTerminalCopy | src/adapters/sqlite-queue.ts:1032-1093 | so in every such run a copy of a terminal job is out of date exactly when a command record came after it |
| QueueIndex.OrderIsStrictTotal | src/adapters/sqlite-queue.ts:201-209 | both comparators are strict total orders on jobs with different ids |
| QueueIndex.OrdersAre | src/adapters/sqlite-queue.ts:201-209 | the queue order is lane (chat, collect, steer, follow-up), then earlier creation, then lower id; the recent order is later update, then later creation, then higher id |
| QueueIndex.SortedUnique | src/adapters/sqlite-queue.ts:330-344 | a set of ids has only one sorted listing, so an insertion has only one correct place |
| QueueIndex.ViewDetermined | src/adapters/sqlite-queue.ts:243-253 | the indexed jobs determine both lists, the leased set, the session map and the counts |
| QueueIndex.RebuildWellFormed | src/adapters/sqlite-queue.ts:394-424 | a wholesale rebuild satisfies the index invariant: both lists sorted and complete, no empty session bucket, counts exact |
| QueueIndex.IncrementalEqualsRebuilt | src/adapters/sqlite-queue.ts:374-431 | however an index was kept up to date, it equals a rebuild from any listing of its jobs |
| QueueIndex.RemovedWellFormed | src/adapters/sqlite-queue.ts:374-384 | taking a job out of both lists, the sets and the counts leaves the index of the remaining jobs |
| QueueIndex.AddedWellFormed | src/adapters/sqlite-queue.ts:385-391 | putting a job into its places gives the index of the enlarged job set |
| LiveIndex.JobIndex.InsertJobId | src/adapters/sqlite-queue.ts:330-344 | binary search: the result is sorted and has the old ids and the new one |
| LiveIndex.JobIndex.Upsert | src/adapters/sqlite-queue.ts:374-392 | changing the fields in place keeps the index invariant, stores the job, raises the version by one; the update time is the latest of the old one and the times of the job |
| LiveIndex.JobIndex.Reset | src/adapters/sqlite-queue.ts:394-431 | the rebuild, with the version kept exactly when it was above 0 and the jobs are unchanged, the changed jobs returned, and the update time the latest time of any job |
| LiveIndex.SameSizeSameJobs | src/adapters/sqlite-queue.ts:394-431 | equal size and no new or differing job mean equal job maps |
| LiveIndex.ChangedMembers | src/adapters/sqlite-queue.ts:426-431 | the returned list has exactly the listed jobs that are new or differ from the indexed ones |
| LiveQueue.Queue.constructor | src/adapters/sqlite-queue.ts:225-253 | a new queue over an existing store starts with an empty, valid index |
| LiveQueue.Queue.LoadAuthoritativeJob | src/adapters/sqlite-queue.ts:443-469 | returns the projection row if there is one, else the replay; either way the job as it stands, but for "leased" in place of "running" after a heartbeat; the index follows and no other entry changes |
| LiveQueue.Queue.Emit | src/adapters/sqlite-queue.ts:471-514 | one receipt is appended, the job's row is rewritten or, for a heartbeat, touched in two columns, and the job is indexed as its longer stream folds |
| LiveQueue.Queue.LeaseJob | src/adapters/sqlite-queue.ts:900-922 | a queued job is leased to the worker for its next attempt, with a deadline one lease of at least a second from now; a leased or running job the worker holds is handed back; otherwise nothing |
| LiveQueue.Queue.Report | src/adapters/sqlite-queue.ts:924-1010 | a missing job, a finished one and one held by another named worker get no receipt; else a heartbeat renews the deadline, progress overrides the given result fields, a completion stores exactly the given result, a failure requeues the job while an attempt is left and a retry is not ruled out and else fails it; nothing else of the job changes |
| LiveQueue.Queue.Cancel | src/adapters/sqlite-queue.ts:1012-1030 | a stored job that is not finished is canceled with the reason and an abort request; a finished one is left alone |
| LiveQueue.Queue.AddCommand | src/adapters/sqlite-queue.ts:1032-1069 | the command with the given id, kind, payload, author and time is recorded, unconsumed; an abort is an abort request and also cancels a queued job |
| LiveQueue.Queue.ConsumeCommands | src/adapters/sqlite-queue.ts:1071-1093 | returns all commands of the wanted kinds that wait, each once, stamped, in queue order; stamps what has the id of one of them, and nothing else of the job changes |
| LiveQueue.Queue.HandleExpiredLeases | src/adapters/sqlite-queue.ts:690-709 | with the index in step, exactly the leased or running jobs whose nonzero deadline is not after now lose their lease, and none such is left; always, only such jobs do; a job that loses its lease has no owner and is queued if it had an attempt left, else failed; the jobs reported as changed are those whose index entry differs |
| LiveQueue.Queue.LeaseNext | src/adapters/sqlite-queue.ts:861-898 | nothing happens but expiries and the one lease, of a job that was queued, not asked to abort, and of a wanted agent and lane; with the index in step exactly the jobs past their deadline lose their lease first, and of all such jobs the one leased comes first by lane (chat, collect, steer, follow-up), then creation time, then id; there is none only when no job may be leased |
| LiveQueue.Queue.ActiveBySession | src/adapters/sqlite-queue.ts:718-725 | each indexed job of the session that is not terminal, once |
| LiveQueue.Queue.AbortPrior | src/adapters/sqlite-queue.ts:748-772 | each prior job gets a cancellation or an abort command according to how the index shows it |
| LiveQueue.Queue.HandlePrior | src/adapters/sqlite-queue.ts:809-827 | in cancel mode every prior job is stopped; in steer mode the most recently updated one gets one command and is handed back; without prior jobs nothing happens |
| LiveQueue.Queue.EnqueueJob | src/adapters/sqlite-queue.ts:801-859 | whatever the index shows: a known job is handed back; a steering enqueue with a prior job leaves that job, the one updated last, the payload as a steer command; any other creates its job, field by field as asked, and a cancelling one also stops every prior job as the index shows it; nothing else changes |
| LiveQueue.Queue.Enqueue | src/adapters/sqlite-queue.ts:793-859 | with discovery before it, the same, decided from an index that has every stored job, in whatever earlier form |
| LiveQueue.Queue.Discover | src/adapters/sqlite-queue.ts:639-670 | every stored job the index lacks is indexed, the others are left as they were, so every stored job is discovered |
| LiveQueue.Queue.RefreshAll | src/adapters/sqlite-queue.ts:561-590 | nothing happens to streams but expiries, and those only if asked for; where the rebuild shows every job as it stands the index ends in step and, if asked, exactly the jobs past their deadline lose their lease; the result lists, most recent first, exactly the jobs changed by the rebuild, unless it is the first, or by the expiries |
| LiveQueue.Queue.RefreshPart | src/adapters/sqlite-queue.ts:608-637 | reading again only unknown and non-terminal jobs leaves the index as a full refresh would |
| QueueSteps.RefreshShowsStored | src/adapters/sqlite-queue.ts:561-590 | where no command is consumed twice, a refresh shows every job as it stands exactly when no job indexed as terminal got a command record since it was indexed |
| QueueSteps.RefreshOverRuns | src/adapters/sqlite-queue.ts:561-590 | the same, without that proviso, over streams left by runs with fresh command ids and nonzero clock values |
| QueueSteps.CommandGoesUnseen | src/adapters/sqlite-queue.ts:566-571 | a job indexed as terminal that gets a command from elsewhere is shown by every refresh without it |
| QueueSteps.StaysInStep | src/adapters/sqlite-queue.ts:454-514 | an index in step with the streams stays so through any operation on one job |
| QueueSteps.SortedByRecent | src/adapters/sqlite-queue.ts:711-716 | sorting the session's jobs loses none and puts the most recently updated first |
| QueueSpec.EnqueueContinues | src/adapters/sqlite-queue.ts:793-859 | enqueue never shortens or rewrites a stream and creates at most its own job |
| QueueEffects.CreateGives | src/adapters/sqlite-queue.ts:826-852 | the new job: agent, payload, lane (collect by default), mode, trimmed session, creation time as asked; two attempts by default, else the asked number kept between 1 and 8; queued, without owner, result or commands |
| QueueEffects.EnqueueStepDoes | src/adapters/sqlite-queue.ts:793-859 | what an enqueue leaves of every stored job, in terms of the jobs' fields, whatever the index shows |
| QueueEffects.EligibleMayLease | src/adapters/sqlite-queue.ts:727-746 | a job may be leased when it is queued, not asked to abort, and of an agent and a lane that is asked for, if any is, names compared without the white space around them |
| QueueEffects.ExpireAllLapses | src/adapters/sqlite-queue.ts:690-709 | after expiring all overdue leases exactly the jobs past their deadline lost theirs, and none is past it |
| QueueEffects.LeasedNextIsFirst | src/adapters/sqlite-queue.ts:861-898 | leaseNext in terms of the jobs' fields |
| QueueSpec.ActiveIsPrior | src/adapters/sqlite-queue.ts:718-725 | an indexed job of the session that is active in its stream is found by the enqueue, however old its indexed form |
| QueueSpec.AbortedPrior | src/adapters/sqlite-queue.ts:748-772 | a singleton cancel leaves a prior job terminal or asked to abort, however old its indexed form |
| QueueSpec.SteerKeepsOneActive | src/adapters/sqlite-queue.ts:793-859 | a steering enqueue keeps the session's active job the only one exactly when it does not create its job while an active job of the session is missing from the index |
| QueueSpec.CancelKeepsOneUnaborted | src/adapters/sqlite-queue.ts:793-859 | the same for a cancelling enqueue and jobs without an abort request |
| QueueSpec.UndiscoveredBreaksOne | src/adapters/sqlite-queue.ts:793-859 | a state where both fail: another queue's job of the session, not discovered, is joined by a second one that is active and without an abort request |
| QueueSpec.CancelReachesTerminal | src/adapters/sqlite-queue.ts:748-759 | a state where a terminal job's stream gets one more cancellation: another queue canceled the job, the index still shows it as queued |
| QueueSpec.SteerSessionsHaveOneJob | src/adapters/sqlite-queue.ts:793-859 | over any history in which every enqueue has discovered the stored jobs and every enqueue of the session steers, the session never has two jobs that are not terminal |
| QueueSpec.SteerAppendsOneCommand | src/adapters/sqlite-queue.ts:774-826 | a steering enqueue with a job of the session active in its stream adds one steer receipt to the most recently updated of the jobs shown as active and changes nothing else; with the index in step that is the most recently updated of the active jobs themselves |
| QueueSpec.SteerReachesActive | src/adapters/sqlite-queue.ts:774-826 | the steered job is active exactly when no receipt since its indexed copy was taken ended it; while the session has one active job, exactly then it is the one steered |
| QueueSpec.SteerCanBeLost | src/adapters/sqlite-queue.ts:639-665 | a history in which it is not: another queue cancels the indexed job, the next steering enqueue steers that terminal job, creates nothing, and no job of the session is active |
| QueueSpec.CancelSessionsHaveOneLiveJob | src/adapters/sqlite-queue.ts:793-859 | over any history in which every enqueue has discovered the stored jobs and every enqueue of the session cancels, at most one of its jobs is neither terminal nor asked to abort |
| Interleaving.Perform | src/adapters/sqlite-queue.ts:793-1093 | any call on one queue makes one move of the shared store, an enqueue move for an enqueue, and leaves every other queue on the store valid |
| Interleaving.Interleave | src/adapters/sqlite-queue.ts:793-1093 | calls on any queues over one store in any order: a session all of whose enqueues steer ends with at most one job that is not terminal, one all of whose enqueues cancel with at most one neither terminal nor asked to abort |
| ReceiptStore.AppendKeepsSound | src/adapters/sqlite.ts:71-144 | stream sequence numbers stay 1 to n, heads hold count and last hash, hashes and each stream's receipt ids stay unique, the change log follows, and branches equal the fold of their stream |
| ReceiptStore.RunSound | src/adapters/sqlite.ts:71-144 | the same for the tables after any sequence of appends by any writers |
| ReceiptStore.BranchesFollow | src/modules/branch-meta.ts:20-33 | the upserted branches table is the branch reducer's fold of the branch-meta stream |
| ReceiptStore.QueriesAgree | src/adapters/sqlite.ts:150-180 | count, head and take agree with read for every limit, negative ones included |
| ReceiptStore.VersionTellsChange | src/adapters/sqlite.ts:182-192 | over any run of appends a stream's version is unchanged exactly when its receipts are |
| ReceiptStore.ChainsAreLinked | src/adapters/sqlite.ts:71-85 | if writers pass no expected hash or the receipt's own, each receipt names the hash of the one before it |
| ReceiptStore.OneWinnerPerHead | src/adapters/sqlite.ts:71-85 | of all appends prepared on the same head of a stream at most one ever succeeds |
| ReceiptStore.FirstAppendOnPrefix | packages/core/src/runtime.ts:269-285 | the first append on a fork passes the head check exactly when the prefix taken of the parent's chain is empty |
| ReceiptStore.FirstAppendOnFork | packages/core/src/runtime.ts:269-285 | for a stream forked at a position of a stored parent that is no fork itself, exactly when the position is 0 |
| ReceiptStore.ForkRefused | packages/core/src/runtime.ts:303-321 | a store where it fails: a parent with one receipt, forked after it |
| LiveReceipts.ReceiptTables.Append | src/adapters/sqlite.ts:71-144 | the table-by-table transaction does exactly one append step or nothing, and reports which check refused it: a moved head, or a stored receipt with the same hash or the same stream and id |
| ReceiptStore.HeadMovesWithReceipts | src/adapters/sqlite.ts:71-85 | over any appends the head hash of a stream is unchanged exactly when the stream got no receipt |
| LiveReceipts.ReceiptTables.Save | src/adapters/sqlite.ts:202-211 | a save fails its head check exactly when another process appended to the branch-meta stream after the head was read; a save that gets through reads back as saved, in one receipt built on the last one |
| ChangeFeed.FeedUnique | src/db/client.ts:226-289 | there is one list that has each changed stream once, with its greatest number, in rising order |
| ChangeFeed.MaxIsLatest | src/db/client.ts:233-257 | grouping by stream finds the same latest changes as reading the log in order |
| ChangeFeed.ListChangedStreams | src/db/client.ts:226-289 | both code paths return that list, of exactly the streams under jobs/ |
| JobProjection.NothingDueAtLatest | src/db/projectors.ts:245-260 | with the offset at the last receipt no stream is due: a second sync does nothing |
| JobProjection.DueIsChanged | src/db/projectors.ts:248-255 | a sync goes through exactly the job streams changed since the offset |
| JobProjection.SyncedOne | src/db/projectors.ts:144-228 | syncing a stream makes its job's rows equal the replay, keeps every other exact job exact, and can fail only on a repeated command id |
| JobProjection.AppendKeepsExact | src/db/projectors.ts:245-264 | an append makes its own stream due and leaves the replay of all others, so rows stay exact wherever a sync would not look |
| JobProjection.HeartbeatRowExact | src/db/projectors.ts:230-242 | after the heartbeat's two-column update the row equals the replay exactly when the job was already running under this worker |
| JobProjection.JobTables.constructor | src/db/projectors.ts:245-255 | empty tables with the offset at 0 are right over any sound store: every stored job stream is due |
| JobProjection.JobTables.SyncStream | src/db/projectors.ts:144-228 | one transaction: job row and pending commands are rewritten from the replay, or nothing changes |
| JobProjection.JobTables.Emit | src/adapters/sqlite-queue.ts:488-514 | append then sync keeps the projection invariant and makes the one job exact |
| JobProjection.JobTables.EmitHeartbeat | src/adapters/sqlite-queue.ts:471-486 | the fast path keeps the projection invariant |
| JobProjection.JobTables.SyncChanged | src/db/projectors.ts:245-264 | every job row equals its stream's fold and the pending table has exactly the unconsumed commands; nothing is due afterwards; a failed sync leaves the same streams due |
| QueueTables.AppendedLogs | src/adapters/sqlite.ts:71-144 | an accepted append of a job event extends exactly that job's stream by one receipt |
| QueueTables.EmittedRows | src/adapters/sqlite-queue.ts:488-514 | appending and syncing one stream leaves the projection rows that the queues' store has after the emit |
| QueueTables.HeartbeatRowsAre | src/adapters/sqlite-queue.ts:471-486 | so does the heartbeat's two-column update |
| QueueTables.ExactRowsAreShown | src/db/projectors.ts:245-264 | tables that are exact for every job, as a sync leaves them, are rows that show every stored job as it stands |
| Memory.FoldedNewestFirst | src/adapters/memory-tools.ts:77-108 | the folded list has exactly the entries never forgotten after being committed, newest first, later commits ahead on ties |
| Memory.AccessesNewestFirst | src/adapters/memory-tools.ts:77-108 | the folded access records are the recorded ones, newest first |
| Basics.TrimTrims | src/adapters/memory-tools.ts:495 | trimming a text removes exactly the white space at both its ends |
| Memory.DefaultStreams | src/adapters/memory-tools.ts:161-162 | a scope's default stream is always one a rebuild reads; cleaning is idempotent and replaces hyphens too |
| Memory.SafeScopeIs | src/adapters/memory-tools.ts:161-162 | what cleaning does to each character, and the name of the default stream |
| Memory.CommitMatches | src/adapters/memory-tools.ts:494-535 | writing a new entry through keeps the table a rebuild finds exactly when its stream is one a rebuild reads |
| Memory.ForgetMatches | src/adapters/memory-tools.ts:227-264 | forgetting keeps the table a rebuild finds exactly when the entry's scope is kept in its default stream |
| Memory.RunEqualsRebuild | src/adapters/memory-tools.ts:227-535 | after any run of commits, forgets and access records with fresh ids and default streams, the table is what a rebuild produces |
| Memory.MatchIsUnique | src/db/projectors.ts:792-850 | a rebuild can produce only one table |
| Memory.MemoryTables.Commit | src/adapters/memory-tools.ts:494-535 | empty text is refused; otherwise the entry with the trimmed text, the tags that are not blank in their order, and the given metadata is in its stream and in the table |
| Memory.MemoryTables.Forget | src/adapters/memory-tools.ts:227-264 | an unknown entry or one of another scope is left alone, any other is gone from the table |
| Memory.MemoryTables.Rebuild | src/db/projectors.ts:792-850 | no insertion clashes, the table is exactly the folded entries, and a table kept by write-through comes out unchanged |
| Memory.MemoryTables.ReadEntries | src/adapters/memory-tools.ts:349-368 | a scope's entries, all of them and newest first |
| Driver.CalmRun | src/adapters/sqlite-queue.ts:690-1093 | whatever other processes do short of leasing the job or reporting as another worker, the attempt number stays, no job becomes active and no holder changes |
| Driver.AttemptStarted | src/adapters/resonate-runtime.ts:129-146 | attempt ids strictly increase, and there are no more of them than leases taken, plus one for a job found active |
| Driver.BeginAttempt | src/adapters/resonate-runtime.ts:129-142 | a queued job is leased for its next attempt or turned terminal meanwhile; a job already active keeps its attempt; with nobody else acting a job no other worker holds is running for this worker with a fresh deadline |
| Driver.SettleAttempt | src/adapters/resonate-runtime.ts:167-182 | after the report no attempt is active, unless another worker holds the job; with nobody else acting a requested abort cancels the job, a success completes it with its result, and a failure requeues it while it may be retried, else fails it with its error |
| Driver.RunDriver | src/adapters/resonate-runtime.ts:109-184 | the loop ends; unless another worker holds the job at the start, it is missing or terminal at the end; no attempt id is used twice and there are at most the remaining attempts plus one; with nobody else acting, on a job nobody else holds or wants aborted, it ends completed with the last attempt's result exactly when that succeeded, else failed with its error, after attempts that all failed but could be retried |
| StdoutLines.LinesRejoin | src/adapters/codex-executor.ts:625-631 | splitting into lines loses no character and leaves no newline over |
| StdoutLines.SplitInTwo | src/adapters/codex-executor.ts:625-631 | splitting chunk by chunk finds the lines of the whole text |
| StdoutLines.CountsAreRunning | src/adapters/codex-executor.ts:603-624 | stored counts are positive and are the numbers of running executions of each command |
| StdoutLines.TotalZero | src/adapters/codex-executor.ts:588-589 | the active count is 0 exactly when no command runs |
| StdoutLines.LatestAreLast | src/adapters/codex-executor.ts:649-663 | the kept message, token count, event type and event text are those of the last line that gives one; stock phrases give no text |
| StdoutLines.LatestMessageIsWritten | src/adapters/codex-executor.ts:603-664 | whenever no command runs, the latest message, if acceptable, is the last one queued for writing, even if it came while a command ran |
| StdoutLines.QueuedForWriting | src/adapters/codex-executor.ts:603-664 | which messages one more line queues for writing: the kept one when an execution ends and its own if acceptable, both only while no command runs |
| StdoutLines.LineConsumer.Consume | src/adapters/codex-executor.ts:625-666 | one chunk handles the newly completed lines in order and leaves the unfinished rest, without a newline, in the buffer |
| StdoutLines.LineConsumer.ConsumeAll | src/adapters/codex-executor.ts:818-820 | after the final flush the counts, latest texts, token count and queued writes depend only on the concatenated output |
| OverlapSweep.Sweep | src/factory-cli/analyze.ts:1158-1171 | an overlap is counted exactly for each job that starts before an earlier-ordered one ends; at no time are more jobs open than the reported peak |
| OverlapSweep.SortOpens | src/factory-cli/analyze.ts:1159 | sorting by creation time changes at no time how many jobs are open |
| OverlapSweep.SortKeepsTies | src/factory-cli/analyze.ts:1159 | jobs created at one time keep their order |
| OverlapSweep.OpenIs | src/factory-cli/analyze.ts:1160-1163 | a job is open from its creation on, and once it is terminal until it was last updated |
| OverlapSweep.OverlapsIs | src/factory-cli/analyze.ts:1162-1168 | a job overlaps an earlier-ordered one that is not terminal or was last updated after it was created |
| OverlapSweep.PeakIsExact | src/factory-cli/analyze.ts:1158-1171 | the reported peak is reached at some time exactly when it is reached as the last overlapping job starts |
| OverlapSweep.PeakIsOnlyABound | src/factory-cli/analyze.ts:1158-1171 | three jobs in a row are reported as a peak of 3 where at most 2 are ever open |
| DagWalk.ClosedReaches | src/factory-cli/investigate.ts:261-273 | a visited set closed under dependents that has the roots has everything a chain of dependencies leads to from a root |
| DagWalk.AppendHung | src/factory-cli/investigate.ts:264-267 | printing a task one level below a dependency, with no shallower line in between, keeps every printed task so placed |
| DagWalk.DagBuilder.Walk | src/factory-cli/investigate.ts:261-273 | terminates on any graph; every newly visited task has all its dependents visited |
| DagWalk.DagBuilder.Build | src/factory-cli/investigate.ts:242-284 | the roots in task order; one task line per task, followed by exactly its summary and blocked lines; the line each deeper one is read as hanging under, the last less indented before it, is a dependency one level up; a task at the top is a root or is led to by no root |
| Continuation.Latest | src/agents/run-target.ts:22-30 | the last continuation on a chain, None when there is none |
| Continuation.LatestContinuation | src/agents/run-target.ts:22-30 | the backward loop finds it |
| Continuation.ResolveContinuedRunTarget | src/agents/run-target.ts:32-61 | the target is the depth-th continuation of the parent, no run is passed twice, and it stops early only at the end of the chain or a run met before |
| Continuation.FollowedIsUnique | src/agents/run-target.ts:32-61 | chains, start and limit determine the runs passed |
| Continuation.NextBudgetIsFirst | src/agents/agent-continuation.ts:17-21 | the next budget is the first ladder value above the current one, and none exactly when no value is above |
| Continuation.LinksAreAbove | src/agents/agent-continuation.ts:17-21 | a ladder allows at most as many continuations in a row as it has values above the budget, and exactly that many if it is increasing |
| Continuation.RunClimbs | src/agents/agent-continuation.ts:39-92 | over any history with fresh run ids every continuation leads to a run with the next budget of the ladder |
| Continuation.ExhaustedContinues | src/agents/agent-continuation.ts:39-92 | an exhausted run that is not stuck continues as the new run and job with the first ladder value above its budget; without such a value, or when stuck, nothing happens |
| Continuation.ResolvesToTheEnd | src/agents/run-target.ts:32-61 | with a limit no smaller than the ladder values above the budget the target is always a run that was not continued |
| Continuation.DefaultLimitSuffices | src/agents/agent-continuation.ts:5 | with the ladder 10, 20, 40, 80 a chain has at most as many links as there are of these values above the budget, so the default limit of 32 reaches the end |

## Left out

- JobProtocol.StatusChangesBounded: counts status changes of the fold, not receipts; command records and repeated heartbeats are unbounded.
- QueueSteps.RefreshShowsStored: where a command is consumed twice, which takes a reused command id or a clock of 0, only one direction holds; the second stamp may change nothing.
- ReceiptStore.FirstAppendOnFork: the parent is not a fork itself; FirstAppendOnPrefix covers any parent chain, but how a fork's own receipts are relinked is not modelled.
- QueueIndex.OrderIsStrictTotal: takes `localeCompare` on ids as a strict total order; ids are modelled by their place in that order.
- LiveIndex.JobIndex.InsertJobId: a list is a sequence that the search rebuilds, not an array spliced in place.
- LiveQueue.Queue.LeaseNext: optimal only while the index is in step with the streams; with another queue's receipts not yet seen the code may pass over a job.
- LiveQueue.Queue.LeaseJob: with a projection, leases are taken under worker ids that are not empty; the code reads an empty id as no holder.
- Interleaving.Perform: where there are projection rows, leases are called for under worker ids that are not empty.
- LiveQueue.Queue.AddCommand: the lane of a command is left out, as its kind determines it, and so is the author of a cancellation, which the reducer drops.
- LiveQueue.Queue.Enqueue: loading the index for the very first time is a discovery here, not a full refresh.
- LiveQueue.Queue.RefreshAll: refresh windows and notification of waiters are not modelled, only the effect on index and streams and the list of changed jobs.
- LiveQueue.Queue.Emit: all receipts of one operation carry one receipt-clock value, and a queue operation with the update of the job's row is one atomic step over the store, as the write lock makes it within a process.
- JobProjection.JobTables.SyncChanged: atomic with respect to appends; the code sets the offset after awaits, so a foreign append in between can be skipped.
- JobProjection.JobTables.SyncStream: the stream of a job must replay without throwing; a throwing replay aborts the sync in the code.
- Memory.SafeScope: lower-cases ASCII letters only, and replaces every other character that the pattern does not keep by one underscore.
- Memory.MemoryTables.RecordAccess: appends the access record; the table of access records, an insert-only copy, is not modelled.
- Driver.RunDriver: other processes act between the driver's steps but take no lease on the job and do not report as another worker; what they do otherwise, and how they leave the job's row, is arbitrary.
- StdoutLines.LineConsumer.ConsumeAll: decoding a line, the choice of texts from an event and which messages qualify are parameters. Time stamps and the output tails attached to progress updates do depend on the chunks and are not modelled; nor are the writes themselves, only which messages are queued for writing.
- OverlapSweep.Sweep: one session's jobs; grouping by session and the anomaly records are not modelled.
- DagWalk.DagBuilder.Build: the order of tasks and of children is a parameter that keeps exactly the members; the list of edges is not modelled, and the rendered text of a line is its task id.
- Continuation.RunClimbs: a run exhausts exactly the budget it was granted, and the emitted continuation is appended to that run's own stream.
- Payloads, results and metadata are opaque values with equality; `abortRequested` missing and false are one value.
- SQLite and its locking, file locks and git calls, promises, waiters, timers and snapshots handed to waiters.
- Process control, stall and completion polling, HTTP, embeddings and semantic search, text rendering and the agents themselves.
