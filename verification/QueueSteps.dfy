/** The effect of each queue operation on the stored streams, in the terms the methods of LiveQueue need. */
module QueueSteps {
  import opened Basics
  import CommandDelivery
  import opened Jobs
  import opened JobProtocol
  import opened QueueIndex
  import opened QueueSpec

  function LogAt(logs: Logs, id: JobId): Log {
    if id in logs then logs[id] else []
  }

  // ---------------------------------------------------------------------------------------------------------------
  // Reading a job through its projection row

  /** What loading a job finds: its projection row if there is one, else the fold of its stream. */
  function SeenAt(logs: Logs, rows: JobMap, id: JobId): Option<Job> {
    if id in rows then Some(rows[id]) else JobAt(logs, id)
  }

  function SeenIn(logs: Logs, rows: JobMap): JobMap {
    map id | id in logs && SeenAt(logs, rows, id).Some? :: SeenAt(logs, rows, id).value
  }

  /** The rows show the stored jobs; without a projection there are none. Where there are rows every lease is taken
      under a worker id that is not empty. */
  ghost predicate RowsShown(logs: Logs, rows: JobMap, projecting: bool) {
    && rows.Keys <= logs.Keys && (!projecting ==> rows == map[])
    && (forall id :: id in rows ==> Fold(logs[id]).Some? && Shown(rows[id], Fold(logs[id]).value))
    && (projecting ==> forall id :: id in logs && Fold(logs[id]).Some? ==> Named(Fold(logs[id]).value))
  }

  /** The rows after an event brought the job to `record`: a heartbeat touches two columns, any other event rewrites
      the row. */
  function RowsAfter(rows: JobMap, projecting: bool, id: JobId, event: JobEvent, record: Job): JobMap {
    if !projecting then rows
    else if !event.Heartbeat? then rows[id := record]
    else if id in rows && record.leaseUntil.Some? then rows[id := HeartbeatRow(rows[id], record)]
    else rows
  }

  lemma SeenIsShown(logs: Logs, rows: JobMap, projecting: bool, id: JobId)
    requires GoodLogs(logs) && RowsShown(logs, rows, projecting)
    ensures SeenAt(logs, rows, id).Some? <==> id in logs
    ensures id in logs ==> Fold(logs[id]).Some? && Shown(SeenAt(logs, rows, id).value, Fold(logs[id]).value)
    ensures id in logs ==> SeenAt(logs, rows, id).value.id == id && Lags(SeenAt(logs, rows, id).value, logs[id])
  {
    if id in logs {
      KnownJob(logs, id);
      assert logs[id] != [];
      LatestLags(SeenAt(logs, rows, id).value, logs[id]);
    }
  }

  lemma EmitRows(logs: Logs, rows: JobMap, projecting: bool, id: JobId, event: JobEvent, at: int)
    requires GoodLogs(logs) && RowsShown(logs, rows, projecting)
    requires Allowed(JobAt(logs, id), event) && (projecting && event.Lease? ==> event.worker != "")
    ensures var after := logs[id := LogAt(logs, id) + [Receipt(event, at)]];
      && JobAt(after, id) == Reduce(JobAt(logs, id), event, at) && JobAt(after, id).Some?
      && RowsShown(after, RowsAfter(rows, projecting, id, event, JobAt(after, id).value), projecting)
  {
    hide Good, Advance, Allowed, Shown, RowsAfter;
    FoldAppend(LogAt(logs, id), Receipt(event, at));
    if id in logs {
      assert GoodLog(id, logs[id]);
      GoodFold(logs[id]);
    }
    RowKept(rows, projecting, id, JobAt(logs, id), event, at);
  }

  lemma RowKept(rows: JobMap, projecting: bool, id: JobId, job: Option<Job>, event: JobEvent, at: int)
    requires Allowed(job, event) && (projecting && event.Lease? ==> event.worker != "")
    requires job.Some? ==> Sound(job.value) && (projecting ==> Named(job.value))
    requires id in rows ==> projecting && job.Some? && Shown(rows[id], job.value)
    ensures Reduce(job, event, at).Some?
    ensures var record := Reduce(job, event, at).value; var after := RowsAfter(rows, projecting, id, event, record);
      && (projecting ==> Named(record)) && (id in after ==> projecting && Shown(after[id], record))
      && after.Keys <= rows.Keys + {id} && forall other :: other in rows && other != id ==> after[other] == rows[other]
  {
    if job.Some? && projecting {
      NamedKeeps(job.value, event, at);
      if event.Heartbeat? && id in rows {
        HeartbeatKeepsShown(rows[id], job.value, event, at);
      }
    }
  }

  /** An allowed event keeps streams and rows well formed and an index with the job's new form valid. */
  lemma EmitKeeps(logs: Logs, rows: JobMap, projecting: bool, indexed: JobMap, id: JobId, event: JobEvent, at: int)
    requires GoodLogs(logs) && RowsShown(logs, rows, projecting) && LagsIn(indexed, logs)
    requires Allowed(JobAt(logs, id), event) && (projecting && event.Lease? ==> event.worker != "")
    requires event.Enqueue? ==> event.id == id
    ensures var after := logs[id := LogAt(logs, id) + [Receipt(event, at)]];
      && JobAt(after, id) == Reduce(JobAt(logs, id), event, at) && JobAt(after, id).Some?
        && JobAt(after, id).value.id == id
      && GoodLogs(after) && LagsIn(indexed[id := JobAt(after, id).value], after)
      && RowsShown(after, RowsAfter(rows, projecting, id, event, JobAt(after, id).value), projecting)
  {
    hide Good, Allowed, Reduce, RowsShown, RowsAfter, Lags;
    var log := LogAt(logs, id);
    EmitKeepsGood(id, log, event, at);
    EmitRows(logs, rows, projecting, id, event, at);
    LatestLags(Fold(log + [Receipt(event, at)]).value, log + [Receipt(event, at)]);
  }

  /** Other processes extending one stream, and leaving its row showing the job, keep everything well formed. */
  lemma AwaitKeeps(logs: Logs, rows: JobMap, projecting: bool, indexed: JobMap, id: JobId, longer: Log, row: Job)
    requires GoodLogs(logs) && RowsShown(logs, rows, projecting) && LagsIn(indexed, logs) && id in logs
    requires GoodLog(id, longer) && logs[id] <= longer && Shown(row, Fold(longer).value)
    requires projecting ==> Named(Fold(longer).value)
    ensures GoodLogs(logs[id := longer]) && LagsIn(indexed, logs[id := longer])
    ensures RowsShown(logs[id := longer], if projecting then rows[id := row] else rows, projecting)
  {
    hide Good, Lags, Shown, Named, Fold;
    if id in indexed {
      LagsLonger(indexed[id], logs[id], longer);
    }
  }

  lemma NamedIn(logs: Logs, rows: JobMap, id: JobId)
    requires RowsShown(logs, rows, true) && id in logs && Fold(logs[id]).Some?
    ensures Named(Fold(logs[id]).value)
  {
  }

  /** The index once the job was read again: only its entry changes, and it shows the job as it stands. */
  ghost predicate Refreshed(before: JobMap, after: JobMap, logs: Logs, id: JobId) {
    if id in logs then
      id in after && Fold(logs[id]).Some? && Shown(after[id], Fold(logs[id]).value) && after == before[id := after[id]]
    else after == before
  }

  lemma RefreshedAgain(before: JobMap, middle: JobMap, after: JobMap, earlier: Logs, now: Logs, id: JobId)
    requires Refreshed(before, middle, earlier, id) && Refreshed(middle, after, now, id) && id in earlier && id in now
    ensures Refreshed(before, after, now, id)
  {
    hide Fold, Shown;
  }

  // ---------------------------------------------------------------------------------------------------------------
  // Single operations

  /** isLeaseOwnedBy. */
  predicate IsLeaseOwnedBy(job: Job, worker: string) {
    job.Active() && job.leaseOwner == Some(worker)
  }

  /** The stream of `id` gets one more receipt. */
  function Extended(logs: Logs, id: JobId, event: JobEvent, at: int): Logs {
    logs[id := LogAt(logs, id) + [Receipt(event, at)]]
  }

  lemma OneEventOp(logs: Logs, id: JobId, op: Op, at: int)
    requires id in logs && |Events(Fold(logs[id]), op)| <= 1
    ensures Applied(logs, id, op, at)
      == if Events(Fold(logs[id]), op) == [] then logs else Extended(logs, id, Events(Fold(logs[id]), op)[0], at)
  {
    var events := Events(Fold(logs[id]), op);
    if events != [] {
      assert events == [events[0]];
      AppendOne(logs[id], events[0], at);
    }
  }

  lemma LeaseOp(logs: Logs, id: JobId, worker: string, leaseMs: int, at: int)
    requires id in logs && Fold(logs[id]).Some?
    ensures var job := Fold(logs[id]).value;
      var event := Lease(worker, Max(MIN_LEASE_MS, leaseMs), job.attempt + 1);
      && Applied(logs, id, TakeLease(worker, leaseMs), at)
         == (if job.status == Queued then Extended(logs, id, event, at) else logs)
      && (job.status == Queued ==>
            && Allowed(Some(job), event)
            && Reduce(Some(job), event, at).Some?
            && IsLeaseOwnedBy(Reduce(Some(job), event, at).value, worker)
            && Reduce(Some(job), event, at).value.status == Leased
            && Reduce(Some(job), event, at).value.attempt == job.attempt + 1)
  {
    OneEventOp(logs, id, TakeLease(worker, leaseMs), at);
  }

  lemma ReportOp(logs: Logs, id: JobId, op: Op, at: int)
    requires id in logs && Fold(logs[id]).Some? && op.IsReport()
    ensures var job := Fold(logs[id]).value;
      && Applied(logs, id, op, at)
         == (if job.Terminal() || job.OwnedByOther(op.worker) then logs else Extended(logs, id, ReportOf(job, op), at))
      && !ReportOf(job, op).Enqueue?
      && (!job.Terminal() && !job.OwnedByOther(op.worker) ==> Allowed(Some(job), ReportOf(job, op)))
  {
    OneEventOp(logs, id, op, at);
  }

  lemma CancelOp(logs: Logs, id: JobId, reason: Option<string>, at: int)
    requires id in logs && Fold(logs[id]).Some?
    ensures var job := Fold(logs[id]).value; var event := JobEvent.Cancel(reason);
      && Applied(logs, id, CancelJob(reason), at) == (if job.Terminal() then logs else Extended(logs, id, event, at))
      && Allowed(Some(job), event)
      && Reduce(Some(job), event, at).Some? && Reduce(Some(job), event, at).value.Terminal()
  {
    OneEventOp(logs, id, CancelJob(reason), at);
  }

  lemma CommandOp(logs: Logs, id: JobId, op: Op, at: int)
    requires id in logs && Fold(logs[id]).Some? && op.SendCommand?
    ensures var job := Fold(logs[id]).value;
      var first := Extended(logs, id, QueueCommand(op.AddedCommand().value), at);
      && Applied(logs, id, op, at)
         == (if op.kind == Abort && job.status == Queued then
               Extended(first, id, JobEvent.Cancel(Some("abort requested")), at)
             else first)
      && Allowed(Some(job), QueueCommand(op.AddedCommand().value))
  {
    var events := Events(Fold(logs[id]), op);
    AppendOne(logs[id], events[0], at);
    if |events| == 1 {
      assert events == [events[0]];
    } else {
      assert events[..1] == [events[0]];
    }
  }

  lemma PutTwice(logs: Logs, id: JobId, first: Log, second: Log)
    ensures logs[id := first][id := second] == logs[id := second]
  {
  }

  /** The stream once the first n due commands are stamped. */
  function Stamping(log: Log, due: seq<Command>, n: nat, now: int, at: int): Log
    requires n <= |due|
  {
    if n == 0 then log else Stamping(log, due, n - 1, now, at) + [Receipt(Consume(due[n - 1].id, now), at)]
  }

  lemma {:induction false} StampingAppends(log: Log, due: seq<Command>, n: nat, now: int, at: int)
    requires n <= |due|
    ensures Stamping(log, due, n, now, at)
      == Append(log, seq(|due|, i requires 0 <= i < |due| => Consume(due[i].id, now))[..n], at)
  {
    var events := seq(|due|, i requires 0 <= i < |due| => Consume(due[i].id, now));
    if n > 0 {
      StampingAppends(log, due, n - 1, now, at);
      assert events[..n][..n - 1] == events[..n - 1];
    }
  }

  lemma ConsumeOp(logs: Logs, id: JobId, wanted: set<CommandKind>, now: int, at: int)
    requires id in logs && Fold(logs[id]).Some?
    ensures var due := Due(Fold(logs[id]).value.commands, wanted);
      Applied(logs, id, TakeCommands(wanted, now), at) == logs[id := Stamping(logs[id], due, |due|, now, at)]
  {
    var due := Due(Fold(logs[id]).value.commands, wanted);
    StampingAppends(logs[id], due, |due|, now, at);
    var events := Events(Fold(logs[id]), TakeCommands(wanted, now));
    assert events[..|due|] == events;
  }

  /** An operation on one job keeps an index in step with the streams in step. */
  lemma StaysInStep(before: JobMap, after: JobMap, logs: Logs, id: JobId, op: Op, at: int)
    requires GoodLogs(logs) && InStep(before, logs) && Refreshed(before, after, Applied(logs, id, op, at), id)
    ensures InStep(after, Applied(logs, id, op, at))
  {
  }

  /** Reading one job again keeps it in step, too. */
  lemma ReadInStep(before: JobMap, after: JobMap, logs: Logs, id: JobId)
    requires InStep(before, logs) && Refreshed(before, after, logs, id)
    ensures InStep(after, logs)
  {
  }

  // ---------------------------------------------------------------------------------------------------------------
  // Expiring the overdue leases one by one

  /** `leaseUntil` is set, is not 0 and has passed. */
  predicate LeasePassed(job: Job, now: int) {
    job.leaseUntil.Some? && job.leaseUntil.value != 0 && job.leaseUntil.value <= now
  }

  lemma IndexedIsStored(indexed: JobMap, logs: Logs)
    requires LagsIn(indexed, logs)
    ensures indexed.Keys <= logs.Keys
  {
  }

  /** With the index in step, an overdue job shows as such. */
  lemma OverdueInStep(indexed: JobMap, logs: Logs, id: JobId, now: int)
    requires InStep(indexed, logs)
    ensures id in indexed <==> JobAt(logs, id).Some?
    ensures id in indexed && Overdue(JobAt(logs, id).value, now) ==> LeasePassed(indexed[id], now)
  {
  }

  lemma ExpiredDiffers(shown: Job, job: Job, willRetry: bool, ts: int)
    requires shown.leaseUntil.Some? && job.Active()
    ensures Reduce(Some(job), ExpireLease(willRetry), ts) != Some(shown)
  {
  }

  lemma ExpireOp(logs: Logs, id: JobId, now: int, at: int)
    ensures JobAt(logs, id).None? ==> Applied(logs, id, ExpireOverdue(now), at) == logs
    ensures JobAt(logs, id).Some? ==>
      var job := JobAt(logs, id).value;
      var event := ExpireLease(job.attempt < job.maxAttempts);
      && Applied(logs, id, ExpireOverdue(now), at)
        == (if Overdue(job, now) then Extended(logs, id, event, at) else logs)
      && (Overdue(job, now) ==> Allowed(Some(job), event))
  {
    if id in logs {
      OneEventOp(logs, id, ExpireOverdue(now), at);
    }
  }

  lemma EvolvesItself(logs: Logs)
    requires GoodLogs(logs)
    ensures Evolves(logs, logs)
  {
  }

  lemma EvolvesAlong(before: Logs, logs: Logs, id: JobId, op: Op, at: int)
    requires GoodLogs(before) && Evolves(before, logs)
    ensures Evolves(before, Applied(logs, id, op, at))
  {
    AppliedEvolves(logs, id, op, at);
  }

  /** The overdue leases outside `todo` have been expired, the others not yet looked at. */
  ghost predicate PartlyExpired(before: Logs, logs: Logs, todo: set<JobId>, now: int, at: int) {
    && logs.Keys == before.Keys
    && forall id :: id in before ==>
         logs[id] == if id in todo then before[id] else Apply(before[id], ExpireOverdue(now), at)
  }

  /** Nothing happened but expiries: every stream is as it was or got what expiring its job appends. */
  ghost predicate OnlyExpired(before: Logs, after: Logs, now: int, at: int) {
    && after.Keys == before.Keys
    && forall id :: id in before ==> after[id] == before[id] || after[id] == Apply(before[id], ExpireOverdue(now), at)
  }

  predicate Untouched(before: Logs, logs: Logs, todo: set<JobId>) {
    forall id :: id in todo && id in before ==> id in logs && logs[id] == before[id]
  }

  /** One more turn of the pass over the leased set. */
  lemma OneMoreExpired(before: Logs, logs: Logs, after: Logs, todo: set<JobId>, id: JobId, now: int, at: int)
    requires OnlyExpired(before, logs, now, at) && Untouched(before, logs, todo) && id in todo
    requires after == logs || after == Applied(logs, id, ExpireOverdue(now), at)
    ensures OnlyExpired(before, after, now, at) && Untouched(before, after, todo - {id})
  {
    hide Apply;
  }

  lemma OnlyExpiredEvolves(before: Logs, after: Logs, now: int, at: int)
    requires GoodLogs(before) && OnlyExpired(before, after, now, at)
    ensures Evolves(before, after)
  {
    hide GoodLog, Apply;
    forall id | id in before ensures GoodLog(id, after[id]) && before[id] <= after[id] {
      AppliedGood(id, before[id], ExpireOverdue(now), at);
    }
  }

  lemma NotLeasedNotOverdue(logs: Logs, indexed: JobMap, leased: set<JobId>, now: int, at: int)
    requires leased == LeasedIn(indexed) && InStep(indexed, logs)
    ensures PartlyExpired(logs, logs, leased, now, at)
  {
    forall id | id in logs && id !in leased ensures Events(Fold(logs[id]), ExpireOverdue(now)) == [] {
      assert id in indexed && !indexed[id].Active();
    }
  }

  lemma ExpiredOne(before: Logs, logs: Logs, after: Logs, todo: set<JobId>, id: JobId, now: int, at: int)
    requires PartlyExpired(before, logs, todo, now, at) && id in todo
    requires after == Applied(logs, id, ExpireOverdue(now), at)
    ensures PartlyExpired(before, after, todo - {id}, now, at)
  {
  }

  lemma AllExpired(before: Logs, logs: Logs, now: int, at: int)
    requires PartlyExpired(before, logs, {}, now, at)
    ensures logs == ExpireAll(before, now, at)
  {
  }

  lemma EmitKeepsGood(id: JobId, log: Log, event: JobEvent, at: int)
    requires log == [] || GoodLog(id, log)
    requires Allowed(Fold(log), event) && (event.Enqueue? ==> event.id == id)
    ensures GoodLog(id, log + [Receipt(event, at)])
    ensures Fold(log + [Receipt(event, at)]) == Reduce(Fold(log), event, at)
  {
    GoodAppend(log, Receipt(event, at));
    FoldAppend(log, Receipt(event, at));
    if !event.Enqueue? {
      AdvanceKeeps(Fold(log).value, event, at);
    }
  }

  // ---------------------------------------------------------------------------------------------------------------
  // leaseNext's scan and enqueue's requests

  /** None of the first n queued ids may be leased. */
  ghost predicate NoneEligible(jobs: JobMap, queued: seq<JobId>, n: nat, options: LeaseOptions)
    requires n <= |queued|
  {
    forall k :: 0 <= k < n ==> queued[k] in jobs && !options.Eligible(jobs[queued[k]])
  }

  /** With the index in step the eligible jobs are those that are eligible in their streams, in the same form. */
  lemma EligibleInStep(indexed: JobMap, logs: Logs, options: LeaseOptions)
    requires InStep(indexed, logs)
    ensures forall id :: id in indexed <==> id in JobsIn(logs)
    ensures forall id :: id in indexed && (indexed[id].ShouldQueue() || JobsIn(logs)[id].ShouldQueue()) ==>
      indexed[id] == JobsIn(logs)[id]
    ensures forall id :: id in indexed ==> (options.Eligible(indexed[id]) <==> options.Eligible(JobsIn(logs)[id]))
  {
  }

  lemma FirstInStep(indexed: JobMap, logs: Logs, options: LeaseOptions, id: JobId)
    requires InStep(indexed, logs) && IsFirstEligible(indexed, options, id)
    ensures IsFirstEligible(JobsIn(logs), options, id)
  {
    hide Before;
    EligibleInStep(indexed, logs, options);
  }

  lemma NoneInStep(indexed: JobMap, logs: Logs, options: LeaseOptions)
    requires InStep(indexed, logs) && forall id :: id in indexed ==> !options.Eligible(indexed[id])
    ensures forall id :: id in JobsIn(logs) ==> !options.Eligible(JobsIn(logs)[id])
  {
    EligibleInStep(indexed, logs, options);
  }

  lemma EligibleIsExact(row: Job, job: Job, options: LeaseOptions)
    requires Shown(row, job)
    ensures options.Eligible(row) <==> options.Eligible(job)
    ensures options.Eligible(row) ==> row == job
  {
  }

  /** With the index in step, loading a job during the scan keeps it so, and an eligible one is found eligible. */
  lemma ScannedInStep(jobs: JobMap, shown: JobMap, after: JobMap, logs: Logs, id: JobId, options: LeaseOptions)
    requires InStep(jobs, logs) && InStep(shown, logs) && (after == shown || Refreshed(shown, after, logs, id))
    requires id in jobs
    ensures InStep(after, logs) && id in shown && id in logs && Fold(logs[id]).Some?
    ensures options.Eligible(jobs[id]) <==> options.Eligible(Fold(logs[id]).value)
    ensures options.Eligible(jobs[id]) <==> options.Eligible(shown[id])
  {
    hide Fold;
    if after != shown {
      ReadInStep(shown, after, logs, id);
    }
  }

  /** After expiries and nothing else the job was leased, eligible as its stream stood then. */
  ghost predicate LeasedWhileEligible(before: Logs, options: LeaseOptions, now: int, at: int, id: JobId, after: Logs) {
    exists logs :: OnlyExpired(before, logs, now, at) && EligibleAt(logs, options, id)
      && after == Applied(logs, id, TakeLease(options.workerId, options.leaseMs), at)
  }

  predicate EligibleAt(logs: Logs, options: LeaseOptions, id: JobId) {
    JobAt(logs, id).Some? && options.Eligible(JobAt(logs, id).value)
  }

  lemma FirstFound(jobs: JobMap, queued: seq<JobId>, n: nat, options: LeaseOptions)
    requires n < |queued| && Sorted(ByQueue, queued, jobs) && NoneEligible(jobs, queued, n, options)
    requires forall id :: id in queued <==> id in jobs && jobs[id].ShouldQueue()
    requires options.Eligible(jobs[queued[n]])
    ensures IsFirstEligible(jobs, options, queued[n])
  {
    forall other | other in jobs && other != queued[n] && options.Eligible(jobs[other])
      ensures Before(ByQueue, jobs[queued[n]], jobs[other])
    {
      assert other in queued;
      var k :| 0 <= k < |queued| && queued[k] == other;
      assert n < k;
    }
  }

  lemma NoneFound(jobs: JobMap, queued: seq<JobId>, options: LeaseOptions)
    requires NoneEligible(jobs, queued, |queued|, options)
    requires forall id :: id in queued <==> id in jobs && jobs[id].ShouldQueue()
    ensures forall id :: id in jobs ==> !options.Eligible(jobs[id])
  {
    forall id | id in jobs && jobs[id].ShouldQueue() ensures !options.Eligible(jobs[id]) {
      var k :| 0 <= k < |queued| && queued[k] == id;
    }
  }

  /** The streams after the prior jobs were asked one by one to stop. */
  function Aborting(logs: Logs, prior: seq<Job>, input: EnqueueInput, commandId: JobId -> string): Logs {
    if prior == [] then logs
    else
      var job := prior[|prior| - 1];
      Applied(Aborting(logs, prior[..|prior| - 1], input, commandId), job.id,
              AbortOp(job.status == Queued, job.id, input, commandId), input.at)
  }

  lemma {:induction false} AbortingPointwise(logs: Logs, prior: seq<Job>, input: EnqueueInput,
                                             commandId: JobId -> string,
                                             id: JobId)
    requires id in logs && DistinctIds(prior)
    ensures var after := Aborting(logs, prior, input, commandId);
      && id in after
      && (!Lists(prior, id) ==> after[id] == logs[id])
      && forall k :: 0 <= k < |prior| && prior[k].id == id ==>
           after[id] == Apply(logs[id], AbortOp(prior[k].status == Queued, id, input, commandId), input.at)
  {
    if prior != [] {
      var n := |prior| - 1;
      AbortingPointwise(logs, prior[..n], input, commandId, id);
      ListsLast(prior, id);
      if prior[n].id == id {
        forall k | 0 <= k < n ensures prior[..n][k].id != id { }
      }
    }
  }

  lemma {:induction false} AbortingKeys(logs: Logs, prior: seq<Job>, input: EnqueueInput, commandId: JobId -> string)
    ensures Aborting(logs, prior, input, commandId).Keys == logs.Keys
  {
    if prior != [] {
      AbortingKeys(logs, prior[..|prior| - 1], input, commandId);
    }
  }

  /** `prior` lists the jobs `ids` as indexed. */
  ghost predicate ListsJobs(prior: seq<Job>, jobs: JobMap, ids: set<JobId>) {
    && DistinctIds(prior)
    && (forall k :: 0 <= k < |prior| ==> prior[k].id in ids && prior[k].id in jobs && jobs[prior[k].id] == prior[k])
    && (forall id :: id in ids ==> Lists(prior, id))
  }

  lemma AbortingIsAbortAll(indexed: JobMap, logs: Logs, prior: seq<Job>, ids: set<JobId>, input: EnqueueInput,
                           commandId: JobId -> string)
    requires ListsJobs(prior, indexed, ids)
    ensures Aborting(logs, prior, input, commandId) == AbortAll(indexed, logs, ids, input, commandId)
  {
    hide Apply, AbortOp;
    AbortingKeys(logs, prior, input, commandId);
    forall id | id in logs
      ensures Aborting(logs, prior, input, commandId)[id] == AbortAll(indexed, logs, ids, input, commandId)[id]
    {
      AbortingPointwise(logs, prior, input, commandId, id);
      if id in ids {
        var k :| 0 <= k < |prior| && prior[k].id == id;
      }
    }
  }

  lemma AbortOpEvent(logs: Logs, id: JobId, seenQueued: bool, input: EnqueueInput, commandId: JobId -> string)
    requires id in logs && Fold(logs[id]).Some?
    ensures var op := AbortOp(seenQueued, id, input, commandId);
      var event := AbortEvent(seenQueued, id, input, commandId);
      && !event.Enqueue? && !event.Lease?
      && Applied(logs, id, op, input.at) == Extended(logs, id, event, input.at)
      && Allowed(Fold(logs[id]), event)
  {
    OneEventOp(logs, id, AbortOp(seenQueued, id, input, commandId), input.at);
  }

  lemma SteerOpEvent(logs: Logs, id: JobId, input: EnqueueInput, commandId: JobId -> string)
    requires id in logs && Fold(logs[id]).Some? && input.Session().Some?
    ensures var op := SteerOp(id, input, commandId); var event := SteerReceipt(id, input, commandId).event;
      Applied(logs, id, op, input.at) == Extended(logs, id, event, input.at) && Allowed(Fold(logs[id]), event)
  {
    OneEventOp(logs, id, SteerOp(id, input, commandId), input.at);
  }

  lemma CreateEvent(input: EnqueueInput)
    ensures var event := Created(input.Request());
      && Allowed(None, event) && event.Enqueue? && event.id == input.jobId
      && Apply([], Create(input.Request()), input.at) == [Receipt(event, input.at)]
  {
    AppendOne([], Created(input.Request()), input.at);
  }

  /** Sorting the listed jobs keeps them listed and puts the most recently updated one first. */
  lemma SortedByRecent(prior: seq<Job>, jobs: JobMap, ids: set<JobId>)
    requires ListsJobs(prior, jobs, ids)
    ensures ListsJobs(Sort(ByRecency, prior), jobs, ids) && (Sort(ByRecency, prior) == [] <==> ids == {})
    ensures ids != {} ==> IsMostRecent(jobs, ids, Sort(ByRecency, prior)[0].id)
  {
    hide Before, Sort;
    var sorted := Sort(ByRecency, prior);
    SortSorts(ByRecency, prior);
    SortMembers(ByRecency, prior);
    SameMembersListed(prior, sorted, jobs, ids);
    SortedListed(sorted, jobs, ids);
  }

  lemma SameMembersListed(prior: seq<Job>, sorted: seq<Job>, jobs: JobMap, ids: set<JobId>)
    requires ListsJobs(prior, jobs, ids) && forall job :: job in sorted <==> job in prior
    ensures forall k :: 0 <= k < |sorted| ==>
      sorted[k].id in ids && sorted[k].id in jobs && jobs[sorted[k].id] == sorted[k]
    ensures forall id :: id in ids ==> id in jobs && jobs[id].id == id && jobs[id] in sorted
  {
    forall k | 0 <= k < |sorted| ensures sorted[k].id in ids && sorted[k].id in jobs
      && jobs[sorted[k].id] == sorted[k] {
      assert sorted[k] in sorted;
      var m :| 0 <= m < |prior| && prior[m] == sorted[k];
    }
    forall id | id in ids ensures id in jobs && jobs[id].id == id && jobs[id] in sorted {
      var k :| 0 <= k < |prior| && prior[k].id == id;
      assert prior[k] in prior;
    }
  }

  lemma SortedListed(sorted: seq<Job>, jobs: JobMap, ids: set<JobId>)
    requires SortedJobs(ByRecency, sorted)
    requires forall k :: 0 <= k < |sorted| ==>
      sorted[k].id in ids && sorted[k].id in jobs && jobs[sorted[k].id] == sorted[k]
    requires forall id :: id in ids ==> id in jobs && jobs[id].id == id && jobs[id] in sorted
    ensures ListsJobs(sorted, jobs, ids) && (sorted == [] <==> ids == {})
    ensures ids != {} ==> IsMostRecent(jobs, ids, sorted[0].id)
  {
    hide Before;
    forall id | id in ids ensures exists k :: 0 <= k < |sorted| && sorted[k] == jobs[id] && sorted[k].id == id {
      var k :| 0 <= k < |sorted| && sorted[k] == jobs[id];
    }
    forall i, j | 0 <= i < j < |sorted| ensures sorted[i].id != sorted[j].id {
      assert Before(ByRecency, sorted[i], sorted[j]);
      OrderIsStrictTotal(ByRecency, sorted[i], sorted[j], sorted[i]);
    }
    if sorted != [] {
      assert sorted[0].id in ids;
    }
  }

  lemma KnownJob(logs: Logs, id: JobId)
    requires GoodLogs(logs) && id in logs
    ensures JobAt(logs, id).Some? && JobAt(logs, id) == Fold(logs[id]) && JobAt(logs, id).value.id == id
  {
    assert GoodLog(id, logs[id]);
  }

  lemma NothingContinues(logs: Logs)
    requires GoodLogs(logs)
    ensures Continues(logs, logs)
  {
  }

  lemma MostRecentIs(jobs: JobMap, ids: set<JobId>, id: JobId)
    requires IsMostRecent(jobs, ids, id)
    ensures id in ids && id in jobs && ids != {}
  {
  }

  lemma AbortNone(indexed: JobMap, logs: Logs, input: EnqueueInput, commandId: JobId -> string)
    ensures AbortAll(indexed, logs, {}, input, commandId) == logs
  {
  }

  /** Without a singleton mode enqueue does not look at the indexed jobs. */
  lemma AllowIgnoresIndex(a: JobMap, b: JobMap, before: Logs, input: EnqueueInput, commandId: JobId -> string,
                          after: Logs)
    requires input.Mode() == Allow && EnqueueStep(a, before, input, commandId, after)
    ensures EnqueueStep(b, before, input, commandId, after) && input.jobId in after
  {
  }

  /** The jobs of `ids` outside `members` have been collected, each once. */
  ghost predicate Collected(active: seq<Job>, jobs: JobMap, ids: set<JobId>, members: set<JobId>) {
    && DistinctIds(active)
    && (forall k :: 0 <= k < |active| ==>
          && active[k].id in ids && active[k].id !in members
          && active[k].id in jobs && jobs[active[k].id] == active[k])
    && (forall id :: id in ids ==> id in members || Lists(active, id))
  }

  lemma CollectNext(active: seq<Job>, jobs: JobMap, ids: set<JobId>, members: set<JobId>, id: JobId)
    requires Collected(active, jobs, ids, members) && id in members && id in jobs && jobs[id].id == id
    ensures Collected(if id in ids then active + [jobs[id]] else active, jobs, ids, members - {id})
  {
    var longer := active + [jobs[id]];
    assert longer[..|active|] == active;
    forall other ensures Lists(longer, other) <==> Lists(active, other) || other == id {
      ListsLast(longer, other);
    }
  }

  lemma MemberSessions(jobs: JobMap, key: string)
    ensures (if key in SessionsOf(jobs) then SessionsOf(jobs)[key] else {}) == MembersOf(jobs, key)
  {
    forall id | id in jobs && jobs[id].InSession(key) ensures key in SessionKeys(jobs) {
      assert HasSession(jobs[id]) && jobs[id].sessionKey.value == key;
    }
  }

  // ---------------------------------------------------------------------------------------------------------------
  // Discovery and refresh

  lemma MergeIs(indexed: JobMap, seen: JobMap, known: JobMap)
    requires known.Keys <= seen.Keys && indexed.Keys == seen.Keys
    requires forall id :: id in indexed ==> indexed[id] == if id in known then known[id] else seen[id]
    ensures indexed == seen + known
  {
  }

  lemma SeenKeys(logs: Logs, rows: JobMap, projecting: bool)
    requires GoodLogs(logs) && RowsShown(logs, rows, projecting)
    ensures SeenIn(logs, rows).Keys == logs.Keys
    ensures forall id :: id in logs ==> Some(SeenIn(logs, rows)[id]) == SeenAt(logs, rows, id)
    ensures InStep(SeenIn(logs, rows), logs) && LagsIn(SeenIn(logs, rows), logs) && Keyed(SeenIn(logs, rows))
  {
    hide GoodLogs, RowsShown, SeenAt;
    forall id | id in logs
      ensures SeenAt(logs, rows, id).Some? && SeenAt(logs, rows, id).value.id == id
      ensures Fold(logs[id]).Some? && Shown(SeenAt(logs, rows, id).value, Fold(logs[id]).value)
      ensures Lags(SeenAt(logs, rows, id).value, logs[id])
    {
      SeenIsShown(logs, rows, projecting, id);
    }
  }

  /** What a refresh shows: the indexed copy of a job indexed as terminal, every other job as loading finds it. */
  function Kept(indexed: JobMap, seen: JobMap): JobMap {
    map id | id in seen :: if id in indexed && indexed[id].Terminal() then indexed[id] else seen[id]
  }

  /** Of the jobs `all` those outside `todo` have been read again. */
  ghost predicate PartlyRead(indexed: JobMap, known: JobMap, seen: JobMap, all: set<JobId>, todo: set<JobId>) {
    && indexed.Keys == known.Keys + (all - todo)
    && forall id :: id in indexed ==>
         if id in all && id !in todo then id in seen && indexed[id] == seen[id]
         else id in known && indexed[id] == known[id]
  }

  lemma NothingRead(known: JobMap, seen: JobMap, all: set<JobId>)
    ensures PartlyRead(known, known, seen, all, all)
  {
  }

  lemma ReadOneMore(indexed: JobMap, known: JobMap, seen: JobMap, all: set<JobId>, todo: set<JobId>, id: JobId)
    requires PartlyRead(indexed, known, seen, all, todo) && id in todo && id in all && id in seen
    ensures PartlyRead(indexed[id := seen[id]], known, seen, all, todo - {id})
  {
  }

  /** Reading again every job that is missing or not indexed as terminal shows what a full refresh would. */
  lemma PartIsKept(indexed: JobMap, seen: JobMap, known: JobMap, read: set<JobId>)
    requires known.Keys <= seen.Keys
    requires read == (seen.Keys - known.Keys) + (set id | id in known && !known[id].Terminal())
    requires PartlyRead(indexed, known, seen, read, {})
    ensures indexed == Kept(known, seen)
  {
  }

  lemma KeptLags(indexed: JobMap, logs: Logs, seen: JobMap)
    requires LagsIn(indexed, logs) && LagsIn(seen, logs) && seen.Keys == logs.Keys
    ensures LagsIn(Kept(indexed, seen), logs) && Kept(indexed, seen).Keys == logs.Keys
    ensures Keyed(indexed) && Keyed(seen) ==> Keyed(Kept(indexed, seen))
  {
    hide Lags;
  }

  // ---------------------------------------------------------------------------------------------------------------
  // When a refresh shows every job as it stands

  /** Every job indexed as terminal was indexed after `read[id]` receipts of its stream. */
  ghost predicate ReadAfter(indexed: JobMap, logs: Logs, read: map<JobId, nat>) {
    forall id :: id in indexed && indexed[id].Terminal() ==>
      id in logs && id in read && 0 < read[id] <= |logs[id]| && ShownAt(indexed[id], logs[id], read[id])
  }

  /** No job indexed as terminal got a command record since. */
  ghost predicate NoCommandsSince(indexed: JobMap, logs: Logs, read: map<JobId, nat>) {
    forall id :: id in indexed && indexed[id].Terminal() && id in logs && id in read ==>
      NoCommandRecords(logs[id], read[id])
  }

  /** Since each copy was indexed no command of its job was consumed a second time. */
  ghost predicate TakenOnceSince(indexed: JobMap, logs: Logs, read: map<JobId, nat>) {
    forall id :: id in indexed && id in logs && id in read ==> ConsumesPending(logs[id], read[id])
  }

  lemma CopyInStep(id: JobId, log: Log, copy: Job, n: nat)
    requires GoodLog(id, log) && 0 < n <= |log| && copy.Terminal() && ShownAt(copy, log, n)
    ensures NoCommandRecords(log, n) ==> Shown(copy, Fold(log).value)
    ensures ConsumesPending(log, n) ==> (Shown(copy, Fold(log).value) <==> NoCommandRecords(log, n))
  {
    hide Good, NoCommandRecords, ConsumesPending;
    LaggingTerminal(id, log, copy, n);
    if NoCommandRecords(log, n) {
      NothingConsumed(log, n);
    }
    if ConsumesPending(log, n) {
      TerminalCopy(log, n);
    }
  }

  lemma LaggingTerminal(id: JobId, log: Log, copy: Job, n: nat)
    requires GoodLog(id, log) && 0 < n <= |log| && copy.Terminal() && ShownAt(copy, log, n)
    ensures Fold(log[..n]) == Some(copy) && Fold(log).value.Terminal()
  {
    hide Good;
    NeverTakenBack(log, n);
  }

  /** A refresh trusts its copies of terminal jobs. It shows every job as it stands exactly when none of them got a
      command record after it was indexed; any other later receipt changes nothing. (Consuming a consumed command again
      at the same time would be a command record that changes nothing; a run with fresh command ids never does.) */
  lemma RefreshShowsStored(indexed: JobMap, logs: Logs, seen: JobMap, read: map<JobId, nat>)
    requires GoodLogs(logs) && indexed.Keys <= logs.Keys && InStep(seen, logs) && ReadAfter(indexed, logs, read)
    ensures NoCommandsSince(indexed, logs, read) ==> InStep(Kept(indexed, seen), logs)
    ensures TakenOnceSince(indexed, logs, read) ==>
      (InStep(Kept(indexed, seen), logs) <==> NoCommandsSince(indexed, logs, read))
  {
    hide Good, NoCommandRecords, ConsumesPending, ShownAt;
    var kept := Kept(indexed, seen);
    forall id | id in indexed && indexed[id].Terminal()
      ensures kept[id] == indexed[id]
      ensures NoCommandRecords(logs[id], read[id]) ==> Shown(indexed[id], Fold(logs[id]).value)
      ensures ConsumesPending(logs[id], read[id]) ==>
        (Shown(indexed[id], Fold(logs[id]).value) <==> NoCommandRecords(logs[id], read[id]))
    {
      assert GoodLog(id, logs[id]);
      CopyInStep(id, logs[id], indexed[id], read[id]);
    }
  }

  /** Every stream is what a run with fresh command ids and no clock of 0 left. */
  ghost predicate FromRuns(logs: Logs, runs: map<JobId, seq<Step>>) {
    forall id :: id in logs ==>
      id in runs && logs[id] == Run(runs[id])
      && CommandDelivery.FreshCommandIds(runs[id]) && CommandDelivery.NonzeroTimes(runs[id])
  }

  /** Over the streams of such runs the refresh shows every job as it stands exactly when no job indexed as terminal got
      a command record since. */
  lemma RefreshOverRuns(indexed: JobMap, logs: Logs, seen: JobMap, read: map<JobId, nat>, runs: map<JobId, seq<Step>>)
    requires GoodLogs(logs) && indexed.Keys <= logs.Keys && InStep(seen, logs) && ReadAfter(indexed, logs, read)
    requires FromRuns(logs, runs)
    ensures InStep(Kept(indexed, seen), logs) <==> NoCommandsSince(indexed, logs, read)
  {
    hide GoodLogs, InStep, Kept, ReadAfter, NoCommandsSince, Run;
    forall id | id in logs ensures forall n: nat :: ConsumesPending(logs[id], n) {
      CommandDelivery.RunTakesPending(runs[id]);
    }
    RefreshShowsStored(indexed, logs, seen, read);
  }

  /** A state where it does not: a job indexed as terminal gets a command from elsewhere. */
  lemma CommandGoesUnseen(id: JobId, log: Log, op: Op, at: int)
    requires GoodLog(id, log) && Fold(log).value.Terminal() && op.SendCommand?
    ensures var indexed: JobMap := map[id := Fold(log).value]; var logs := map[id := Apply(log, op, at)];
      && GoodLogs(logs) && Discovered(indexed, logs) && InStep(JobsIn(logs), logs)
      && Kept(indexed, JobsIn(logs)) == indexed && !InStep(indexed, logs)
  {
    hide Good, Apply, Fold, Lags;
    LateCommand(id, log, op, at);
    var logs: Logs := map[id := Apply(log, op, at)];
    assert Fold(logs[id]).Some? && JobsIn(logs) == map[id := Fold(logs[id]).value];
    assert !Shown(Fold(log).value, Fold(logs[id]).value);
  }

  lemma LateCommand(id: JobId, log: Log, op: Op, at: int)
    requires GoodLog(id, log) && Fold(log).value.Terminal() && op.SendCommand?
    ensures GoodLog(id, Apply(log, op, at)) && Lags(Fold(log).value, Apply(log, op, at))
    ensures Fold(Apply(log, op, at)).value.Terminal()
    ensures |Fold(Apply(log, op, at)).value.commands| == |Fold(log).value.commands| + 1
  {
    hide Good, Fold, EventsOn, Append, Apply;
    var event := QueueCommand(op.AddedCommand().value);
    assert log != [] by { GoodFold(log); }
    AppliedGood(id, log, op, at);
    LatestLags(Fold(log).value, log);
    LagsLonger(Fold(log).value, log, Apply(log, op, at));
    CommandOnly(Fold(log).value, op);
    AppliedEvents(log, op, at);
    AppendOne(log, event, at);
    FoldAppend(log, Receipt(event, at));
  }

  lemma CommandOnly(job: Job, op: Op)
    requires job.Terminal() && op.SendCommand?
    ensures EventsOn(job, op) == [QueueCommand(op.AddedCommand().value)]
  {
  }

  lemma AppliedEvents(log: Log, op: Op, at: int)
    requires Fold(log).Some? && !op.Create?
    ensures Apply(log, op, at) == Append(log, EventsOn(Fold(log).value, op), at)
  {
  }

  lemma CollectedById(jobs: seq<Job>, kept: JobMap)
    requires Collected(jobs, kept, kept.Keys, {})
    ensures DistinctIds(jobs) && ById(jobs) == kept
  {
    ByIdLookup(jobs);
    forall id ensures id in ById(jobs) <==> id in kept {
      if Lists(jobs, id) {
        var k :| 0 <= k < |jobs| && jobs[k].id == id;
      }
    }
    forall id | id in kept ensures ById(jobs)[id] == kept[id] {
      var k :| 0 <= k < |jobs| && jobs[k].id == id;
    }
  }
}
