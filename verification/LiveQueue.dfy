/** The queue object of src/adapters/sqlite-queue.ts: every operation is one atomic step over the stored streams and
    the index. Streams may also be extended by other queues between operations, so the index may lag behind them. */
module LiveQueue {
  import opened Basics
  import opened JobEffects
  import opened Jobs
  import opened JobProtocol
  import opened QueueIndex
  import opened LiveIndex
  import opened QueueEffects
  import opened QueueSpec
  import opened QueueSteps

  /** What all queues share: the jobs' streams and, in projecting mode, a projection row per job. */
  class JobStore {
    const projecting: bool
    var logs: Logs
    var rows: JobMap

    constructor (projecting: bool)
      ensures this.projecting == projecting && logs == map[] && Valid()
    {
      this.projecting := projecting;
      logs, rows := map[], map[];
    }

    ghost predicate Valid()
      reads this
    {
      GoodLogs(logs) && RowsShown(logs, rows, projecting)
    }

    /** loadQueueJob. */
    function Load(id: JobId): Option<Job>
      reads this
    {
      SeenAt(logs, rows, id)
    }
  }

  class Queue {
    const store: JobStore
    const index: JobIndex

    constructor (store: JobStore)
      requires store.Valid()
      ensures Valid() && this.store == store && fresh(index) && index.jobsById == map[]
    {
      this.store := store;
      index := new JobIndex();
    }

    /** Well-formed streams, rows and index; each indexed job is shown as some earlier part of its stream left it. */
    ghost predicate Valid()
      reads store, index
    {
      store.Valid() && index.Valid() && LagsIn(index.jobsById, store.logs)
    }

    /** The index shows every stored job as it stands. */
    ghost predicate Synced()
      reads store, index
    {
      InStep(index.jobsById, store.logs)
    }

    /** loadAuthoritativeJob: the job from its row or stream; the index follows. */
    method LoadAuthoritativeJob(jobId: JobId) returns (job: Option<Job>)
      requires Valid()
      modifies index
      ensures Valid()
      ensures job == store.Load(jobId) && (job.Some? <==> jobId in store.logs)
      ensures job.Some? ==> JobAt(store.logs, jobId).Some? && Shown(job.value, JobAt(store.logs, jobId).value)
      ensures index.jobsById == if job.Some? then old(index.jobsById)[jobId := job.value] else old(index.jobsById)
      ensures Refreshed(old(index.jobsById), index.jobsById, store.logs, jobId)
      ensures index.loaded == old(index.loaded)
    {
      hide JobIndex.Valid, GoodLogs, RowsShown, SeenAt, Lags;
      SeenIsShown(store.logs, store.rows, store.projecting, jobId);
      job := store.Load(jobId);
      if job.Some? && !SameJob(Lookup(index.jobsById, jobId), job.value) {
        index.Upsert(job.value);
      }
    }

    /** emitEvent: append to the job's stream, bring its row up to date, and index the result. */
    method Emit(jobId: JobId, event: JobEvent, at: int)
      requires Valid() && Allowed(JobAt(store.logs, jobId), event)
      requires event.Enqueue? ==> event.id == jobId
      requires store.projecting && event.Lease? ==> event.worker != ""
      modifies store, index
      ensures Valid()
      ensures store.logs == old(store.logs)[jobId := LogAt(old(store.logs), jobId) + [Receipt(event, at)]]
      ensures JobAt(store.logs, jobId) == Reduce(JobAt(old(store.logs), jobId), event, at)
      ensures JobAt(store.logs, jobId).Some?
      ensures store.rows == RowsAfter(old(store.rows), store.projecting, jobId, event, JobAt(store.logs, jobId).value)
      ensures index.jobsById == old(index.jobsById)[jobId := JobAt(store.logs, jobId).value]
      ensures index.loaded == old(index.loaded)
      ensures Refreshed(old(index.jobsById), index.jobsById, store.logs, jobId)
    {
      hide JobIndex.Valid, Reduce, Allowed, GoodLogs, RowsShown, RowsAfter, LagsIn;
      EmitKeeps(store.logs, store.rows, store.projecting, index.jobsById, jobId, event, at);
      store.logs := store.logs[jobId := LogAt(store.logs, jobId) + [Receipt(event, at)]];
      var record := JobAt(store.logs, jobId).value;
      store.rows := RowsAfter(store.rows, store.projecting, jobId, event, record);
      index.Upsert(record);
    }

    /** leaseJob: a queued job is leased for its next attempt; a job the worker already holds is handed back. */
    method LeaseJob(jobId: JobId, worker: string, leaseMs: int, at: int) returns (leased: Option<Job>)
      requires Valid() && (store.projecting ==> worker != "")
      modifies store, index
      ensures Valid()
      ensures store.logs == Applied(old(store.logs), jobId, TakeLease(worker, leaseMs), at)
      ensures Refreshed(old(index.jobsById), index.jobsById, store.logs, jobId)
      ensures var before := JobAt(old(store.logs), jobId);
        if before.Some? && before.value.status == Queued then
          && leased == JobAt(store.logs, jobId) && leased.Some?
          && LeasedTo(before.value, leased.value, worker, leaseMs, at)
        else
          && store.logs == old(store.logs)
          && leased == if before.Some? && (before.value.status == Leased || before.value.status == Running)
                          && before.value.leaseOwner == Some(worker) then old(store.Load(jobId)) else None
    {
      hide JobIndex.Valid, Advance, Reduce, EventsOn, GoodLogs, RowsShown, LagsIn, SeenAt, RowsAfter;
      var current := LoadAuthoritativeJob(jobId);
      if current.None? {
        return None;
      }
      LeaseOp(store.logs, jobId, worker, leaseMs, at);
      if current.value.status != Queued {
        return if IsLeaseOwnedBy(current.value, worker) then current else None;
      }
      var attempt := current.value.attempt + 1;
      LeaseGives(store.logs[jobId], worker, leaseMs, at);
      Emit(jobId, Lease(worker, Max(MIN_LEASE_MS, leaseMs), attempt), at);
      var next := index.jobsById[jobId];
      leased := if IsLeaseOwnedBy(next, worker) && next.attempt == attempt then Some(next) else None;
    }

    /** The common course of heartbeat, progress, complete and fail: a missing job, a terminal one and one held by
        another worker get no receipt. */
    method Report(jobId: JobId, op: Op, at: int) returns (answer: Option<Job>)
      requires Valid() && op.IsReport()
      modifies store, index
      ensures Valid()
      ensures store.logs == Applied(old(store.logs), jobId, op, at)
      ensures Refreshed(old(index.jobsById), index.jobsById, store.logs, jobId)
      ensures var before := JobAt(old(store.logs), jobId);
        if before.None? then answer == None && store.logs == old(store.logs)
        else if Finished(before.value) then answer == before && store.logs == old(store.logs)
        else if HeldElsewhere(before.value, op.worker) then answer == None && store.logs == old(store.logs)
        else
          && answer == JobAt(store.logs, jobId) && |store.logs[jobId]| == |old(store.logs)[jobId]| + 1
          && answer.Some? && Reported(before.value, answer.value, op, at)
    {
      hide JobIndex.Valid, Advance, Reduce, EventsOn, GoodLogs, RowsShown, LagsIn, SeenAt, RowsAfter;
      var current := LoadAuthoritativeJob(jobId);
      if current.None? {
        return None;
      }
      ReportOp(store.logs, jobId, op, at);
      RefusedIs(JobAt(store.logs, jobId).value, op.worker);
      if current.value.Terminal() {
        return current;
      }
      if current.value.OwnedByOther(op.worker) {
        return None;
      }
      ReportGives(store.logs[jobId], op, at);
      Emit(jobId, ReportOf(current.value, op), at);
      answer := Some(index.jobsById[jobId]);
    }

    method Cancel(jobId: JobId, reason: Option<string>, at: int) returns (answer: Option<Job>)
      requires Valid()
      modifies store, index
      ensures Valid()
      ensures store.logs == Applied(old(store.logs), jobId, CancelJob(reason), at)
      ensures Refreshed(old(index.jobsById), index.jobsById, store.logs, jobId)
      ensures answer == JobAt(store.logs, jobId) && (answer.Some? <==> jobId in old(store.logs))
      ensures answer.Some? ==> CanceledFor(JobAt(old(store.logs), jobId).value, answer.value, reason, at)
    {
      hide JobIndex.Valid, Advance, Reduce, EventsOn, GoodLogs, RowsShown, LagsIn, SeenAt, RowsAfter;
      var current := LoadAuthoritativeJob(jobId);
      if current.None? {
        return None;
      }
      CancelOp(store.logs, jobId, reason, at);
      CancelGives(store.logs[jobId], reason, at);
      if current.value.Terminal() {
        return current;
      }
      Emit(jobId, JobEvent.Cancel(reason), at);
      answer := Some(index.jobsById[jobId]);
    }

    /** queueCommand: record the command; an abort of a queued job also cancels it. */
    method AddCommand(jobId: JobId, id: string, kind: CommandKind, payload: Option<Json>, author: Option<string>,
                      now: int, at: int) returns (command: Option<Command>)
      requires Valid()
      modifies store, index
      ensures Valid()
      ensures store.logs == Applied(old(store.logs), jobId, SendCommand(id, kind, payload, author, now), at)
      ensures Refreshed(old(index.jobsById), index.jobsById, store.logs, jobId)
      ensures command == if jobId in old(store.logs) then Some(Command(id, kind, payload, author, now, None)) else None
      ensures jobId in old(store.logs) ==>
        && JobAt(old(store.logs), jobId).Some? && JobAt(store.logs, jobId).Some?
        && CommandSent(JobAt(old(store.logs), jobId).value, JobAt(store.logs, jobId).value, command.value, at)
    {
      hide JobIndex.Valid, Advance, Reduce, EventsOn, Apply, GoodLogs, RowsShown, LagsIn, SeenAt, RowsAfter,
        CommandSent, Refreshed;
      var current := LoadAuthoritativeJob(jobId);
      ghost var logs, shown := store.logs, index.jobsById;
      if current.None? {
        return None;
      }
      var op := SendCommand(id, kind, payload, author, now);
      command := op.AddedCommand();
      CommandOp(store.logs, jobId, op, at);
      CommandGives(store.logs[jobId], id, kind, payload, author, now, at);
      Emit(jobId, QueueCommand(command.value), at);
      RefreshedAgain(old(index.jobsById), shown, index.jobsById, logs, store.logs, jobId);
      if kind == Abort && current.value.status == Queued {
        logs, shown := store.logs, index.jobsById;
        Emit(jobId, JobEvent.Cancel(Some("abort requested")), at);
        RefreshedAgain(old(index.jobsById), shown, index.jobsById, logs, store.logs, jobId);
      }
    }

    /** consumeCommands: stamp and hand out the unconsumed commands of the wanted kinds. */
    method ConsumeCommands(jobId: JobId, filter: Option<set<CommandKind>>, now: int, at: int)
      returns (consumed: seq<Command>)
      requires Valid()
      modifies store, index
      ensures Valid()
      ensures var wanted := if filter.Some? then filter.value else {Steer, FollowUp, Abort};
        && store.logs == Applied(old(store.logs), jobId, TakeCommands(wanted, now), at)
        && (jobId !in old(store.logs) ==> consumed == [])
        && (jobId in old(store.logs) ==>
              && JobAt(old(store.logs), jobId).Some? && JobAt(store.logs, jobId).Some?
              && Stamps(JobAt(old(store.logs), jobId).value, JobAt(store.logs, jobId).value, wanted, now, at)
              && HandsOut(JobAt(old(store.logs), jobId).value.commands, wanted, now, consumed))
      ensures Refreshed(old(index.jobsById), index.jobsById, store.logs, jobId)
    {
      hide JobIndex.Valid, Advance, Reduce, EventsOn, Due, Apply, GoodLogs, RowsShown, LagsIn, SeenAt, RowsAfter,
        Stamps, HandsOut, Refreshed;
      var current := LoadAuthoritativeJob(jobId);
      if current.None? {
        return [];
      }
      var wanted := if filter.Some? then filter.value else {Steer, FollowUp, Abort};
      var due := Due(current.value.commands, wanted);
      ghost var log := store.logs[jobId];
      ConsumeOp(store.logs, jobId, wanted, now, at);
      ConsumeGives(log, wanted, now, at);
      if due == [] {
        DueHandsOut(current.value.commands, wanted, now, []);
        return [];
      }
      for i := 0 to |due|
        invariant Valid() && JobAt(store.logs, jobId).Some?
        invariant store.logs == old(store.logs)[jobId := Stamping(log, due, i, now, at)]
        invariant Refreshed(old(index.jobsById), index.jobsById, store.logs, jobId)
      {
        ghost var logs, shown := store.logs, index.jobsById;
        PutTwice(old(store.logs), jobId, Stamping(log, due, i, now, at), Stamping(log, due, i + 1, now, at));
        Emit(jobId, Consume(due[i].id, now), at);
        RefreshedAgain(old(index.jobsById), shown, index.jobsById, logs, store.logs, jobId);
      }
      consumed := seq(|due|, i requires 0 <= i < |due| => due[i].(consumedAt := Some(now)));
      DueHandsOut(current.value.commands, wanted, now, consumed);
    }

    /** One turn of handleExpiredLeases: the job expires if the index shows its lease as passed and a fresh load still
        does. The result says whether the index entry changed. */
    method ExpireIfOverdue(jobId: JobId, now: int, at: int) returns (changed: bool)
      requires Valid()
      modifies store, index
      ensures Valid() && index.loaded == old(index.loaded) && old(index.jobsById).Keys <= index.jobsById.Keys
      ensures store.logs == old(store.logs) || store.logs == Applied(old(store.logs), jobId, ExpireOverdue(now), at)
      ensures old(Synced()) ==> Synced() && store.logs == Applied(old(store.logs), jobId, ExpireOverdue(now), at)
      ensures changed <==> Lookup(index.jobsById, jobId) != Lookup(old(index.jobsById), jobId)
      ensures forall id :: id != jobId ==> Lookup(index.jobsById, id) == Lookup(old(index.jobsById), id)
    {
      hide JobIndex.Valid, Reduce, Advance, EventsOn, Applied, InStep, GoodLogs, RowsShown, LagsIn, SeenAt, RowsAfter;
      changed := false;
      var indexed := Lookup(index.jobsById, jobId);
      ghost var logs, shown := store.logs, index.jobsById;
      ExpireOp(logs, jobId, now, at);
      IndexedIsStored(shown, logs);
      if InStep(shown, logs) {
        OverdueInStep(shown, logs, jobId, now);
      }
      if indexed.Some? && LeasePassed(indexed.value, now) {
        var current := LoadAuthoritativeJob(jobId);
        changed := current != indexed;
        ghost var read := index.jobsById;
        if InStep(shown, logs) {
          ReadInStep(shown, read, logs, jobId);
        }
        if current.Some? && Overdue(current.value, now) {
          var willRetry := current.value.attempt < current.value.maxAttempts;
          ExpiredDiffers(indexed.value, JobAt(logs, jobId).value, willRetry, at);
          Emit(jobId, ExpireLease(willRetry), at);
          changed := true;
          if InStep(read, logs) {
            StaysInStep(read, index.jobsById, logs, jobId, ExpireOverdue(now), at);
          }
        }
      }
    }

    /** handleExpiredLeases: a pass over the leased set. The result names the jobs whose index entry changed. */
    method HandleExpiredLeases(now: int, at: int) returns (changed: set<JobId>)
      requires Valid()
      modifies store, index
      ensures Valid() && OnlyExpired(old(store.logs), store.logs, now, at)
      ensures index.loaded == old(index.loaded) && old(index.jobsById).Keys <= index.jobsById.Keys
      ensures old(Synced()) ==> Synced() && store.logs == ExpireAll(old(store.logs), now, at)
      ensures LapsesAtMost(old(store.logs), store.logs, now, at)
      ensures old(Synced()) ==> LapsesAll(old(store.logs), store.logs, now, at)
      ensures forall id :: id in changed <==> Lookup(index.jobsById, id) != Lookup(old(index.jobsById), id)
    {
      hide JobIndex.Valid, GoodLogs, Applied, Apply, ExpireAll, InStep, RowsShown, Lags, LapsesAtMost, LapsesAll;
      ghost var before := store.logs;
      ghost var synced := Synced();
      index.Agrees();
      if synced {
        NotLeasedNotOverdue(before, index.jobsById, index.leasedJobs, now, at);
      }
      changed := {};
      var todo := index.leasedJobs;
      while todo != {}
        invariant Valid() && OnlyExpired(before, store.logs, now, at) && Untouched(before, store.logs, todo)
        invariant index.loaded == old(index.loaded) && old(index.jobsById).Keys <= index.jobsById.Keys
        invariant synced ==> Synced() && PartlyExpired(before, store.logs, todo, now, at)
        invariant forall id :: id in changed <==> Lookup(index.jobsById, id) != Lookup(old(index.jobsById), id)
        invariant forall id :: id in changed ==> id !in todo
        decreases todo
      {
        var id :| id in todo;
        ghost var logs := store.logs;
        var differs := ExpireIfOverdue(id, now, at);
        if differs {
          changed := changed + {id};
        }
        OneMoreExpired(before, logs, store.logs, todo, id, now, at);
        if synced {
          ExpiredOne(before, logs, store.logs, todo, id, now, at);
        }
        todo := todo - {id};
      }
      OnlyExpiredLapses(before, store.logs, now, at);
      if synced {
        AllExpired(before, store.logs, now, at);
        ExpireAllLapses(before, now, at);
      }
    }

    /** leaseNext: expire the overdue leases, then scan the queue list for the first job that may be leased. Even where
        the index lags, the job leased was eligible as it stood, and the answer is leased to the worker. */
    method LeaseNext(options: LeaseOptions, now: int, at: int) returns (leased: Option<Job>)
      requires Valid() && (store.projecting ==> options.workerId != "")
      modifies store, index
      ensures Valid()
      ensures leased.None? ==> OnlyExpired(old(store.logs), store.logs, now, at)
      ensures leased.Some? ==>
        && JobAt(store.logs, leased.value.id) == leased && leased.value.status == Leased
        && leased.value.leaseOwner == Some(options.workerId)
        && LeasedWhileEligible(old(store.logs), options, now, at, leased.value.id, store.logs)
      ensures old(Synced()) ==> Synced() && LeasedNext(old(store.logs), options, now, at, store.logs, leased)
      ensures leased.None? ==> LapsesAtMost(old(store.logs), store.logs, now, at)
      ensures leased.Some? ==> LeasesOne(old(store.logs), options, now, at, store.logs, leased.value)
      ensures old(Synced()) ==> LeasesFirst(old(store.logs), options, now, at, store.logs, leased)
    {
      hide JobIndex.Valid, Applied, ExpireAll, OnlyExpired, Reduce, JobsIn, InStep, GoodLogs, RowsShown, LagsIn, SeenAt,
        IsFirstEligible, Refreshed, Shown, LapsesAtMost, LapsesAll, LeasesOne, LeasesFirst;
      var changed := HandleExpiredLeases(now, at);
      ghost var synced, expired, jobs := old(Synced()), store.logs, index.jobsById;
      index.Agrees();
      var queued := index.queuedJobIds;
      var i := 0;
      var next: Option<Job> := None;
      while i < |queued| && next.None?
        invariant Valid() && store.logs == expired && 0 <= i <= |queued|
        invariant synced ==> Synced()
        invariant synced && next.None? ==> NoneEligible(jobs, queued, i, options)
        invariant next.Some? ==> 0 < i && next == JobAt(expired, queued[i - 1]) && options.Eligible(next.value)
        invariant synced && next.Some? ==>
          NoneEligible(jobs, queued, i - 1, options) && options.Eligible(jobs[queued[i - 1]])
      {
        ghost var shown := index.jobsById;
        var indexed := Lookup(index.jobsById, queued[i]);
        if indexed.Some? && options.Eligible(indexed.value) {
          var current := LoadAuthoritativeJob(queued[i]);
          if current.Some? {
            EligibleIsExact(current.value, JobAt(expired, queued[i]).value, options);
          }
          if current.Some? && options.Eligible(current.value) {
            next := current;
          }
        }
        if synced {
          ScannedInStep(jobs, shown, index.jobsById, expired, queued[i], options);
        }
        i := i + 1;
      }
      if next.None? {
        if synced {
          NoneFound(jobs, queued, options);
          NoneInStep(jobs, expired, options);
          LeasedNextIsFirst(old(store.logs), options, now, at, store.logs, None);
        }
        return None;
      }
      var id := queued[i - 1];
      if synced {
        FirstFound(jobs, queued, i - 1, options);
        FirstInStep(jobs, expired, options, id);
      }
      KnownJob(expired, id);
      assert EligibleAt(expired, options, id);
      leased := LeaseFound(id, options, at);
      EligibleLeasesOne(old(store.logs), options, now, at, store.logs, leased.value);
      if synced {
        LeasedNextIsFirst(old(store.logs), options, now, at, store.logs, leased);
      }
    }

    /** The end of leaseNext: the chosen job gets its lease. */
    method LeaseFound(jobId: JobId, options: LeaseOptions, at: int) returns (leased: Option<Job>)
      requires Valid() && JobAt(store.logs, jobId).Some? && JobAt(store.logs, jobId).value.status == Queued
      requires store.projecting ==> options.workerId != ""
      modifies store, index
      ensures Valid()
      ensures store.logs == Applied(old(store.logs), jobId, TakeLease(options.workerId, options.leaseMs), at)
      ensures old(Synced()) ==> Synced()
      ensures leased == JobAt(store.logs, jobId) && leased.Some?
      ensures leased.value.id == jobId && leased.value.status == Leased
        && leased.value.leaseOwner == Some(options.workerId)
    {
      hide JobIndex.Valid, Applied, Good, Advance, Reduce, Apply, InStep, RowsShown, Lags, Refreshed;
      ghost var logs, shown := store.logs, index.jobsById;
      var attempt := JobAt(store.logs, jobId).value.attempt + 1;
      LeaseOp(store.logs, jobId, options.workerId, options.leaseMs, at);
      Emit(jobId, Lease(options.workerId, Max(MIN_LEASE_MS, options.leaseMs), attempt), at);
      if InStep(shown, logs) {
        StaysInStep(shown, index.jobsById, logs, jobId, TakeLease(options.workerId, options.leaseMs), at);
      }
      var next := index.jobsById[jobId];
      leased := if IsLeaseOwnedBy(next, options.workerId) && next.attempt == attempt then Some(next) else None;
    }

    /** activeBySession: the indexed jobs of the session that are not terminal. */
    method ActiveBySession(key: string, except: JobId) returns (active: seq<Job>)
      requires Valid()
      ensures ListsJobs(active, index.jobsById, ActiveIn(index.jobsById, key, except))
    {
      hide JobIndex.Valid, WellFormed, SessionsOf;
      index.Agrees();
      MemberSessions(index.jobsById, key);
      ghost var ids := ActiveIn(index.jobsById, key, except);
      active := [];
      var members := if key in index.sessionJobs then index.sessionJobs[key] else {};
      while members != {}
        invariant Collected(active, index.jobsById, ids, members)
        invariant forall id :: id in members ==> id in index.jobsById && index.jobsById[id].InSession(key)
        decreases members
      {
        var id :| id in members;
        CollectNext(active, index.jobsById, ids, members, id);
        members := members - {id};
        var job := index.jobsById[id];
        if !job.Terminal() && id != except {
          active := active + [job];
        }
      }
    }

    /** requestAbort on each prior job, as the index shows it. */
    method AbortPrior(prior: seq<Job>, input: EnqueueInput, commandId: JobId -> string)
      requires Valid() && forall k :: 0 <= k < |prior| ==> prior[k].id in store.logs
      modifies store, index
      ensures Valid()
      ensures store.logs == Aborting(old(store.logs), prior, input, commandId)
      ensures old(Synced()) ==> Synced()
    {
      hide JobIndex.Valid, GoodLogs, Applied, Reduce, AbortOp, AbortEvent, InStep, RowsShown, Lags, Refreshed;
      for i := 0 to |prior|
        invariant Valid() && store.logs == Aborting(old(store.logs), prior[..i], input, commandId)
        invariant store.logs.Keys == old(store.logs).Keys
        invariant old(Synced()) ==> Synced()
      {
        ghost var logs, shown := store.logs, index.jobsById;
        var job := prior[i];
        KnownJob(logs, job.id);
        AbortOpEvent(logs, job.id, job.status == Queued, input, commandId);
        assert prior[..i + 1][..i] == prior[..i];
        Emit(job.id, AbortEvent(job.status == Queued, job.id, input, commandId), input.at);
        if InStep(shown, logs) {
          var op := AbortOp(job.status == Queued, job.id, input, commandId);
          StaysInStep(shown, index.jobsById, logs, job.id, op, input.at);
        }
      }
      assert prior[..|prior|] == prior;
    }

    /** requestSteer. */
    method SteerJob(target: Job, input: EnqueueInput, commandId: JobId -> string)
      requires Valid() && input.Session().Some? && target.id in store.logs
      modifies store, index
      ensures Valid()
      ensures store.logs == Applied(old(store.logs), target.id, SteerOp(target.id, input, commandId), input.at)
      ensures old(Synced()) ==> Synced()
    {
      hide JobIndex.Valid, GoodLogs, Applied, Reduce, SteerOp, InStep, RowsShown, Lags, Refreshed;
      ghost var logs, shown := store.logs, index.jobsById;
      KnownJob(logs, target.id);
      SteerOpEvent(logs, target.id, input, commandId);
      Emit(target.id, SteerReceipt(target.id, input, commandId).event, input.at);
      if InStep(shown, logs) {
        StaysInStep(shown, index.jobsById, logs, target.id, SteerOp(target.id, input, commandId), input.at);
      }
    }

    /** Emit the new job's first receipt. */
    method CreateJob(input: EnqueueInput) returns (job: Job)
      requires Valid() && input.jobId !in store.logs
      modifies store, index
      ensures Valid()
      ensures store.logs == old(store.logs)[input.jobId := Apply([], Create(input.Request()), input.at)]
      ensures Some(job) == JobAt(store.logs, input.jobId)
      ensures old(Synced()) ==> Synced()
    {
      hide JobIndex.Valid, GoodLogs, Reduce, Apply, RowsShown, Lags;
      CreateEvent(input);
      Emit(input.jobId, Created(input.Request()), input.at);
      job := index.jobsById[input.jobId];
    }

    /** The singleton part of enqueue: the session's prior jobs among the indexed ones are stopped or, when steering,
        the most recently updated one gets a steer command and is handed back. */
    method HandlePrior(input: EnqueueInput, commandId: JobId -> string) returns (steered: Option<Job>)
      requires Valid() && input.Session().Some? && input.Mode() != Allow
      modifies store, index
      ensures Valid() && store.logs.Keys == old(store.logs).Keys
      ensures old(Synced()) ==> Synced()
      ensures var prior := PriorJobs(old(index.jobsById), input);
        if input.Mode() == SteerPrior && prior != {} then
          && steered.Some? && IsMostRecent(old(index.jobsById), prior, steered.value.id)
          && steered.value == old(index.jobsById)[steered.value.id]
          && store.logs
             == Applied(old(store.logs), steered.value.id, SteerOp(steered.value.id, input, commandId), input.at)
        else
          && steered.None?
          && store.logs ==
               if input.Mode() == CancelPrior then
                 AbortAll(old(index.jobsById), old(store.logs), prior, input, commandId)
               else old(store.logs)
    {
      hide JobIndex.Valid, GoodLogs, Apply, SteerOp, ActiveIn, Fold, Aborting, AbortAll, Sort, InStep, RowsShown, Lags;
      var members := ActiveBySession(input.Session().value, input.jobId);
      ghost var prior := ActiveIn(index.jobsById, input.Session().value, input.jobId);
      SortedByRecent(members, index.jobsById, prior);
      var active := Sort(ByRecency, members);
      steered := None;
      if input.Mode() == CancelPrior {
        AbortingKeys(store.logs, active, input, commandId);
        AbortingIsAbortAll(index.jobsById, store.logs, active, prior, input, commandId);
        AbortPrior(active, input, commandId);
      } else if |active| > 0 {
        steered := Some(active[0]);
        SteerJob(active[0], input, commandId);
      }
    }

    /** enqueue under the write lock: hand back a known job, steer or stop the session's prior jobs as asked, else
        create the job. */
    method EnqueueJob(input: EnqueueInput, commandId: JobId -> string) returns (job: Job)
      requires Valid()
      modifies store, index
      ensures Valid() && Continues(old(store.logs), store.logs)
      ensures EnqueueStep(old(index.jobsById), old(store.logs), input, commandId, store.logs)
      ensures EnqueueDoes(old(index.jobsById), old(store.logs), input, commandId, store.logs)
      ensures old(Synced()) ==> Synced()
      ensures Answers(job, old(index.jobsById), old(store.logs), old(store.rows), input, store.logs)
    {
      hide JobIndex.Valid, GoodLogs, Applied, Continues, Apply, SteerOp, ActiveIn, IsMostRecent, Fold, AbortAll, InStep,
        RowsShown, SeenAt, Lags, EnqueueDoes, IsNew, LastPrior;
      ghost var before, shown := store.logs, index.jobsById;
      NothingContinues(before);
      var existing := LoadAuthoritativeJob(input.jobId);
      if existing.Some? {
        if InStep(shown, before) {
          ReadInStep(shown, index.jobsById, before, input.jobId);
        }
        EnqueueStepDoes(shown, before, input, commandId, before);
        return existing.value;
      }
      if input.Session().Some? && input.Mode() != Allow {
        var steered := HandlePrior(input, commandId);
        if steered.Some? {
          EnqueueContinues(shown, before, input, commandId, store.logs);
          EnqueueStepDoes(shown, before, input, commandId, store.logs);
          MostRecentIs(shown, PriorJobs(shown, input), steered.value.id);
          MostRecentIsLast(shown, input, steered.value.id);
          return steered.value;
        }
      }
      AbortNone(shown, before, input, commandId);
      job := CreateJob(input);
      EnqueueContinues(shown, before, input, commandId, store.logs);
      EnqueueStepDoes(shown, before, input, commandId, store.logs);
      CreateGives(input);
    }

    /** enqueue: a singleton mode first indexes every stored job it does not know yet. */
    method Enqueue(input: EnqueueInput, commandId: JobId -> string) returns (job: Job)
      requires Valid()
      modifies store, index
      ensures Valid()
      ensures exists indexed ::
        && Moves(old(store.logs), EnqueueMove(indexed, input, commandId), store.logs)
        && EnqueueDoes(indexed, old(store.logs), input, commandId, store.logs)
        && Answers(job, indexed, old(store.logs), old(store.rows), input, store.logs)
    {
      hide JobIndex.Valid, GoodLogs, Continues, EnqueueStep, LagsIn, RowsShown, SeenIn, PriorJobs, EnqueueDoes, IsNew,
        LastPrior;
      ghost var before := store.logs;
      SeenKeys(before, store.rows, store.projecting);
      ghost var indexed := SeenIn(before, store.rows);
      if input.Mode() != Allow {
        Discover();
        indexed := index.jobsById;
      }
      ghost var shown := index.jobsById;
      job := EnqueueJob(input, commandId);
      if input.Mode() == Allow {
        AllowIgnoresIndex(shown, indexed, before, input, commandId, store.logs);
      }
      EnqueueStepDoes(indexed, before, input, commandId, store.logs);
      assert Moves(before, EnqueueMove(indexed, input, commandId), store.logs);
    }

    /** syncDiscoveredJobs: index every stored job the index does not know; the known ones are left as they are. */
    method Discover()
      requires Valid()
      modifies index
      ensures Valid() && index.loaded && Discovered(index.jobsById, store.logs)
      ensures index.jobsById == SeenIn(store.logs, store.rows) + old(index.jobsById)
    {
      hide JobIndex.Valid, GoodLogs, GoodLog, RowsShown, SeenAt, SeenIn, Lags, Shown, InStep;
      ghost var seen, known := SeenIn(store.logs, store.rows), index.jobsById;
      SeenKeys(store.logs, store.rows, store.projecting);
      var missing := store.logs.Keys - index.jobsById.Keys;
      while missing != {}
        invariant Valid() && missing <= store.logs.Keys
        invariant index.jobsById.Keys == store.logs.Keys - missing
        invariant forall id :: id in index.jobsById ==>
          index.jobsById[id] == if id in known then known[id] else seen[id]
        decreases missing
      {
        var id :| id in missing;
        missing := missing - {id};
        SeenIsShown(store.logs, store.rows, store.projecting, id);
        index.Upsert(store.Load(id).value);
      }
      index.MarkLoaded();
      MergeIs(index.jobsById, seen, known);
    }

    /** The partial course of refresh: read again the jobs the index does not know or shows as not terminal. It leaves
        the index as a full refresh would. */
    method RefreshPart()
      requires Valid()
      modifies index
      ensures Valid() && index.loaded
      ensures index.jobsById == Kept(old(index.jobsById), SeenIn(store.logs, store.rows))
    {
      hide JobIndex.Valid, GoodLogs, GoodLog, Fold, RowsShown, SeenAt, SeenIn, Refreshed, Lags, Shown, PartlyRead, Kept;
      ghost var seen, known := SeenIn(store.logs, store.rows), index.jobsById;
      SeenKeys(store.logs, store.rows, store.projecting);
      var todo := (store.logs.Keys - index.jobsById.Keys)
                  + set id | id in index.jobsById && !index.jobsById[id].Terminal();
      ghost var all := todo;
      NothingRead(known, seen, all);
      while todo != {}
        invariant Valid() && todo <= all <= store.logs.Keys
        invariant PartlyRead(index.jobsById, known, seen, all, todo)
        decreases todo
      {
        var id :| id in todo;
        ReadOneMore(index.jobsById, known, seen, all, todo, id);
        todo := todo - {id};
        var current := LoadAuthoritativeJob(id);
      }
      index.MarkLoaded();
      PartIsKept(index.jobsById, seen, known, all);
    }

    /** The jobs a refresh lists: the indexed copy of a job indexed as terminal, every other job as loading finds it. */
    method ListJobs() returns (jobs: seq<Job>)
      requires Valid()
      ensures DistinctIds(jobs) && ById(jobs) == Kept(index.jobsById, SeenIn(store.logs, store.rows))
    {
      hide JobIndex.Valid, GoodLogs, GoodLog, RowsShown, SeenAt, SeenIn, LagsIn, InStep;
      index.Agrees();
      ghost var seen := SeenIn(store.logs, store.rows);
      SeenKeys(store.logs, store.rows, store.projecting);
      ghost var kept := Kept(index.jobsById, seen);
      jobs := [];
      var todo := store.logs.Keys;
      while todo != {}
        invariant todo <= store.logs.Keys && Collected(jobs, kept, kept.Keys, todo)
        decreases todo
      {
        var id :| id in todo;
        CollectNext(jobs, kept, kept.Keys, todo, id);
        todo := todo - {id};
        var indexed := Lookup(index.jobsById, id);
        if indexed.Some? && indexed.value.Terminal() {
          jobs := jobs + [indexed.value];
        } else {
          jobs := jobs + [store.Load(id).value];
        }
      }
      CollectedById(jobs, kept);
    }

    /** The indexed jobs under the given ids, most recently updated first. */
    method ListRecent(ids: set<JobId>) returns (jobs: seq<Job>)
      requires Valid() && ids <= index.jobsById.Keys
      ensures ListsJobs(jobs, index.jobsById, ids) && SortedJobs(ByRecency, jobs)
    {
      hide JobIndex.Valid, GoodLogs, LagsIn, Before, Sort;
      index.Agrees();
      var listed := [];
      var todo := ids;
      while todo != {}
        invariant todo <= ids && Collected(listed, index.jobsById, ids, todo)
        decreases todo
      {
        var id :| id in todo;
        CollectNext(listed, index.jobsById, ids, todo, id);
        todo := todo - {id};
        listed := listed + [index.jobsById[id]];
      }
      SortedByRecent(listed, index.jobsById, ids);
      SortSorts(ByRecency, listed);
      jobs := Sort(ByRecency, listed);
    }

    /** refreshAllJobs: rebuild the index from the listed jobs; then, if asked, expire the overdue leases. The result
        lists the jobs that either step changed in the index; the very first rebuild reports nothing. */
    method RefreshAll(expire: bool, now: int, at: int) returns (changed: seq<Job>)
      requires Valid()
      modifies store, index
      ensures Valid() && index.loaded && OnlyExpired(old(store.logs), store.logs, now, at)
      ensures LapsesAtMost(old(store.logs), store.logs, now, at)
      ensures var kept := Kept(old(index.jobsById), SeenIn(old(store.logs), old(store.rows)));
        && (!expire ==> store.logs == old(store.logs) && index.jobsById == kept)
        && (InStep(kept, old(store.logs)) ==>
              && Synced()
              && (if expire then LapsesAll(old(store.logs), store.logs, now, at) else store.logs == old(store.logs)))
        && SortedJobs(ByRecency, changed)
        && ListsJobs(changed, index.jobsById, ChangedIds(old(index.jobsById), kept, index.jobsById, old(index.loaded)))
    {
      hide JobIndex.Valid, GoodLogs, LagsIn, Apply, ExpireAll, RowsShown, SeenIn, InStep, ChangedIds, IdSet, Kept,
        Rebuild, LapsesAll;
      ghost var logs, known, seen := store.logs, index.jobsById, SeenIn(store.logs, store.rows);
      SeenKeys(logs, store.rows, store.projecting);
      index.Agrees();
      KeptLags(known, logs, seen);
      var bootstrap := !index.loaded;
      var jobs := ListJobs();
      ReloadedIds(known, jobs, !bootstrap);
      var reloaded := index.Reset(jobs);
      RebuildJobs(jobs);
      ghost var kept := index.jobsById;
      var changedIds := if bootstrap then {} else IdSet(reloaded);
      if expire {
        var expired := HandleExpiredLeases(now, at);
        ChangedSince(known, kept, index.jobsById, !bootstrap, expired);
        changedIds := changedIds + expired;
      }
      ChangedAreIndexed(known, kept, index.jobsById, !bootstrap);
      changed := ListRecent(changedIds);
    }
  }
}
