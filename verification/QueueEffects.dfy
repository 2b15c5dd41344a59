/** What expiring leases, leasing the next job and enqueueing leave of all stored jobs, in terms of the jobs' fields. */
module QueueEffects {
  import opened Basics
  import opened JobEffects
  import opened Jobs
  import opened JobProtocol
  import opened QueueIndex
  import opened QueueSpec
  import opened QueueSteps

  // ---------------------------------------------------------------------------------------------------------------
  // Expired leases

  /** The job's stream is untouched, or the job was past its deadline and lost its lease. */
  ghost predicate LapsesAtMost(before: Logs, after: Logs, now: int, at: int) {
    && after.Keys == before.Keys
    && forall id :: id in before && after[id] != before[id] ==>
         && JobAt(before, id).Some? && JobAt(after, id).Some?
         && PastDeadline(JobAt(before, id).value, now)
         && LostLease(JobAt(before, id).value, JobAt(after, id).value, at)
  }

  /** Exactly the jobs past their deadline lost their lease, and none is past its deadline any more. */
  ghost predicate LapsesAll(before: Logs, after: Logs, now: int, at: int) {
    && LapsesAtMost(before, after, now, at)
    && forall id :: id in before ==>
         && JobAt(before, id).Some? && JobAt(after, id).Some?
         && (PastDeadline(JobAt(before, id).value, now) ==> after[id] != before[id])
         && !PastDeadline(JobAt(after, id).value, now)
  }

  lemma OnlyExpiredLapses(before: Logs, after: Logs, now: int, at: int)
    requires GoodLogs(before) && OnlyExpired(before, after, now, at)
    ensures LapsesAtMost(before, after, now, at)
  {
    hide Good, Fold, Apply, PastDeadline, LostLease;
    forall id | id in before && after[id] != before[id]
      ensures JobAt(before, id).Some? && JobAt(after, id).Some? && PastDeadline(JobAt(before, id).value, now)
      ensures LostLease(JobAt(before, id).value, JobAt(after, id).value, at)
    {
      KnownJob(before, id);
      ExpireGives(before[id], now, at);
    }
  }

  lemma ExpireAllLapses(before: Logs, now: int, at: int)
    requires GoodLogs(before)
    ensures LapsesAll(before, ExpireAll(before, now, at), now, at)
  {
    hide Good, Fold, Apply;
    var after := ExpireAll(before, now, at);
    forall id | id in before
      ensures JobAt(before, id).Some? && JobAt(after, id).Some?
      ensures var (a, b) := (JobAt(before, id).value, JobAt(after, id).value);
        if PastDeadline(a, now) then after[id] != before[id] && LostLease(a, b, at) && !PastDeadline(b, now)
        else after[id] == before[id]
    {
      KnownJob(before, id);
      ExpireGives(before[id], now, at);
    }
  }

  // ---------------------------------------------------------------------------------------------------------------
  // leaseNext

  /** The agent is asked for by its name, white space around it aside. */
  ghost predicate AsksFor(options: LeaseOptions, agent: string) {
    && agent != ""
    && ((options.agentId.Some? && Trim(options.agentId.value) == agent)
        || exists i :: 0 <= i < |options.agentIds| && Trim(options.agentIds[i]) == agent)
  }

  /** The job is queued, nobody asked to abort it, and it is of an agent and of a lane that is asked for, if any is. */
  ghost predicate MayLease(job: Job, options: LeaseOptions) {
    && job.status == Queued && !job.abortRequested
    && (AsksFor(options, job.agentId) || !exists agent :: AsksFor(options, agent))
    && (job.lane in options.lanes || options.lanes == [])
  }

  lemma EligibleMayLease(job: Job, options: LeaseOptions)
    ensures options.Eligible(job) <==> MayLease(job, options)
  {
    forall agent ensures agent in options.Agents() <==> AsksFor(options, agent) {
    }
    assert options.Agents() == {} <==> !exists agent :: agent in options.Agents();
    if options.lanes != [] {
      assert options.lanes[0] in options.Lanes();
    }
  }

  /** After no more than expiries the job might be leased, and it was, for the worker's next attempt on it. */
  ghost predicate LeasesOne(before: Logs, options: LeaseOptions, now: int, at: int, after: Logs, leased: Job) {
    exists lapsed :: LapsesAtMost(before, lapsed, now, at) && LeasesFrom(lapsed, options, at, after, leased)
  }

  ghost predicate LeasesFrom(lapsed: Logs, options: LeaseOptions, at: int, after: Logs, leased: Job) {
    && JobAt(lapsed, leased.id).Some? && MayLease(JobAt(lapsed, leased.id).value, options)
    && LeasedTo(JobAt(lapsed, leased.id).value, leased, options.workerId, options.leaseMs, at)
    && leased.id in after && after == lapsed[leased.id := after[leased.id]] && JobAt(after, leased.id) == Some(leased)
  }

  /** After exactly the jobs past their deadline lost their lease: the job queued earliest of all that may be leased is
      leased, or there is none and nothing else happened. */
  ghost predicate LeasesFirst(before: Logs, options: LeaseOptions, now: int, at: int, after: Logs,
                              leased: Option<Job>)
  {
    exists lapsed :: LapsesAll(before, lapsed, now, at) && LeasesFirstFrom(lapsed, options, at, after, leased)
  }

  ghost predicate LeasesFirstFrom(lapsed: Logs, options: LeaseOptions, at: int, after: Logs, leased: Option<Job>) {
    match leased
    case None =>
      && after == lapsed
      && forall id :: id in lapsed && JobAt(lapsed, id).Some? ==> !MayLease(JobAt(lapsed, id).value, options)
    case Some(job) =>
      && LeasesFrom(lapsed, options, at, after, job)
      && forall id :: id in lapsed && id != job.id && JobAt(lapsed, id).Some? ==>
           MayLease(JobAt(lapsed, id).value, options) ==> QueuedEarlier(job, JobAt(lapsed, id).value)
  }

  /** A lease of a queued job. */
  lemma AppliedLease(logs: Logs, options: LeaseOptions, at: int, leased: Job)
    requires JobAt(logs, leased.id).Some? && options.Eligible(JobAt(logs, leased.id).value)
    requires var after := Applied(logs, leased.id, TakeLease(options.workerId, options.leaseMs), at);
      JobAt(after, leased.id) == Some(leased)
    ensures LeasesFrom(logs, options, at, Applied(logs, leased.id, TakeLease(options.workerId, options.leaseMs), at),
                       leased)
  {
    hide Fold, Apply, MayLease, LeasedTo;
    EligibleMayLease(JobAt(logs, leased.id).value, options);
    LeaseGives(logs[leased.id], options.workerId, options.leaseMs, at);
  }

  lemma EligibleLeasesOne(before: Logs, options: LeaseOptions, now: int, at: int, after: Logs, leased: Job)
    requires GoodLogs(before) && LeasedWhileEligible(before, options, now, at, leased.id, after)
    requires JobAt(after, leased.id) == Some(leased)
    ensures LeasesOne(before, options, now, at, after, leased)
  {
    hide GoodLogs, OnlyExpired, Applied, LapsesAtMost, LeasesFrom;
    var op := TakeLease(options.workerId, options.leaseMs);
    var logs :| OnlyExpired(before, logs, now, at) && EligibleAt(logs, options, leased.id)
      && after == Applied(logs, leased.id, op, at);
    OnlyExpiredLapses(before, logs, now, at);
    AppliedLease(logs, options, at, leased);
  }

  lemma LeasedNextIsFirst(before: Logs, options: LeaseOptions, now: int, at: int, after: Logs, leased: Option<Job>)
    requires GoodLogs(before) && LeasedNext(before, options, now, at, after, leased)
    ensures LeasesFirst(before, options, now, at, after, leased)
  {
    hide GoodLogs, ExpireAll, Applied, LapsesAll, LeasesFrom, LeaseOptions.Eligible, MayLease, Before, QueuedEarlier,
      Fold;
    var lapsed := ExpireAll(before, now, at);
    var jobs := JobsIn(lapsed);
    ExpireAllLapses(before, now, at);
    forall id | id in lapsed && JobAt(lapsed, id).Some?
      ensures id in jobs && jobs[id] == JobAt(lapsed, id).value
      ensures options.Eligible(jobs[id]) <==> MayLease(jobs[id], options)
    {
      EligibleMayLease(jobs[id], options);
    }
    if leased.Some? {
      var id := leased.value.id;
      AppliedLease(lapsed, options, at, leased.value);
      forall other | other in jobs && other != id && MayLease(jobs[other], options)
        ensures QueuedEarlier(leased.value, jobs[other])
      {
        LeasedStaysEarlier(lapsed, options, at, after, leased.value, jobs[other]);
      }
    }
    assert LeasesFirstFrom(lapsed, options, at, after, leased);
  }

  /** The lease changes neither lane nor creation time nor id. */
  lemma LeasedStaysEarlier(lapsed: Logs, options: LeaseOptions, at: int, after: Logs, leased: Job, other: Job)
    requires LeasesFrom(lapsed, options, at, after, leased)
    requires Before(ByQueue, JobAt(lapsed, leased.id).value, other)
    ensures QueuedEarlier(leased, other)
  {
    hide Fold, MayLease;
    OrdersAre(JobAt(lapsed, leased.id).value, other);
  }

  // ---------------------------------------------------------------------------------------------------------------
  // enqueue

  /** The new job of an enqueue. */
  predicate IsNew(job: Job, input: EnqueueInput) {
    && job.id == input.jobId && job.agentId == input.agentId && job.payload == input.payload
    && job.createdAt == input.now && job.updatedAt == input.at
    && (if input.lane == None then job.lane == CollectLane else input.lane == Some(job.lane))
    && (if input.mode == None then job.singletonMode == Allow else input.mode == Some(job.singletonMode))
    && InSessionOf(job.sessionKey, input.sessionKey) && AttemptsAllowed(job.maxAttempts, input.maxAttempts)
    && job.status == Queued && job.attempt == 0 && job.commands == [] && !job.abortRequested
    && job.leaseOwner == None && job.leaseUntil == None && job.lastError == None && job.result == None
    && job.canceledReason == None
  }

  lemma CreateGives(input: EnqueueInput)
    ensures var log := Apply([], Create(input.Request()), input.at);
      |log| == 1 && Fold(log).Some? && IsNew(Fold(log).value, input)
  {
    var event := Created(input.Request());
    AppendOne([], event, input.at);
    FoldAppend([], Receipt(event, input.at));
  }

  /** The index shows the job as one of the session that is not finished. */
  predicate IsPrior(indexed: JobMap, id: JobId, input: EnqueueInput) {
    && id in indexed && id != input.jobId && !Finished(indexed[id])
    && indexed[id].sessionKey != None && InSessionOf(indexed[id].sessionKey, input.sessionKey)
  }

  /** Of the prior jobs the one updated last. */
  ghost predicate LastPrior(indexed: JobMap, id: JobId, input: EnqueueInput) {
    && IsPrior(indexed, id, input)
    && forall other :: IsPrior(indexed, other, input) && other != id ==> UpdatedLater(indexed[id], indexed[other])
  }

  /** An enqueue of a known job does nothing. One that steers, with a prior job, leaves that job the payload as a steer
      command. Any other creates its job; one that cancels also stops every prior job as the index shows it. */
  ghost predicate EnqueueDoes(indexed: JobMap, before: Logs, input: EnqueueInput, commandId: JobId -> string,
                              after: Logs)
  {
    if input.jobId in before then after == before
    else if input.mode == Some(SteerPrior) && exists id :: IsPrior(indexed, id, input) then
      exists id :: LastPrior(indexed, id, input) && SteersJob(before, id, input, commandId, after)
    else
      && after.Keys == before.Keys + {input.jobId}
      && |after[input.jobId]| == 1 && JobAt(after, input.jobId).Some? && IsNew(JobAt(after, input.jobId).value, input)
      && forall id :: id in before ==>
           if input.mode == Some(CancelPrior) && IsPrior(indexed, id, input) then
             StopsJob(before, id, indexed[id].status == Queued, input, commandId, after)
           else after[id] == before[id]
  }

  ghost predicate SteersJob(before: Logs, id: JobId, input: EnqueueInput, commandId: JobId -> string, after: Logs) {
    && input.sessionKey.Some? && JobAt(before, id).Some? && JobAt(after, id).Some?
    && after == before[id := after[id]] && |after[id]| == |before[id]| + 1
    && Commanded(JobAt(before, id).value, JobAt(after, id).value,
                 Command(commandId(id), Steer, Some(FromEnqueue(Trim(input.sessionKey.value), input.payload)), None,
                         input.now, None),
                 input.at)
  }

  ghost predicate StopsJob(before: Logs, id: JobId, seenQueued: bool, input: EnqueueInput, commandId: JobId -> string,
                           after: Logs)
  {
    && JobAt(before, id).Some? && JobAt(after, id).Some? && |after[id]| == |before[id]| + 1
    && Stopped(JobAt(before, id).value, JobAt(after, id).value, seenQueued, commandId(id), input.now, input.at)
  }

  lemma PriorAre(indexed: JobMap, input: EnqueueInput)
    ensures forall id :: id in PriorJobs(indexed, input) <==>
      input.mode != None && input.mode != Some(Allow) && IsPrior(indexed, id, input)
    ensures PriorJobs(indexed, input) != {} ==> input.Session().Some?
  {
  }

  lemma MostRecentIsLast(indexed: JobMap, input: EnqueueInput, id: JobId)
    requires IsMostRecent(indexed, PriorJobs(indexed, input), id)
    ensures LastPrior(indexed, id, input)
  {
    hide Before, UpdatedLater, PriorJobs, IsPrior;
    PriorAre(indexed, input);
    forall other | IsPrior(indexed, other, input) && other != id ensures UpdatedLater(indexed[id], indexed[other]) {
      OrdersAre(indexed[id], indexed[other]);
    }
  }

  /** The steps of EnqueueStep are those of EnqueueDoes. */
  lemma EnqueueStepDoes(indexed: JobMap, before: Logs, input: EnqueueInput, commandId: JobId -> string, after: Logs)
    requires GoodLogs(before) && LagsIn(indexed, before) && EnqueueStep(indexed, before, input, commandId, after)
    ensures EnqueueDoes(indexed, before, input, commandId, after)
  {
    hide GoodLogs, LagsIn, Lags, Fold, Apply, IsNew, IsPrior, PriorJobs, LastPrior, SteersJob, StopsJob, AbortOp,
      SteerOp, IsMostRecent;
    PriorAre(indexed, input);
    if input.jobId in before {
    } else if input.Mode() == SteerPrior && PriorJobs(indexed, input) != {} {
      var target :| IsMostRecent(indexed, PriorJobs(indexed, input), target)
        && after == Applied(before, target, SteerOp(target, input, commandId), input.at);
      MostRecentIsLast(indexed, input, target);
      SteerDoes(indexed, before, target, input, commandId);
    } else {
      PriorIndexed(indexed, input);
      EnqueueCreates(indexed, before, input, commandId, after);
      CreateGives(input);
      forall id | id in before && input.Mode() == CancelPrior && id in PriorJobs(indexed, input)
        ensures StopsJob(before, id, indexed[id].status == Queued, input, commandId, after)
      {
        StopDoes(indexed, before, id, input, commandId, after);
      }
    }
  }

  lemma SteerDoes(indexed: JobMap, before: Logs, id: JobId, input: EnqueueInput, commandId: JobId -> string)
    requires GoodLogs(before) && LagsIn(indexed, before) && input.Session().Some?
    requires IsMostRecent(indexed, PriorJobs(indexed, input), id)
    ensures id in before
    ensures SteersJob(before, id, input, commandId, Applied(before, id, SteerOp(id, input, commandId), input.at))
  {
    hide GoodLogs, Lags, Fold, Apply, PriorJobs;
    MostRecentIs(indexed, PriorJobs(indexed, input), id);
    KnownJob(before, id);
    SteerGives(before[id], commandId(id), input.Session().value, input.payload, input.now, input.at);
  }

  lemma StopDoes(indexed: JobMap, before: Logs, id: JobId, input: EnqueueInput, commandId: JobId -> string, after: Logs)
    requires GoodLogs(before) && id in before && id in indexed && id in after
    requires after[id] == Apply(before[id], AbortOp(indexed[id].status == Queued, id, input, commandId), input.at)
    ensures StopsJob(before, id, indexed[id].status == Queued, input, commandId, after)
  {
    hide GoodLogs, Fold, Apply;
    KnownJob(before, id);
    StopGives(before[id], indexed[id].status == Queued, commandId(id), input.now, input.at);
  }

  /** The job an enqueue hands back: the known job, the new one, or the steered one as the index showed it. */
  ghost predicate Answers(job: Job, indexed: JobMap, before: Logs, rows: JobMap, input: EnqueueInput, after: Logs) {
    if input.jobId in before then Some(job) == SeenAt(before, rows, input.jobId)
    else if input.jobId in after then Some(job) == JobAt(after, input.jobId) && IsNew(job, input)
    else LastPrior(indexed, job.id, input) && job == indexed[job.id]
  }
}
