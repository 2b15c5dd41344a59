/** The job module (src/modules/job.ts): job records, the events of one job's stream and their reducer. */
module Jobs {
  import opened Basics

  /** A job id, known only by its place in the collation order. The code takes `localeCompare` to be a strict
      total order on the ids that occur; every such order on countably many strings embeds in the reals. */
  datatype JobId = JobId(rank: real)

  /** A payload or a result field: opaque, compared for equality only. */
  datatype Json = Opaque(text: string) | AbortReason(reason: string) | FromEnqueue(sessionKey: string, payload: Json)

  type Fields = map<string, Json>

  datatype Lane = ChatLane | CollectLane | SteerLane | FollowUpLane

  datatype Status = Queued | Leased | Running | Completed | Failed | Canceled

  datatype CommandKind = Steer | FollowUp | Abort

  datatype SingletonMode = Allow | CancelPrior | SteerPrior

  datatype Command = Command(id: string, kind: CommandKind, payload: Option<Json>, author: Option<string>,
                             createdAt: int, consumedAt: Option<int>)
  {
    /** `!cmd.consumedAt`: a stamp of 0 reads as no stamp. */
    predicate Unconsumed() {
      consumedAt.None? || consumedAt.value == 0
    }
  }

  datatype Job = Job(
    id: JobId,
    agentId: string,
    lane: Lane,
    sessionKey: Option<string>,
    singletonMode: SingletonMode,
    payload: Json,
    status: Status,
    attempt: int,
    maxAttempts: int,
    createdAt: int,
    updatedAt: int,
    leaseOwner: Option<string>,
    leaseUntil: Option<int>,
    lastError: Option<string>,
    result: Option<Fields>,
    canceledReason: Option<string>,
    abortRequested: bool,
    commands: seq<Command>)
  {
    predicate Terminal() {
      status in {Completed, Failed, Canceled}
    }

    /** A worker holds the lease. */
    predicate Active() {
      status in {Leased, Running}
    }

    /** `job.leaseOwner && job.leaseOwner !== workerId`: an empty owner reads as none. */
    predicate OwnedByOther(worker: string) {
      leaseOwner.Some? && leaseOwner.value != "" && leaseOwner.value != worker
    }

    predicate ShouldQueue() {
      status == Queued && !abortRequested
    }

    predicate InSession(key: string) {
      sessionKey == Some(key) && key != ""
    }
  }

  datatype JobEvent =
    | Enqueue(id: JobId, agentId: string, lane: Lane, payload: Json, maxAttempts: int, sessionKey: Option<string>,
              singletonMode: SingletonMode, createdAt: int)
    | Lease(worker: string, leaseMs: int, attempt: int)
    | Heartbeat(worker: string, leaseMs: int)
    | Progress(worker: string, progress: Option<Fields>)
    | Complete(worker: string, result: Option<Fields>)
    | Fail(worker: string, error: string, willRetry: bool, result: Option<Fields>)
    | Cancel(reason: Option<string>)
    | QueueCommand(command: Command)
    | Consume(commandId: string, consumedAt: int)
    | ExpireLease(willRetry: bool)
  {
    predicate IsCommandRecord() {
      QueueCommand? || Consume?
    }

    /** A worker's report on a job it holds. */
    predicate IsReport() {
      Heartbeat? || Progress? || Complete? || Fail?
    }
  }

  function Stamped(commands: seq<Command>, id: string, at: int): seq<Command> {
    seq(|commands|, i requires 0 <= i < |commands| =>
      if commands[i].id == id then commands[i].(consumedAt := Some(at)) else commands[i])
  }

  /** One reducer step on the only job of a job stream; None where the reducer throws for want of a job. */
  function Reduce(prev: Option<Job>, event: JobEvent, ts: int): Option<Job> {
    match event
    case Enqueue(id, agentId, lane, payload, maxAttempts, sessionKey, mode, createdAt) =>
      Some(Job(id, agentId, lane, sessionKey, mode, payload, Queued, 0, maxAttempts, createdAt, ts,
               None, None, None, None, None, false, []))
    case _ =>
      if prev.None? then None else Some(Advance(prev.value, event, ts))
  }

  function Advance(job: Job, event: JobEvent, ts: int): Job
    requires !event.Enqueue?
  {
    match event
    case Lease(worker, leaseMs, attempt) =>
      if job.status != Queued then job
      else job.(status := Leased, attempt := attempt, leaseOwner := Some(worker), leaseUntil := Some(ts + leaseMs),
                updatedAt := ts)
    case Heartbeat(worker, leaseMs) =>
      if !job.Active() then job
      else job.(status := Running, leaseOwner := Some(worker), leaseUntil := Some(ts + leaseMs), updatedAt := ts)
    case Progress(worker, progress) =>
      if !job.Active() then job
      else
        var merged := match progress
          case None => job.result
          case Some(fields) => Some((if job.result.Some? then job.result.value else map[]) + fields);
        job.(status := Running, leaseOwner := Some(worker), result := merged, updatedAt := ts)
    case Complete(worker, result) =>
      if !job.Active() then job
      else job.(status := Completed, leaseOwner := Some(worker), leaseUntil := None, result := result,
                updatedAt := ts)
    case Fail(worker, error, willRetry, result) =>
      if !job.Active() then job
      else job.(status := if willRetry then Queued else Failed, leaseOwner := Some(worker), leaseUntil := None,
                lastError := Some(error), result := if result.Some? then result else job.result, updatedAt := ts)
    case Cancel(reason) =>
      if job.Terminal() then job
      else job.(status := Canceled, leaseUntil := None, canceledReason := reason, abortRequested := true,
                updatedAt := ts)
    case QueueCommand(command) =>
      job.(abortRequested := job.abortRequested || command.kind == Abort, commands := job.commands + [command],
           updatedAt := ts)
    case Consume(id, at) =>
      job.(commands := Stamped(job.commands, id, at), updatedAt := ts)
    case ExpireLease(willRetry) =>
      if !job.Active() then job
      else job.(status := if willRetry then Queued else Failed, leaseUntil := None, leaseOwner := None,
                lastError := Some("lease expired"), updatedAt := ts)
  }

  datatype Receipt = Receipt(event: JobEvent, ts: int)

  /** The receipts of one job's stream, oldest first. */
  type Log = seq<Receipt>

  function Fold(log: Log): Option<Job> {
    if log == [] then None
    else
      var last := log[|log| - 1];
      Reduce(Fold(log[..|log| - 1]), last.event, last.ts)
  }

  lemma FoldAppend(log: Log, receipt: Receipt)
    ensures Fold(log + [receipt]) == Reduce(Fold(log), receipt.event, receipt.ts)
  {
    assert (log + [receipt])[..|log|] == log;
  }
}
