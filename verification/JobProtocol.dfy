/** The queue operations of src/adapters/sqlite-queue.ts seen from one job's stream: what each appends, what every
    stream they build looks like, and the safety of the lease protocol over all runs. */
module JobProtocol {
  import opened Basics
  import opened Jobs

  // ---------------------------------------------------------------------------------------------------------------
  // The operations

  datatype JobRequest = JobRequest(id: JobId, agentId: string, lane: Option<Lane>, sessionKey: Option<string>,
                                   mode: Option<SingletonMode>, payload: Json, maxAttempts: Option<int>,
                                   createdAt: int)

  datatype Op =
    | Create(request: JobRequest)
    | TakeLease(worker: string, leaseMs: int)
    | SendHeartbeat(worker: string, leaseMs: int)
    | SendProgress(worker: string, progress: Option<Fields>)
    | SendComplete(worker: string, result: Option<Fields>)
    | SendFail(worker: string, error: string, noRetry: bool, result: Option<Fields>)
    | CancelJob(reason: Option<string>)
    | SendCommand(id: string, kind: CommandKind, payload: Option<Json>, author: Option<string>, now: int)
    | TakeCommands(wanted: set<CommandKind>, now: int)
    | ExpireOverdue(now: int)
    // The two requests of a singleton enqueue. They act on the job as the index shows it, not on a fresh load.
    | RequestAbort(seenQueued: bool, why: string, id: string, now: int)
    | RequestSteer(id: string, steering: Json, now: int)
  {
    predicate IsReport() {
      SendHeartbeat? || SendProgress? || SendComplete? || SendFail?
    }

    /** The command record this operation adds, if any. */
    function AddedCommand(): Option<Command> {
      match this
      case SendCommand(id, kind, payload, author, now) => Some(Command(id, kind, payload, author, now, None))
      case RequestAbort(false, reason, id, now) => Some(Command(id, Abort, Some(AbortReason(reason)), None, now, None))
      case RequestSteer(id, payload, now) => Some(Command(id, Steer, Some(payload), None, now, None))
      case _ => None
    }
  }

  const MIN_LEASE_MS := 1_000
  const DEFAULT_ATTEMPTS := 2
  const MOST_ATTEMPTS := 8

  function ClampAttempts(requested: Option<int>): int {
    Max(1, Min(if requested.Some? then requested.value else DEFAULT_ATTEMPTS, MOST_ATTEMPTS))
  }

  function SessionKey(raw: Option<string>): Option<string> {
    if raw.Some? && Trim(raw.value) != "" then Some(Trim(raw.value)) else None
  }

  function Created(request: JobRequest): JobEvent {
    Enqueue(request.id, request.agentId, if request.lane.Some? then request.lane.value else CollectLane,
            request.payload, ClampAttempts(request.maxAttempts), SessionKey(request.sessionKey),
            if request.mode.Some? then request.mode.value else Allow, request.createdAt)
  }

  /** The unconsumed commands of the wanted kinds, in queue order. */
  function Due(commands: seq<Command>, wanted: set<CommandKind>): seq<Command> {
    if commands == [] then []
    else
      var rest := Due(commands[1..], wanted);
      if commands[0].Unconsumed() && commands[0].kind in wanted then [commands[0]] + rest else rest
  }

  /** `leaseUntil` is set, is not 0 and has passed. */
  predicate Overdue(job: Job, now: int) {
    job.Active() && job.leaseUntil.Some? && job.leaseUntil.value != 0 && job.leaseUntil.value <= now
  }

  function ReportOf(job: Job, op: Op): JobEvent
    requires op.IsReport()
  {
    match op
    case SendHeartbeat(worker, leaseMs) => Heartbeat(worker, Max(MIN_LEASE_MS, leaseMs))
    case SendProgress(worker, progress) => Progress(worker, progress)
    case SendComplete(worker, result) => Complete(worker, result)
    case SendFail(worker, error, noRetry, result) =>
      var retryable := job.attempt < job.maxAttempts && !noRetry;
      Fail(worker, error, retryable, if retryable then None else result)
  }

  /** The events the operation emits when the stream folds to `job`. */
  function Events(job: Option<Job>, op: Op): seq<JobEvent> {
    if op.Create? then
      if job.None? then [Created(op.request)] else []
    else if job.None? then []
    else EventsOn(job.value, op)
  }

  function EventsOn(job: Job, op: Op): seq<JobEvent>
    requires !op.Create?
  {
    if op.IsReport() then
      if job.Terminal() || job.OwnedByOther(op.worker) then [] else [ReportOf(job, op)]
    else match op
      case TakeLease(worker, leaseMs) =>
        if job.status == Queued then [Lease(worker, Max(MIN_LEASE_MS, leaseMs), job.attempt + 1)] else []
      case CancelJob(reason) => if job.Terminal() then [] else [Cancel(reason)]
      case SendCommand(_, kind, _, _, _) =>
        [QueueCommand(op.AddedCommand().value)]
        + if kind == Abort && job.status == Queued then [Cancel(Some("abort requested"))] else []
      case TakeCommands(wanted, now) =>
        var due := Due(job.commands, wanted);
        seq(|due|, i requires 0 <= i < |due| => Consume(due[i].id, now))
      case ExpireOverdue(now) => if Overdue(job, now) then [ExpireLease(job.attempt < job.maxAttempts)] else []
      case RequestAbort(seenQueued, reason, _, _) =>
        if seenQueued then [Cancel(Some(reason))] else [QueueCommand(op.AddedCommand().value)]
      case RequestSteer(_, _, _) => [QueueCommand(op.AddedCommand().value)]
      case _ => []
  }

  function Append(log: Log, events: seq<JobEvent>, at: int): Log {
    if events == [] then log
    else Append(log, events[..|events| - 1], at) + [Receipt(events[|events| - 1], at)]
  }

  /** The stream after one operation whose receipts carry the clock value `at`. */
  function Apply(log: Log, op: Op, at: int): Log {
    Append(log, Events(Fold(log), op), at)
  }

  lemma AppendOne(log: Log, event: JobEvent, at: int)
    ensures Append(log, [event], at) == log + [Receipt(event, at)]
  {
    assert Append(log, [event][..0], at) == log;
  }

  datatype Step = Step(op: Op, at: int)

  /** The stream a run of operations leaves, starting from an empty one. */
  function Run(steps: seq<Step>): Log {
    if steps == [] then []
    else Apply(Run(steps[..|steps| - 1]), steps[|steps| - 1].op, steps[|steps| - 1].at)
  }

  // ---------------------------------------------------------------------------------------------------------------
  // What every stream looks like

  /** When an event may follow a stream that folds to `prev`. */
  predicate Allowed(prev: Option<Job>, event: JobEvent) {
    match event
    case Enqueue(_, _, _, _, maxAttempts, _, _, _) => prev.None? && 1 <= maxAttempts <= MOST_ATTEMPTS
    case Lease(_, _, attempt) => prev.Some? && prev.value.status == Queued && attempt == prev.value.attempt + 1
    case Fail(worker, _, willRetry, _) =>
      && prev.Some? && !prev.value.Terminal() && !prev.value.OwnedByOther(worker)
      && (willRetry ==> prev.value.attempt < prev.value.maxAttempts)
    case ExpireLease(willRetry) =>
      prev.Some? && prev.value.Active() && (willRetry <==> prev.value.attempt < prev.value.maxAttempts)
    case _ =>
      && prev.Some?
      && (event.IsReport() ==> !prev.value.Terminal() && !prev.value.OwnedByOther(event.worker))
  }

  ghost predicate Good(log: Log) {
    forall i :: 0 <= i < |log| ==> Allowed(Fold(log[..i]), log[i].event)
  }

  lemma GoodAppend(log: Log, receipt: Receipt)
    requires Good(log) && Allowed(Fold(log), receipt.event)
    ensures Good(log + [receipt])
  {
    var longer := log + [receipt];
    forall i | 0 <= i < |longer| ensures Allowed(Fold(longer[..i]), longer[i].event) {
      assert longer[..i] == log[..i];
      if i == |log| { assert log[..i] == log; }
    }
  }

  lemma GoodPrefix(log: Log, n: nat)
    requires Good(log) && n <= |log|
    ensures Good(log[..n])
  {
    forall i | 0 <= i < n ensures Allowed(Fold(log[..n][..i]), log[..n][i].event) {
      assert log[..n][..i] == log[..i];
    }
  }

  /** What the operations rely on: a queued job has an attempt left, an active one has a holder and a deadline. */
  predicate Sound(job: Job) {
    && 0 <= job.attempt <= job.maxAttempts && 1 <= job.maxAttempts <= MOST_ATTEMPTS
    && (job.status == Queued ==> job.attempt < job.maxAttempts)
    && (job.Active() ==> 1 <= job.attempt && job.leaseOwner.Some?)
    && (job.leaseUntil.Some? <==> job.Active())
  }

  lemma {:induction false} GoodFold(log: Log)
    requires Good(log)
    ensures Fold(log).Some? <==> log != []
    ensures log != [] ==> Sound(Fold(log).value)
  {
    if log != [] {
      var n := |log| - 1;
      GoodPrefix(log, n);
      GoodFold(log[..n]);
      assert Allowed(Fold(log[..n]), log[n].event);
    }
  }

  /** The last receipt of a stream acted on the sound job the receipts before it fold to. */
  lemma LastStep(log: Log)
    requires Good(log) && 1 < |log|
    ensures var before := log[..|log| - 1]; var last := log[|log| - 1];
      && Good(before) && Fold(before).Some? && Sound(Fold(before).value)
      && Allowed(Fold(before), last.event) && !last.event.Enqueue?
      && Fold(log) == Some(Advance(Fold(before).value, last.event, last.ts))
  {
    var n := |log| - 1;
    GoodPrefix(log, n);
    GoodFold(log[..n]);
    assert Allowed(Fold(log[..n]), log[n].event);
  }

  /** What an operation other than consuming emits: at most two events, each allowed in its turn. */
  lemma EventsAllowed(job: Option<Job>, op: Op, at: int)
    requires (job.Some? ==> Sound(job.value)) && !op.TakeCommands?
    ensures var events := Events(job, op);
      && |events| <= 2 && (|events| > 0 ==> Allowed(job, events[0]) && Reduce(job, events[0], at).Some?)
      && (|events| > 1 ==> Allowed(Reduce(job, events[0], at), events[1]))
  {
  }

  /** Every operation appends, and only what is allowed: no operation makes the reducer throw. */
  lemma ApplyGood(log: Log, op: Op, at: int)
    requires Good(log)
    ensures Good(Apply(log, op, at))
    ensures log <= Apply(log, op, at)
  {
    hide Good, Fold, Reduce, Allowed, Sound;
    GoodFold(log);
    var events := Events(Fold(log), op);
    if op.TakeCommands? {
      AppendConsumes(log, events, at);
    } else {
      hide EventsOn, Events;
      EventsAllowed(Fold(log), op, at);
      AppendTwo(log, events, at);
      if events != [] {
        var first := log + [Receipt(events[0], at)];
        GoodAppend(log, Receipt(events[0], at));
        FoldAppend(log, Receipt(events[0], at));
        if |events| == 2 {
          GoodAppend(first, Receipt(events[1], at));
        }
      }
    }
  }

  lemma AppendTwo(log: Log, events: seq<JobEvent>, at: int)
    requires |events| <= 2
    ensures Append(log, events, at)
      == if events == [] then log
         else if |events| == 1 then log + [Receipt(events[0], at)]
         else log + [Receipt(events[0], at)] + [Receipt(events[1], at)]
  {
    if |events| == 1 {
      assert events == [events[0]];
      AppendOne(log, events[0], at);
    } else if |events| == 2 {
      assert events[..1] == [events[0]];
      AppendOne(log, events[0], at);
    }
  }

  lemma {:induction false} AppendConsumes(log: Log, events: seq<JobEvent>, at: int)
    requires Good(log)
    requires events != [] ==> Fold(log).Some?
    requires forall e :: e in events ==> e.Consume?
    ensures Good(Append(log, events, at)) && log <= Append(log, events, at)
    ensures Fold(log).Some? ==> Fold(Append(log, events, at)).Some?
  {
    if events != [] {
      var n := |events| - 1;
      AppendConsumes(log, events[..n], at);
      assert events[n] in events;
      GoodAppend(Append(log, events[..n], at), Receipt(events[n], at));
      FoldAppend(Append(log, events[..n], at), Receipt(events[n], at));
    }
  }

  lemma {:induction false} RunGood(steps: seq<Step>)
    ensures Good(Run(steps))
  {
    if steps != [] {
      var n := |steps| - 1;
      RunGood(steps[..n]);
      ApplyGood(Run(steps[..n]), steps[n].op, steps[n].at);
    }
  }

  // ---------------------------------------------------------------------------------------------------------------
  // Leases over whole runs

  function LeaseCount(log: Log): nat {
    if log == [] then 0
    else LeaseCount(log[..|log| - 1]) + if log[|log| - 1].event.Lease? then 1 else 0
  }

  lemma {:induction false} AttemptIsLeaseCount(log: Log)
    requires Good(log) && log != []
    ensures Fold(log).Some? && Fold(log).value.attempt == LeaseCount(log)
  {
    var n := |log| - 1;
    GoodPrefix(log, n);
    GoodFold(log[..n]);
    assert Allowed(Fold(log[..n]), log[n].event);
    if n > 0 {
      AttemptIsLeaseCount(log[..n]);
    }
  }

  /** The leases of a stream are numbered 1, 2, 3, ... and never pass the job's own limit, itself between 1 and 8. */
  lemma LeasesAreNumbered(log: Log, i: nat)
    requires Good(log) && i < |log| && log[i].event.Lease?
    ensures log[i].event.attempt == LeaseCount(log[..i]) + 1
    ensures Fold(log).Some? && log[i].event.attempt <= Fold(log).value.maxAttempts <= MOST_ATTEMPTS
  {
    assert Allowed(Fold(log[..i]), log[i].event);
    GoodPrefix(log, i);
    GoodFold(log[..i]);
    AttemptIsLeaseCount(log[..i]);
    NeverTakenBack(log, i);
    GoodFold(log);
  }

  predicate SameIdentity(a: Job, b: Job) {
    && a.id == b.id && a.agentId == b.agentId && a.lane == b.lane && a.sessionKey == b.sessionKey
    && a.singletonMode == b.singletonMode && a.payload == b.payload && a.createdAt == b.createdAt
    && a.maxAttempts == b.maxAttempts
  }

  /** What one reducer step never changes or takes back. */
  lemma AdvanceKeeps(job: Job, event: JobEvent, ts: int)
    requires !event.Enqueue?
    ensures SameIdentity(job, Advance(job, event, ts))
    ensures job.abortRequested ==> Advance(job, event, ts).abortRequested
    ensures job.Terminal() ==> Advance(job, event, ts).status == job.status
  {
  }

  /** Identity, routing, session, creation time and attempt limit never change, an abort request is never cleared
      and a terminal status is never left. */
  lemma {:induction false} NeverTakenBack(log: Log, i: nat)
    requires Good(log) && 0 < i <= |log|
    ensures Fold(log[..i]).Some? && Fold(log).Some?
    ensures SameIdentity(Fold(log[..i]).value, Fold(log).value)
    ensures Fold(log[..i]).value.abortRequested ==> Fold(log).value.abortRequested
    ensures Fold(log[..i]).value.Terminal() ==> Fold(log).value.status == Fold(log[..i]).value.status
  {
    if i == |log| {
      assert log[..i] == log;
      GoodFold(log);
    } else {
      var n := |log| - 1;
      LastStep(log);
      assert log[..n][..i] == log[..i];
      NeverTakenBack(log[..n], i);
      AdvanceKeeps(Fold(log[..n]).value, log[n].event, log[n].ts);
    }
  }

  /** Receipt k handed the job back to the queue: a retrying failure or expiry of an active job. */
  ghost predicate Retries(log: Log, k: nat)
    requires k < |log|
  {
    && (log[k].event.Fail? || log[k].event.ExpireLease?) && log[k].event.willRetry
    && Fold(log[..k]).Some? && Fold(log[..k]).value.Active()
    && Fold(log[..k + 1]).Some? && Fold(log[..k + 1]).value.status == Queued
  }

  /** A job that is queued again after being leased at i went through a retry in between. */
  lemma {:induction false} RetryBefore(log: Log, i: nat, j: nat) returns (k: nat)
    requires Good(log) && 0 < i < j < |log| && log[i].event.Lease?
    requires Fold(log[..j]).Some? && Fold(log[..j]).value.status == Queued
    ensures i < k < j && Retries(log, k)
    decreases j
  {
    hide Good, Fold, Retries;
    k := j - 1;
    QueuedAfter(log, k);
    if k > i && Fold(log[..k]).value.status == Queued {
      k := RetryBefore(log, i, k);
    }
  }

  /** A job queued after a receipt was queued before it or handed back by it; it was not leased by it. */
  lemma QueuedAfter(log: Log, k: nat)
    requires Good(log) && 0 < k < |log|
    requires Fold(log[..k + 1]).Some? && Fold(log[..k + 1]).value.status == Queued
    ensures !log[k].event.Lease? && Fold(log[..k]).Some?
    ensures Fold(log[..k]).value.status == Queued || Retries(log, k)
  {
    StepAt(log, k);
    LeaseLeaves(Fold(log[..k]).value, log[k].event, log[k].ts);
    OnlyRetriesRequeue(Fold(log[..k]).value, log[k].event, log[k].ts);
  }

  /** LastStep for the receipt at any position but the first. */
  lemma StepAt(log: Log, k: nat)
    requires Good(log) && 0 < k < |log|
    ensures Fold(log[..k]).Some? && !log[k].event.Enqueue? && Allowed(Fold(log[..k]), log[k].event)
    ensures Fold(log[..k + 1]) == Some(Advance(Fold(log[..k]).value, log[k].event, log[k].ts))
  {
    GoodPrefix(log, k + 1);
    assert log[..k + 1][..k] == log[..k];
    LastStep(log[..k + 1]);
  }

  lemma LeaseLeaves(job: Job, event: JobEvent, ts: int)
    requires !event.Enqueue? && Allowed(Some(job), event)
    ensures event.Lease? ==> Advance(job, event, ts).status == Leased
  {
  }

  lemma OnlyRetriesRequeue(job: Job, event: JobEvent, ts: int)
    requires !event.Enqueue? && Advance(job, event, ts).status == Queued
    ensures job.status == Queued || ((event.Fail? || event.ExpireLease?) && event.willRetry && job.Active())
  {
  }

  /** Between any two leases of a job there is a retrying failure or expiry, so no two leases are current at once. */
  lemma RetryBetweenLeases(log: Log, i: nat, j: nat)
    requires Good(log) && i < j < |log| && log[i].event.Lease? && log[j].event.Lease?
    ensures exists k: nat :: i < k < j && Retries(log, k)
  {
    assert Allowed(Fold(log[..i]), log[i].event) && Allowed(Fold(log[..j]), log[j].event);
    var k := RetryBefore(log, i, j);
  }

  function LastLessee(log: Log): Option<string> {
    if log == [] then None
    else if log[|log| - 1].event.Lease? then Some(log[|log| - 1].event.worker)
    else LastLessee(log[..|log| - 1])
  }

  /** The holder of an active job is the worker of its last lease. (The code reads an empty worker id as no owner,
      so only a lease taken under an empty id can be taken over.) */
  lemma {:induction false} HolderIsLastLessee(log: Log)
    requires Good(log) && Fold(log).Some? && Fold(log).value.Active()
    ensures LastLessee(log).Some?
    ensures LastLessee(log).value == "" || Fold(log).value.leaseOwner == LastLessee(log)
  {
    var n := |log| - 1;
    GoodPrefix(log, n);
    assert Allowed(Fold(log[..n]), log[n].event);
    GoodFold(log[..n]);
    if !log[n].event.Lease? {
      HolderIsLastLessee(log[..n]);
    }
  }

  /** While a job has an owner, a report from any other worker appends nothing. */
  lemma ForeignReportIsSilent(log: Log, op: Op, at: int)
    requires op.IsReport() && Fold(log).Some?
    ensures Apply(log, op, at) == log <==> Fold(log).value.Terminal() || Fold(log).value.OwnedByOther(op.worker)
  {
    var job := Fold(log).value;
    if !job.Terminal() && !job.OwnedByOther(op.worker) {
      AppendOne(log, ReportOf(job, op), at);
    }
  }

  // ---------------------------------------------------------------------------------------------------------------
  // The job as its projection row shows it

  /** What a heartbeat updates in a job's projection row: two columns of it. */
  function HeartbeatRow(row: Job, record: Job): Job {
    row.(leaseUntil := record.leaseUntil, updatedAt := record.updatedAt)
  }

  /** The row shows the job, except that a running job may still show as leased. */
  predicate Shown(row: Job, job: Job) {
    row == job || (job.status == Running && row == job.(status := Leased))
  }

  /** An active job's holder has a name. (An empty id reads as no holder.) */
  predicate Named(job: Job) {
    job.Active() ==> job.leaseOwner != Some("")
  }

  lemma NamedKeeps(job: Job, event: JobEvent, ts: int)
    requires !event.Enqueue? && Allowed(Some(job), event) && Sound(job) && Named(job)
    requires event.Lease? ==> event.worker != ""
    ensures Named(Advance(job, event, ts))
  {
  }

  /** The heartbeat's update keeps a row showing the job. */
  lemma HeartbeatKeepsShown(row: Job, job: Job, event: JobEvent, ts: int)
    requires Shown(row, job) && Sound(job) && Named(job) && event.Heartbeat? && Allowed(Some(job), event)
    ensures var record := Advance(job, event, ts);
      Shown(if record.leaseUntil.Some? then HeartbeatRow(row, record) else row, record)
  {
  }

  /** Every operation emits on the row what it would emit on the job itself. */
  lemma ShownDecidesAlike(row: Job, job: Job, op: Op)
    requires Shown(row, job) && !op.Create?
    ensures EventsOn(row, op) == EventsOn(job, op)
  {
    assert row.commands == job.commands && row.attempt == job.attempt && row.maxAttempts == job.maxAttempts;
    if op.IsReport() {
      assert ReportOf(row, op) == ReportOf(job, op);
    }
  }

  // ---------------------------------------------------------------------------------------------------------------
  // Terminal jobs and the number of status changes

  /** An operation appends exactly its events, in order, on top of the stream. */
  lemma {:induction false} AppendedEvents(log: Log, events: seq<JobEvent>, at: int)
    ensures |Append(log, events, at)| == |log| + |events| && log <= Append(log, events, at)
    ensures forall i :: 0 <= i < |events| ==> Append(log, events, at)[|log| + i] == Receipt(events[i], at)
  {
    if events != [] {
      AppendedEvents(log, events[..|events| - 1], at);
    }
  }

  /** The receipt takes the job to a terminal status. */
  predicate Ends(job: Job, event: JobEvent) {
    && !job.Terminal()
    && (event.Cancel?
        || (job.Active() && (event.Complete? || ((event.Fail? || event.ExpireLease?) && !event.willRetry))))
  }

  /** A receipt from n on ended the job. */
  ghost predicate EndedSince(log: Log, n: nat) {
    exists k :: n <= k < |log| && EndsAt(log, k)
  }

  predicate EndsAt(log: Log, k: nat)
    requires k < |log|
  {
    Fold(log[..k]).Some? && Ends(Fold(log[..k]).value, log[k].event)
  }

  lemma EndsIsTerminal(job: Job, event: JobEvent, ts: int)
    requires !event.Enqueue? && !job.Terminal()
    ensures Advance(job, event, ts).Terminal() <==> Ends(job, event)
  {
  }

  /** A job that was not terminal is terminal now exactly when a receipt since then ended it. */
  lemma {:induction false} EndedIsTerminal(log: Log, n: nat)
    requires Good(log) && 0 < n <= |log| && Fold(log[..n]).Some? && !Fold(log[..n]).value.Terminal()
    ensures Fold(log).Some? && (Fold(log).value.Terminal() <==> EndedSince(log, n))
  {
    hide Good, Fold, Ends;
    if n == |log| {
      assert log[..n] == log;
    } else {
      var m := |log| - 1;
      LastStep(log);
      assert log[..m][..n] == log[..n];
      EndedIsTerminal(log[..m], n);
      EndedPrefix(log, n, m);
      var job := Fold(log[..m]).value;
      if job.Terminal() {
        AdvanceKeeps(job, log[m].event, log[m].ts);
      } else {
        EndsIsTerminal(job, log[m].event, log[m].ts);
        assert EndsAt(log, m) <==> Ends(job, log[m].event);
      }
    }
  }

  /** The last receipt aside, what ended the job ended it before. */
  lemma EndedPrefix(log: Log, n: nat, m: nat)
    requires n <= m && m + 1 == |log|
    ensures EndedSince(log, n) <==> EndedSince(log[..m], n) || EndsAt(log, m)
  {
    hide Ends, Fold;
    forall k | 0 <= k < m ensures EndsAt(log[..m], k) <==> EndsAt(log, k) {
      assert log[..m][..k] == log[..k];
    }
  }

  /** From receipt n on there are command records only. */
  predicate OnlyCommandRecords(log: Log, n: nat) {
    forall k :: n <= k < |log| ==> log[k].event.IsCommandRecord()
  }

  /** From receipt n on there is no command record. */
  predicate NoCommandRecords(log: Log, n: nat) {
    forall k :: n <= k < |log| ==> !log[k].event.IsCommandRecord()
  }

  lemma TerminalEvents(job: Job, op: Op)
    requires job.Terminal() && !op.Create?
    ensures (forall e :: e in EventsOn(job, op) ==> e.IsCommandRecord()) <==> !(op.RequestAbort? && op.seenQueued)
  {
    if op.RequestAbort? && op.seenQueued {
      assert EventsOn(job, op)[0] == Cancel(Some(op.why)) && EventsOn(job, op)[0] in EventsOn(job, op);
    } else if op.SendCommand? {
      assert EventsOn(job, op) == [QueueCommand(op.AddedCommand().value)];
    }
  }

  /** On a terminal job an operation appends nothing but command records. The one exception is a singleton cancel that
      still sees the job as queued: it appends a cancellation, which the reducer ignores. */
  lemma TerminalAbsorbs(log: Log, op: Op, at: int)
    requires Good(log) && Fold(log).Some? && Fold(log).value.Terminal()
    ensures log <= Apply(log, op, at)
    ensures OnlyCommandRecords(Apply(log, op, at), |log|) <==> !(op.RequestAbort? && op.seenQueued)
    ensures Fold(Apply(log, op, at)).Some? && Fold(Apply(log, op, at)).value.status == Fold(log).value.status
  {
    hide Good, EventsOn, Append;
    var events, longer := Events(Fold(log), op), Apply(log, op, at);
    ApplyGood(log, op, at);
    GoodFold(log);
    NeverTakenBack(longer, |log|);
    assert longer[..|log|] == log;
    AppendedEvents(log, events, at);
    assert OnlyCommandRecords(longer, |log|) <==> forall e :: e in events ==> e.IsCommandRecord() by {
      forall i | 0 <= i < |events| ensures longer[|log| + i].event == events[i] {
      }
      forall k | |log| <= k < |longer| ensures longer[k].event == events[k - |log|] {
        assert longer[|log| + (k - |log|)] == Receipt(events[k - |log|], at);
      }
    }
    if !op.Create? {
      TerminalEvents(Fold(log).value, op);
    }
  }

  function PendingCount(commands: seq<Command>): nat {
    if commands == [] then 0
    else PendingCount(commands[1..]) + if commands[0].Unconsumed() then 1 else 0
  }

  /** The receipt, if it consumes a command, does so at a nonzero time and for a command still unconsumed. */
  predicate TakesPending(job: Job, event: JobEvent) {
    event.Consume? ==>
      event.consumedAt != 0
      && exists i :: 0 <= i < |job.commands| && job.commands[i].id == event.commandId && job.commands[i].Unconsumed()
  }

  /** From receipt n on no command is consumed a second time. */
  ghost predicate ConsumesPending(log: Log, n: nat) {
    forall k :: n <= k < |log| && Fold(log[..k]).Some? ==> TakesPending(Fold(log[..k]).value, log[k].event)
  }

  lemma {:induction false} StampingPending(commands: seq<Command>, id: string, at: int)
    requires at != 0
    ensures PendingCount(Stamped(commands, id, at)) <= PendingCount(commands)
    ensures (exists i :: 0 <= i < |commands| && commands[i].id == id && commands[i].Unconsumed()) ==>
      PendingCount(Stamped(commands, id, at)) < PendingCount(commands)
  {
    if commands != [] {
      StampingPending(commands[1..], id, at);
      assert Stamped(commands, id, at)[1..] == Stamped(commands[1..], id, at);
      if i :| 0 <= i < |commands| && commands[i].id == id && commands[i].Unconsumed() {
        assert i > 0 ==> commands[1..][i - 1] == commands[i];
      }
    }
  }

  /** How a copy of a terminal job and the job itself compare, given whether a command record came in between. */
  predicate CopyDiffers(copy: Job, job: Job, changed: bool) {
    && job.Terminal() && |copy.commands| <= |job.commands|
    && if changed then
         |copy.commands| < |job.commands| || PendingCount(job.commands) < PendingCount(copy.commands)
       else job == copy
  }

  lemma CopyStep(copy: Job, job: Job, changed: bool, event: JobEvent, ts: int)
    requires CopyDiffers(copy, job, changed) && !event.Enqueue? && TakesPending(job, event)
    ensures CopyDiffers(copy, Advance(job, event, ts), changed || event.IsCommandRecord())
  {
    hide PendingCount;
    if event.Consume? {
      StampingPending(job.commands, event.commandId, event.consumedAt);
    }
  }

  lemma {:induction false} CopyLater(log: Log, n: nat)
    requires Good(log) && 0 < n <= |log| && Fold(log[..n]).Some? && Fold(log[..n]).value.Terminal()
    requires ConsumesPending(log, n)
    ensures Fold(log).Some? && CopyDiffers(Fold(log[..n]).value, Fold(log).value, !NoCommandRecords(log, n))
  {
    hide Good, Fold, CopyDiffers, TakesPending;
    if n == |log| {
      assert log[..n] == log;
      CopyNow(Fold(log).value);
    } else {
      var m := |log| - 1;
      LastStep(log);
      assert log[..m][..n] == log[..n];
      PendingPrefix(log, n, m);
      CopyLater(log[..m], n);
      CopyStep(Fold(log[..n]).value, Fold(log[..m]).value, !NoCommandRecords(log[..m], n), log[m].event, log[m].ts);
      assert NoCommandRecords(log, n) <==> NoCommandRecords(log[..m], n) && !log[m].event.IsCommandRecord();
    }
  }

  lemma PendingPrefix(log: Log, n: nat, m: nat)
    requires ConsumesPending(log, n) && m <= |log|
    ensures ConsumesPending(log[..m], n)
  {
    hide Fold, TakesPending;
    forall k | n <= k < m && Fold(log[..m][..k]).Some?
      ensures TakesPending(Fold(log[..m][..k]).value, log[..m][k].event)
    {
      assert log[..m][..k] == log[..k];
    }
  }

  lemma CopyNow(job: Job)
    requires job.Terminal()
    ensures CopyDiffers(job, job, false)
  {
  }

  /** A copy taken of a terminal job is out of date exactly when a command record came after it. */
  lemma TerminalCopy(log: Log, n: nat)
    requires Good(log) && 0 < n <= |log| && Fold(log[..n]).Some? && Fold(log[..n]).value.Terminal()
    requires ConsumesPending(log, n)
    ensures Fold(log) == Fold(log[..n]) <==> NoCommandRecords(log, n)
  {
    CopyLater(log, n);
  }

  /** Without command records there is nothing to consume. */
  lemma NothingConsumed(log: Log, n: nat)
    requires NoCommandRecords(log, n)
    ensures ConsumesPending(log, n)
  {
  }

  /** How many status changes the job still has before it: three for each attempt left, and those of the current one. */
  function Measure(job: Job): int {
    if job.Terminal() then 0
    else
      3 * (job.maxAttempts - job.attempt)
      + match job.status
        case Leased => 2
        case Running => 1
        case _ => 0
  }

  /** Every status change decreases the measure; nothing else moves it. */
  lemma MeasureDecreases(log: Log, n: nat)
    requires Good(log) && 0 < n < |log|
    ensures Fold(log[..n]).Some? && Fold(log[..n + 1]).Some?
    ensures var (a, b) := (Fold(log[..n]).value, Fold(log[..n + 1]).value);
      && 0 <= Measure(b) <= Measure(a)
      && (a.status != b.status <==> Measure(b) < Measure(a))
  {
    GoodPrefix(log, n);
    GoodFold(log[..n]);
    GoodPrefix(log, n + 1);
    GoodFold(log[..n + 1]);
    assert log[..n + 1][..n] == log[..n];
    assert Allowed(Fold(log[..n]), log[n].event);
  }

  function StatusChanges(log: Log): nat {
    if |log| <= 1 then 0
    else
      var shorter := log[..|log| - 1];
      StatusChanges(shorter)
      + if Fold(shorter).Some? && Fold(log).Some? && Fold(shorter).value.status != Fold(log).value.status then 1 else 0
  }

  lemma {:induction false} ChangesPlusMeasure(log: Log)
    requires Good(log) && log != []
    ensures Fold(log).Some?
    ensures StatusChanges(log) + Measure(Fold(log).value) <= 3 * Fold(log).value.maxAttempts
  {
    GoodFold(log);
    var n := |log| - 1;
    assert Allowed(Fold(log[..n]), log[n].event);
    GoodPrefix(log, n);
    GoodFold(log[..n]);
    if n > 0 {
      ChangesPlusMeasure(log[..n]);
      MeasureDecreases(log, n);
      assert log[..n + 1] == log;
      NeverTakenBack(log, n);
    }
  }

  /** Over any run a job changes status at most three times per allowed attempt: at most 24 times. */
  lemma StatusChangesBounded(steps: seq<Step>)
    requires Run(steps) != []
    ensures Fold(Run(steps)).Some?
    ensures StatusChanges(Run(steps)) <= 3 * Fold(Run(steps)).value.maxAttempts <= 24
  {
    RunGood(steps);
    ChangesPlusMeasure(Run(steps));
    GoodFold(Run(steps));
  }
}
