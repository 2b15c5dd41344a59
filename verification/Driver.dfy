/** The retry driver of src/adapters/resonate-runtime.ts:109-184: lease the job, run an attempt elsewhere, report its
    outcome, and start over while the job is queued again. Other processes may act on the job at every await. */
module Driver {
  import opened Basics
  import opened JobEffects
  import opened Jobs
  import opened JobProtocol
  import opened QueueSpec
  import opened LiveIndex
  import opened LiveQueue
  import opened QueueSteps

  /** What an attempt came to; a failed dispatch reads as a failed attempt. */
  datatype Outcome = Outcome(ok: bool, error: Option<string>, noRetry: bool, result: Option<Fields>)

  datatype Ending = Missing | Ended(job: Job) | Thrown

  // ---------------------------------------------------------------------------------------------------------------
  // What other processes may do

  /** Anything but leasing the job or reporting on it as another worker. */
  predicate Quiet(op: Op, worker: string) {
    !op.Create? && !op.TakeLease? && (op.IsReport() ==> op.worker == worker)
  }

  predicate QuietSteps(steps: seq<Step>, worker: string) {
    forall i :: 0 <= i < |steps| ==> Quiet(steps[i].op, worker)
  }

  /** What happens during an await: other processes act on the job, and its projection row may be left showing a running
      job as leased. */
  datatype Meantime = Meantime(steps: seq<Step>, rowLags: bool)

  /** No other worker holds the job. */
  predicate Free(job: Job, worker: string) {
    job.Active() ==> !job.OwnedByOther(worker)
  }

  /** How a job moves while nobody leases it. */
  predicate Calm(a: Job, b: Job, worker: string) {
    && SameIdentity(a, b) && b.attempt == a.attempt && b.maxAttempts == a.maxAttempts
    && (b.Active() ==> a.Active()) && (b.status == Queued ==> !a.Terminal()) && (a.Terminal() ==> b.Terminal())
    && (Free(a, worker) ==> Free(b, worker)) && (Named(a) && worker != "" ==> Named(b))
  }

  lemma CalmEvent(job: Job, event: JobEvent, ts: int, worker: string)
    requires !event.Enqueue? && !event.Lease? && (event.IsReport() ==> event.worker == worker)
    ensures Calm(job, Advance(job, event, ts), worker)
  {
  }

  lemma {:induction false} CalmAppend(log: Log, events: seq<JobEvent>, at: int, worker: string)
    requires Fold(log).Some?
    requires forall e :: e in events ==> !e.Enqueue? && !e.Lease? && (e.IsReport() ==> e.worker == worker)
    ensures Fold(Append(log, events, at)).Some?
    ensures Calm(Fold(log).value, Fold(Append(log, events, at)).value, worker)
  {
    hide Advance, Calm;
    if events == [] {
      CalmItself(Fold(log).value, worker);
    } else {
      var n := |events| - 1;
      CalmAppend(log, events[..n], at, worker);
      assert events[n] in events;
      var before := Append(log, events[..n], at);
      FoldAppend(before, Receipt(events[n], at));
      CalmEvent(Fold(before).value, events[n], at, worker);
      CalmThen(Fold(log).value, Fold(before).value, Advance(Fold(before).value, events[n], at), worker);
    }
  }

  lemma CalmItself(job: Job, worker: string)
    ensures Calm(job, job, worker)
  {
  }

  lemma CalmNamed(a: Job, b: Job, worker: string)
    requires Calm(a, b, worker) && Named(a) && worker != ""
    ensures Named(b)
  {
  }

  lemma CalmThen(a: Job, b: Job, c: Job, worker: string)
    requires Calm(a, b, worker) && Calm(b, c, worker)
    ensures Calm(a, c, worker)
  {
  }

  lemma CalmKeeps(a: Job, b: Job, worker: string)
    requires Calm(a, b, worker)
    ensures (Free(a, worker) ==> Free(b, worker)) && (b.Active() ==> a.Active()) && (a.Terminal() ==> b.Terminal())
  {
  }

  lemma QuietEvents(job: Job, op: Op, worker: string)
    requires Quiet(op, worker)
    ensures forall e :: e in EventsOn(job, op) ==> !e.Enqueue? && !e.Lease? && (e.IsReport() ==> e.worker == worker)
  {
  }

  lemma CalmApply(id: JobId, log: Log, op: Op, at: int, worker: string)
    requires GoodLog(id, log) && Quiet(op, worker)
    ensures GoodLog(id, Apply(log, op, at)) && log <= Apply(log, op, at)
    ensures Calm(Fold(log).value, Fold(Apply(log, op, at)).value, worker)
  {
    AppliedGood(id, log, op, at);
    QuietEvents(Fold(log).value, op, worker);
    CalmAppend(log, EventsOn(Fold(log).value, op), at, worker);
  }

  function RunFrom(log: Log, steps: seq<Step>): Log {
    if steps == [] then log
    else Apply(RunFrom(log, steps[..|steps| - 1]), steps[|steps| - 1].op, steps[|steps| - 1].at)
  }

  lemma {:induction false} CalmRun(id: JobId, log: Log, steps: seq<Step>, worker: string)
    requires GoodLog(id, log) && QuietSteps(steps, worker)
    ensures GoodLog(id, RunFrom(log, steps)) && log <= RunFrom(log, steps)
    ensures Calm(Fold(log).value, Fold(RunFrom(log, steps)).value, worker)
  {
    hide Calm, Good;
    if steps == [] {
      CalmItself(Fold(log).value, worker);
    } else {
      var n := |steps| - 1;
      CalmRun(id, log, steps[..n], worker);
      CalmApply(id, RunFrom(log, steps[..n]), steps[n].op, steps[n].at, worker);
      CalmThen(Fold(log).value, Fold(RunFrom(log, steps[..n])).value, Fold(RunFrom(log, steps)).value, worker);
    }
  }

  // ---------------------------------------------------------------------------------------------------------------
  // The driver's own operations

  /** A lease of a queued job starts its next attempt. */
  lemma LeaseEffect(id: JobId, log: Log, worker: string, leaseMs: int, at: int)
    requires GoodLog(id, log) && Fold(log).value.status == Queued
    ensures var (a, b) := (Fold(log).value, Fold(Apply(log, TakeLease(worker, leaseMs), at)));
      && b.Some? && SameIdentity(a, b.value) && b.value.status == Leased && b.value.attempt == a.attempt + 1
      && b.value.leaseOwner == Some(worker)
  {
    var event := EventsOn(Fold(log).value, TakeLease(worker, leaseMs))[0];
    AppendOne(log, event, at);
    FoldAppend(log, Receipt(event, at));
  }

  /** Completing or failing a job no other worker holds ends its attempt. */
  lemma SettleEffect(id: JobId, log: Log, op: Op, at: int)
    requires GoodLog(id, log) && (op.SendComplete? || op.SendFail?) && Free(Fold(log).value, op.worker)
    ensures Fold(Apply(log, op, at)).Some? && !Fold(Apply(log, op, at)).value.Active()
  {
    hide Good, Advance, EventsOn, Append;
    var job := Fold(log).value;
    SettlingEvent(job, op, at);
    if EventsOn(job, op) == [] {
      NothingAppended(log, at);
    } else {
      AppendOne(log, ReportOf(job, op), at);
      FoldAppend(log, Receipt(ReportOf(job, op), at));
    }
  }

  lemma NothingAppended(log: Log, at: int)
    ensures Append(log, [], at) == log
  {
  }

  lemma SettlingEvent(job: Job, op: Op, at: int)
    requires (op.SendComplete? || op.SendFail?) && Free(job, op.worker)
    ensures var events := EventsOn(job, op);
      if events == [] then !job.Active()
      else events == [ReportOf(job, op)] && !ReportOf(job, op).Enqueue? && !Advance(job, ReportOf(job, op), at).Active()
  {
  }

  // ---------------------------------------------------------------------------------------------------------------
  // The driver

  /** The job as its stream stands. */
  function JobNow(queue: Queue, id: JobId): Job
    requires JobAt(queue.store.logs, id).Some?
    reads queue.store
  {
    JobAt(queue.store.logs, id).value
  }

  ghost predicate Ready(queue: Queue, id: JobId, worker: string)
    reads queue.store, queue.index
  {
    && queue.Valid() && JobAt(queue.store.logs, id).Some? && GoodLog(id, queue.store.logs[id])
    && Sound(JobNow(queue, id)) && (queue.store.projecting ==> worker != "")
  }

  /** An await: other processes extend the job's stream. */
  method Await(queue: Queue, id: JobId, meantime: Meantime, worker: string)
    requires Ready(queue, id, worker) && QuietSteps(meantime.steps, worker)
    modifies queue.store
    ensures Ready(queue, id, worker) && Calm(old(JobNow(queue, id)), JobNow(queue, id), worker)
    ensures meantime.steps == [] ==>
      queue.store.logs == old(queue.store.logs) && queue.store.rows == old(queue.store.rows)
  {
    hide JobIndex.Valid, Good, Calm, RowsShown, LagsIn, GoodLogs;
    var store, log := queue.store, queue.store.logs[id];
    var longer := RunFrom(log, meantime.steps);
    CalmRun(id, log, meantime.steps, worker);
    GoodFold(longer);
    if meantime.steps == [] {
      return;
    }
    var job := Fold(longer).value;
    var row := if meantime.rowLags && job.status == Running then job.(status := Leased) else job;
    if store.projecting {
      NamedIn(store.logs, store.rows, id);
      CalmNamed(Fold(log).value, job, worker);
    }
    AwaitKeeps(store.logs, store.rows, store.projecting, queue.index.jobsById, id, longer, row);
    store.logs := store.logs[id := longer];
    if store.projecting {
      store.rows := store.rows[id := row];
    }
  }

  /** What a read gets right about the job as it stands. */
  predicate Reads(job: Job, now: Job) {
    && Shown(job, now) && (job.Terminal() <==> now.Terminal()) && (job.Active() <==> now.Active())
    && (job.status == Queued <==> now.status == Queued)
    && job.attempt == now.attempt && job.abortRequested == now.abortRequested
  }

  /** getJob. */
  method GetJob(queue: Queue, id: JobId, others: nat -> Meantime, tick: nat, worker: string) returns (job: Option<Job>)
    requires queue.Valid() && (queue.store.projecting ==> worker != "")
      && forall t :: QuietSteps(others(t).steps, worker)
    modifies queue.store, queue.index
    ensures queue.Valid() && (job.Some? <==> id in queue.store.logs) && (job.Some? <==> id in old(queue.store.logs))
    ensures job.Some? ==>
      && Ready(queue, id, worker) && Reads(job.value, JobNow(queue, id))
      && JobAt(old(queue.store.logs), id).Some?
        && Calm(JobAt(old(queue.store.logs), id).value, JobNow(queue, id), worker)
    ensures NobodyElse(others) ==> queue.store.logs == old(queue.store.logs)
  {
    hide JobIndex.Valid, Good, Calm, RowsShown, LagsIn;
    ReadyIfStored(queue, id, worker);
    if id in queue.store.logs {
      Await(queue, id, others(tick), worker);
    }
    job := queue.LoadAuthoritativeJob(id);
  }

  method TakeTheLease(queue: Queue, id: JobId, meantime: Meantime, worker: string, leaseMs: int, at: int)
    returns (leased: Option<Job>)
    requires Ready(queue, id, worker) && QuietSteps(meantime.steps, worker) && JobNow(queue, id).status == Queued
    modifies queue.store, queue.index
    ensures Ready(queue, id, worker) && SameIdentity(old(JobNow(queue, id)), JobNow(queue, id))
    ensures leased.Some? ==>
      && leased.value == JobNow(queue, id) && leased.value.status == Leased && leased.value.leaseOwner == Some(worker)
      && JobNow(queue, id).attempt == old(JobNow(queue, id)).attempt + 1
    ensures leased.None? ==> JobNow(queue, id).Terminal() && Calm(old(JobNow(queue, id)), JobNow(queue, id), worker)
    ensures meantime.steps == [] ==>
      leased.Some? && LeasedTo(old(JobNow(queue, id)), JobNow(queue, id), worker, leaseMs, at)
  {
    hide JobIndex.Valid, Good, LeasedTo;
    Await(queue, id, meantime, worker);
    var log := queue.store.logs[id];
    if Fold(log).value.status == Queued {
      LeaseEffect(id, log, worker, leaseMs, at);
    }
    AppliedGood(id, log, TakeLease(worker, leaseMs), at);
    GoodFold(Apply(log, TakeLease(worker, leaseMs), at));
    leased := queue.LeaseJob(id, worker, leaseMs, at);
  }

  /** A report or a cancellation by the driver itself. */
  method SendReport(queue: Queue, id: JobId, meantime: Meantime, op: Op, at: int)
    requires op.IsReport() && Ready(queue, id, op.worker) && QuietSteps(meantime.steps, op.worker)
    modifies queue.store, queue.index
    ensures Ready(queue, id, op.worker) && Calm(old(JobNow(queue, id)), JobNow(queue, id), op.worker)
    ensures (op.SendComplete? || op.SendFail?) && old(Free(JobNow(queue, id), op.worker)) ==>
      !JobNow(queue, id).Active()
    ensures meantime.steps == [] ==>
      if Finished(old(JobNow(queue, id))) || HeldElsewhere(old(JobNow(queue, id)), op.worker) then
        queue.store.logs == old(queue.store.logs)
      else Reported(old(JobNow(queue, id)), JobNow(queue, id), op, at)
  {
    hide JobIndex.Valid, Good, Reported, Finished, HeldElsewhere;
    Await(queue, id, meantime, op.worker);
    var log := queue.store.logs[id];
    CalmApply(id, log, op, at, op.worker);
    GoodFold(Apply(log, op, at));
    CalmThen(old(JobNow(queue, id)), Fold(log).value, Fold(Apply(log, op, at)).value, op.worker);
    if (op.SendComplete? || op.SendFail?) && Free(Fold(log).value, op.worker) {
      SettleEffect(id, log, op, at);
    }
    var answer := queue.Report(id, op, at);
  }

  lemma EndsTerminal(a: Job, reason: Option<string>, at: int)
    ensures forall b :: CanceledFor(a, b, reason, at) ==> b.Terminal() && (!a.Terminal() ==> b.status == Canceled)
  {
  }

  method SendCancel(queue: Queue, id: JobId, meantime: Meantime, worker: string, at: int)
    requires Ready(queue, id, worker) && QuietSteps(meantime.steps, worker)
    modifies queue.store, queue.index
    ensures Ready(queue, id, worker) && Calm(old(JobNow(queue, id)), JobNow(queue, id), worker)
    ensures JobNow(queue, id).Terminal()
    ensures meantime.steps == [] ==>
      CanceledFor(old(JobNow(queue, id)), JobNow(queue, id), Some("abort requested"), at)
  {
    hide JobIndex.Valid, Good, Calm, CanceledFor, RowsShown, LagsIn, Apply;
    Await(queue, id, meantime, worker);
    var log := queue.store.logs[id];
    var op := CancelJob(Some("abort requested"));
    CalmApply(id, log, op, at, worker);
    GoodFold(Apply(log, op, at));
    CalmThen(old(JobNow(queue, id)), Fold(log).value, Fold(Apply(log, op, at)).value, worker);
    EndsTerminal(Fold(log).value, Some("abort requested"), at);
    var answer := queue.Cancel(id, Some("abort requested"), at);
  }

  ghost predicate Increasing(xs: seq<int>) {
    forall i, j :: 0 <= i < j < |xs| ==> xs[i] < xs[j]
  }

  ghost predicate NobodyElse(others: nat -> Meantime) {
    forall t :: others(t).steps == []
  }

  /** What the driver has done so far on a job that was `a` and is `b`: its attempts have strictly increasing numbers
      (each attempt id is the job id and the number, so no id is used twice), and there are no more of them than leases
      it took, plus one if it found the job leased; hence no more than the attempts the job had left, plus one. */
  ghost predicate Progressed(a: Job, b: Job, worker: string, started: seq<int>) {
    && SameIdentity(a, b) && a.attempt <= b.attempt && (Free(a, worker) ==> Free(b, worker))
    && Increasing(started) && (forall n :: n in started ==> a.attempt <= n <= b.attempt)
    && |started| <= b.attempt - a.attempt + (if a.Active() then 1 else 0)
    && b.attempt <= b.maxAttempts
  }

  /** The first attempt needs no lease only when the job was found active; any later one needs a new lease. */
  lemma AttemptStarted(a: Job, before: Job, now: Job, worker: string, started: seq<int>)
    requires Progressed(a, before, worker, started) && SameIdentity(before, now)
    requires Free(before, worker) ==> Free(now, worker)
    requires now.attempt <= now.maxAttempts
    requires now.attempt == before.attempt + 1 || (started == [] && a.Active() && now.attempt == before.attempt)
    ensures Progressed(a, now, worker, started + [now.attempt])
  {
    forall i | 0 <= i < |started| ensures started[i] <= before.attempt {
      assert started[i] in started;
    }
  }

  lemma StillProgressed(a: Job, b: Job, c: Job, worker: string, started: seq<int>)
    requires Progressed(a, b, worker, started) && Calm(b, c, worker)
    ensures Progressed(a, c, worker, started)
    ensures c.attempt == b.attempt && c.maxAttempts == b.maxAttempts && SameIdentity(b, c)
    ensures (c.Active() ==> b.Active()) && (b.Terminal() ==> c.Terminal()) && (Free(b, worker) ==> Free(c, worker))
  {
  }

  lemma ReadyIfStored(queue: Queue, id: JobId, worker: string)
    requires queue.Valid() && (queue.store.projecting ==> worker != "")
    ensures if id in queue.store.logs then
              Ready(queue, id, worker) && JobNow(queue, id).attempt <= JobNow(queue, id).maxAttempts
            else JobAt(queue.store.logs, id).None?
  {
    if id in queue.store.logs {
      assert GoodLog(id, queue.store.logs[id]);
      GoodFold(queue.store.logs[id]);
    }
  }

  lemma TerminalReadsExact(job: Job, now: Job)
    requires Reads(job, now) && (job.Terminal() || job.status == Queued)
    ensures job == now
  {
  }

  /** A requested abort: cancel the job and read it again. */
  method CancelAndRead(queue: Queue, id: JobId, worker: string, others: nat -> Meantime, clock: nat -> int, tick: nat)
    returns (job: Job)
    requires Ready(queue, id, worker) && forall t :: QuietSteps(others(t).steps, worker)
    modifies queue.store, queue.index
    ensures Ready(queue, id, worker) && Calm(old(JobNow(queue, id)), JobNow(queue, id), worker)
    ensures job == JobNow(queue, id) && job.Terminal()
    ensures NobodyElse(others) ==>
      CanceledFor(old(JobNow(queue, id)), JobNow(queue, id), Some("abort requested"), clock(tick))
  {
    hide JobIndex.Valid, GoodLogs, GoodLog, Fold, RowsShown, LagsIn, Shown;
    SendCancel(queue, id, others(tick), worker, clock(tick));
    var canceled := GetJob(queue, id, others, tick + 1, worker);
    job := canceled.value;
    TerminalReadsExact(job, JobNow(queue, id));
  }

  /** Running for the worker, under its next number if it was queued, with a fresh deadline. */
  predicate Begins(a: Job, b: Job, worker: string, leaseMs: int, at: int) {
    && LeaseEnds(b.leaseUntil, leaseMs, at)
    && b == a.(status := Running, attempt := b.attempt, leaseOwner := Some(worker), leaseUntil := b.leaseUntil,
               updatedAt := at)
    && b.attempt == if a.status == Queued then a.attempt + 1 else a.attempt
  }

  lemma BegunIsHeld(a: Job, b: Job, worker: string, leaseMs: int, at: int)
    requires Begins(a, b, worker, leaseMs, at)
    ensures b.Active() && Free(b, worker)
  {
  }

  /** What the outcome of an attempt makes of the job. A requested abort cancels it, whatever the outcome; a success
      completes it with its result; a failure sends it back to the queue while it may be retried, else fails it. */
  predicate Settles(a: Job, b: Job, outcome: Outcome, at: int) {
    if a.abortRequested then CanceledFor(a, b, Some("abort requested"), at)
    else
      && !b.abortRequested
      && if outcome.ok then b.status == Completed && b.result == outcome.result
         else
           && b.lastError == Some(if outcome.error == None then "job failed" else outcome.error.value)
           && (if a.attempt < a.maxAttempts && !outcome.noRetry then b.status == Queued && b.result == a.result
               else b.status == Failed && b.result == if outcome.result == None then a.result else outcome.result)
  }

  /** How the driver ends on a job that no other worker holds and nobody wants aborted, with nobody else acting: with
      the outcome of the last attempt, after attempts that failed but could be retried. */
  predicate EndsAsTried(job: Job, attempts: nat, outcome: nat -> Outcome) {
    && 0 < attempts
    && (forall k: nat :: k < attempts - 1 ==> !outcome(k).ok && !outcome(k).noRetry)
    && var last := outcome(attempts - 1);
      if last.ok then job.status == Completed && job.result == last.result
      else
        && job.status == Failed && (last.noRetry || job.attempt == job.maxAttempts)
        && job.lastError == Some(if last.error == None then "job failed" else last.error.value)
  }

  /** From a job that is not terminal to its attempt: lease it if it is queued, send a heartbeat, read it again. None
      when the lease is refused. */
  method BeginAttempt(queue: Queue, id: JobId, worker: string, leaseMs: int, others: nat -> Meantime, clock: nat -> int,
                      tick: nat)
    returns (begun: Option<Job>)
    requires Ready(queue, id, worker) && !JobNow(queue, id).Terminal()
      && forall t :: QuietSteps(others(t).steps, worker)
    modifies queue.store, queue.index
    ensures Ready(queue, id, worker)
    ensures var before := old(JobNow(queue, id));
      if begun.None? then JobNow(queue, id).Terminal() && Calm(before, JobNow(queue, id), worker)
      else
        var now := JobNow(queue, id);
        && Reads(begun.value, now) && SameIdentity(before, now) && now.maxAttempts == before.maxAttempts
        && (Free(before, worker) ==> Free(now, worker))
        && now.attempt == before.attempt + (if before.status == Queued then 1 else 0)
    ensures NobodyElse(others) ==> begun.Some?
    ensures NobodyElse(others) && !old(Free(JobNow(queue, id), worker)) ==> queue.store.logs == old(queue.store.logs)
    ensures NobodyElse(others) && old(Free(JobNow(queue, id), worker)) ==>
      Begins(old(JobNow(queue, id)), JobNow(queue, id), worker, leaseMs, clock(tick + 1))
  {
    hide JobIndex.Valid, GoodLogs, GoodLog, Fold, RowsShown, LagsIn, Shown, Queue.Valid;
    if JobNow(queue, id).status == Queued {
      var leased := TakeTheLease(queue, id, others(tick), worker, leaseMs, clock(tick));
      if leased.None? {
        return None;
      }
    }
    SendReport(queue, id, others(tick + 1), SendHeartbeat(worker, leaseMs), clock(tick + 1));
    begun := GetJob(queue, id, others, tick + 2, worker);
  }

  lemma OutcomeSettles(a: Job, b: Job, outcome: Outcome, worker: string, at: int)
    requires a.Active() && Free(a, worker)
    requires if a.abortRequested then CanceledFor(a, b, Some("abort requested"), at)
             else Finished(a) || HeldElsewhere(a, worker) || Reported(a, b, ReportOfOutcome(outcome, worker), at)
    ensures Settles(a, b, outcome, at) && (b.Terminal() || b.status == Queued)
  {
  }

  /** What the driver reports. */
  function ReportOfOutcome(outcome: Outcome, worker: string): Op {
    if outcome.ok then SendComplete(worker, outcome.result)
    else
      var error := if outcome.error.Some? then outcome.error.value else "job failed";
      SendFail(worker, error, outcome.noRetry, outcome.result)
  }

  /** After the attempt: unless the job is terminal by now, cancel it if an abort was requested, else report the
      outcome; then read the job again. */
  method SettleAttempt(queue: Queue, id: JobId, worker: string, result: Outcome, others: nat -> Meantime,
                       clock: nat -> int, tick: nat)
    returns (settled: Job)
    requires Ready(queue, id, worker) && forall t :: QuietSteps(others(t).steps, worker)
    modifies queue.store, queue.index
    ensures Ready(queue, id, worker) && Calm(old(JobNow(queue, id)), JobNow(queue, id), worker)
    ensures Reads(settled, JobNow(queue, id))
    ensures old(Free(JobNow(queue, id), worker)) ==> !settled.Active()
    ensures NobodyElse(others) && !old(Free(JobNow(queue, id), worker)) && !old(JobNow(queue, id)).abortRequested ==>
      queue.store.logs == old(queue.store.logs)
    ensures NobodyElse(others) && old(JobNow(queue, id)).Active() && old(Free(JobNow(queue, id), worker)) ==>
      settled == JobNow(queue, id) && Settles(old(JobNow(queue, id)), settled, result, clock(tick))
  {
    hide JobIndex.Valid, GoodLogs, GoodLog, Fold, RowsShown, LagsIn, Queue.Valid, Shown, Reported, CanceledFor, Settles,
      Sound, Named, SameIdentity, Calm;
    ghost var job, nobody := JobNow(queue, id), NobodyElse(others);
    var latest := GetJob(queue, id, others, tick, worker);
    ghost var read := JobNow(queue, id);
    CalmKeeps(job, read, worker);
    if latest.value.Terminal() {
      return latest.value;
    }
    if latest.value.abortRequested {
      SendCancel(queue, id, others(tick + 1), worker, clock(tick));
    } else if result.ok {
      SendReport(queue, id, others(tick + 1), SendComplete(worker, result.result), clock(tick));
    } else {
      var error := if result.error.Some? then result.error.value else "job failed";
      SendReport(queue, id, others(tick + 1), SendFail(worker, error, result.noRetry, result.result), clock(tick));
    }
    ghost var reported := JobNow(queue, id);
    CalmThen(job, read, reported, worker);
    if nobody && job.Active() && Free(job, worker) {
      OutcomeSettles(job, reported, result, worker, clock(tick));
    }
    var last := GetJob(queue, id, others, tick + 2, worker);
    settled := last.value;
    CalmKeeps(reported, JobNow(queue, id), worker);
    CalmThen(job, reported, JobNow(queue, id), worker);
    if nobody && job.Active() && Free(job, worker) {
      TerminalReadsExact(settled, JobNow(queue, id));
    }
  }

  /** Between the attempts of a driver that acts alone. */
  predicate StillTrying(job: Job, worker: string, attempts: nat, outcome: nat -> Outcome) {
    && !job.abortRequested && !job.Terminal() && Free(job, worker) && (attempts > 0 ==> job.status == Queued)
    && forall k: nat :: k < attempts ==> !outcome(k).ok && !outcome(k).noRetry
  }

  /** One more attempt either is to be followed by another or was the last. */
  lemma TriedOnceMore(before: Job, run: Job, settled: Job, worker: string, leaseMs: int, began: int, at: int,
                      attempts: nat, outcome: nat -> Outcome)
    requires StillTrying(before, worker, attempts, outcome) && Begins(before, run, worker, leaseMs, began)
    requires Settles(run, settled, outcome(attempts), at)
    requires settled.attempt == run.attempt <= run.maxAttempts == settled.maxAttempts
    ensures if settled.status == Queued then StillTrying(settled, worker, attempts + 1, outcome)
            else EndsAsTried(settled, attempts + 1, outcome)
  {
  }

  /** The job where the loop starts over. */
  ghost predicate Looping(first: Job, now: Job, worker: string, started: seq<int>, nobody: bool,
                          outcome: nat -> Outcome)
  {
    && Progressed(first, now, worker, started) && (now.Active() ==> started == [] && first.Active())
    && (nobody && started == [] ==> now == first)
    && (nobody && started != [] ==>
          && Free(first, worker) && !first.abortRequested && !first.Terminal()
          && StillTrying(now, worker, |started|, outcome))
  }

  /** How the driver may end on a job that was `first` and is `now`. */
  ghost predicate Drove(first: Job, now: Job, ending: Ending, worker: string, started: seq<int>, nobody: bool,
                        outcome: nat -> Outcome)
  {
    && !ending.Missing? && Progressed(first, now, worker, started)
    && (ending.Ended? ==> Shown(ending.job, now))
    && (ending.Thrown? || Free(first, worker) ==> now.Terminal())
    && (nobody ==>
          && !ending.Thrown?
          && (!ending.job.Terminal() <==> !Free(first, worker) && !first.abortRequested)
          && (!first.Terminal() && first.abortRequested ==> ending.job.status == Canceled && started == [])
          && (!first.Terminal() && !first.abortRequested && Free(first, worker) ==>
                EndsAsTried(ending.job, |started|, outcome)))
  }

  lemma LoopStarts(first: Job, worker: string, nobody: bool, outcome: nat -> Outcome)
    requires first.attempt <= first.maxAttempts
    ensures Looping(first, first, worker, [], nobody, outcome)
  {
  }

  lemma LoopReads(first: Job, top: Job, read: Job, worker: string, started: seq<int>, nobody: bool,
                  outcome: nat -> Outcome)
    requires Looping(first, top, worker, started, nobody, outcome) && Calm(top, read, worker)
    requires nobody ==> read == top
    ensures Looping(first, read, worker, started, nobody, outcome)
    ensures read.maxAttempts - read.attempt == top.maxAttempts - top.attempt
    ensures Progressed(first, read, worker, started)
  {
    hide Progressed, StillTrying;
    StillProgressed(first, top, read, worker, started);
  }

  lemma FoundTerminal(first: Job, read: Job, job: Job, worker: string, started: seq<int>, nobody: bool,
                      outcome: nat -> Outcome)
    requires Looping(first, read, worker, started, nobody, outcome) && Reads(job, read) && job.Terminal()
    ensures Drove(first, read, Ended(job), worker, started, nobody, outcome)
  {
    hide Progressed;
  }

  lemma FoundUnwanted(first: Job, read: Job, now: Job, worker: string, started: seq<int>, nobody: bool,
                      outcome: nat -> Outcome, at: int)
    requires Looping(first, read, worker, started, nobody, outcome) && !read.Terminal() && read.abortRequested
    requires Calm(read, now, worker) && now.Terminal()
    requires nobody ==> CanceledFor(read, now, Some("abort requested"), at)
    ensures Drove(first, now, Ended(now), worker, started, nobody, outcome)
  {
    hide Progressed;
    StillProgressed(first, read, now, worker, started);
  }

  lemma LeaseRefused(first: Job, read: Job, now: Job, worker: string, started: seq<int>, outcome: nat -> Outcome)
    requires Looping(first, read, worker, started, false, outcome) && Calm(read, now, worker) && now.Terminal()
    ensures Drove(first, now, Thrown, worker, started, false, outcome)
  {
    hide Progressed;
    StillProgressed(first, read, now, worker, started);
  }

  lemma LoopStarted(first: Job, read: Job, run: Job, worker: string, started: seq<int>, nobody: bool,
                    outcome: nat -> Outcome)
    requires Looping(first, read, worker, started, nobody, outcome) && SameIdentity(read, run)
    requires !read.Terminal() && (Free(read, worker) ==> Free(run, worker)) && run.attempt <= run.maxAttempts
    requires run.attempt == read.attempt + (if read.status == Queued then 1 else 0)
    ensures Progressed(first, run, worker, started + [run.attempt])
    ensures run.maxAttempts == read.maxAttempts && read.attempt + (if started == [] then 0 else 1) <= run.attempt
  {
    hide StillTrying;
    if read.status != Queued {
      assert started == [];
    }
    AttemptStarted(first, read, run, worker, started);
  }

  /** After an attempt the loop starts over with a queued job or the driver ends. */
  lemma Attempted(first: Job, read: Job, run: Job, now: Job, settled: Job, worker: string, started: seq<int>,
                  nobody: bool, outcome: nat -> Outcome, leaseMs: int, began: int, at: int)
    requires Looping(first, read, worker, started, nobody, outcome) && !read.Terminal() && !read.abortRequested
    requires Progressed(first, run, worker, started + [run.attempt]) && run.attempt <= run.maxAttempts
    requires Calm(run, now, worker) && Reads(settled, now) && (Free(read, worker) ==> Free(run, worker))
    requires Free(run, worker) ==> !settled.Active()
    requires nobody && Free(read, worker) ==>
      && Begins(read, run, worker, leaseMs, began) && now == settled && Settles(run, settled, outcome(|started|), at)
    requires nobody && !Free(read, worker) ==> run == read && now == read
    ensures now.attempt == run.attempt && now.maxAttempts == run.maxAttempts
    ensures if settled.status == Queued then Looping(first, now, worker, started + [run.attempt], nobody, outcome)
            else Drove(first, now, Ended(settled), worker, started + [run.attempt], nobody, outcome)
  {
    hide Progressed, Begins, Settles, StillTrying, EndsAsTried;
    StillProgressed(first, run, now, worker, started + [run.attempt]);
    FirstStaysFree(first, read, worker, started);
    if nobody && Free(read, worker) {
      if started == [] {
        NothingTried(read, worker, outcome);
      }
      TriedOnceMore(read, run, settled, worker, leaseMs, began, at, |started|, outcome);
      TriedIsTerminal(settled, |started| + 1, outcome);
    }
  }

  lemma FirstStaysFree(first: Job, read: Job, worker: string, started: seq<int>)
    requires Progressed(first, read, worker, started)
    ensures Free(first, worker) ==> Free(read, worker)
  {
  }

  lemma TriedIsTerminal(job: Job, attempts: nat, outcome: nat -> Outcome)
    ensures EndsAsTried(job, attempts, outcome) ==> job.Terminal()
  {
  }

  lemma NothingTried(job: Job, worker: string, outcome: nat -> Outcome)
    requires !job.abortRequested && !job.Terminal() && Free(job, worker)
    ensures StillTrying(job, worker, 0, outcome)
  {
  }

  /** runDriver. Unless another worker holds the job at the start, the driver ends with the job missing or terminal,
      whatever other processes do meanwhile; it throws only when the job became terminal before it could be leased.
      With nobody else acting it never throws, it leaves the job unsettled exactly when it found the job held by another
      worker and without an abort request, and else ends with the outcome of its last attempt. */
  method RunDriver(queue: Queue, id: JobId, worker: string, leaseMs: int, outcome: nat -> Outcome,
                   others: nat -> Meantime, clock: nat -> int)
    returns (ending: Ending, started: seq<int>)
    requires queue.Valid() && (queue.store.projecting ==> worker != "")
      && forall t :: QuietSteps(others(t).steps, worker)
    modifies queue.store, queue.index
    ensures queue.Valid()
    ensures ending == Missing <==> id !in old(queue.store.logs)
    ensures JobAt(old(queue.store.logs), id).Some? ==>
      && JobAt(queue.store.logs, id).Some?
      && Drove(JobAt(old(queue.store.logs), id).value, JobAt(queue.store.logs, id).value, ending, worker, started,
               NobodyElse(others), outcome)
  {
    hide JobIndex.Valid, Progressed, Sound, GoodLogs, GoodLog, Fold, RowsShown, LagsIn, Shown, SameIdentity, Named,
      Job.OwnedByOther, NobodyElse, Queue.Valid, Calm, Looping, Drove, Begins, Settles, CanceledFor;
    ghost var first, nobody := JobAt(queue.store.logs, id), NobodyElse(others);
    started := [];
    var tick := 0;
    ReadyIfStored(queue, id, worker);
    if first.Some? {
      LoopStarts(first.value, worker, nobody, outcome);
    }
    while true
      invariant queue.Valid() && (id in queue.store.logs <==> first.Some?)
      invariant first.Some? ==>
        Ready(queue, id, worker) && Looping(first.value, JobNow(queue, id), worker, started, nobody, outcome)
      invariant started != [] ==> first.Some?
      decreases if first.Some? then JobNow(queue, id).maxAttempts - JobNow(queue, id).attempt else 0,
        if started == [] then 1 else 0
    {
      ghost var top := JobAt(queue.store.logs, id);
      var current := GetJob(queue, id, others, tick, worker);
      if current.None? {
        return Missing, started;
      }
      ghost var read := JobNow(queue, id);
      LoopReads(first.value, top.value, read, worker, started, nobody, outcome);
      if current.value.Terminal() {
        FoundTerminal(first.value, read, current.value, worker, started, nobody, outcome);
        return Ended(current.value), started;
      }
      if current.value.abortRequested {
        var canceled := CancelAndRead(queue, id, worker, others, clock, tick + 1);
        FoundUnwanted(first.value, read, canceled, worker, started, nobody, outcome, clock(tick + 1));
        return Ended(canceled), started;
      }
      var begun := BeginAttempt(queue, id, worker, leaseMs, others, clock, tick + 1);
      ghost var run := JobNow(queue, id);
      if begun.None? {
        LeaseRefused(first.value, read, run, worker, started, outcome);
        return Thrown, started;
      }
      ReadyIfStored(queue, id, worker);
      if nobody && Free(read, worker) {
        BegunIsHeld(read, run, worker, leaseMs, clock(tick + 2));
      }
      LoopStarted(first.value, read, run, worker, started, nobody, outcome);
      var settled := SettleAttempt(queue, id, worker, outcome(|started|), others, clock, tick + 4);
      Attempted(first.value, read, run, JobNow(queue, id), settled, worker, started, nobody, outcome, leaseMs,
                clock(tick + 2), clock(tick + 4));
      started := started + [begun.value.attempt];
      if settled.status != Queued {
        return Ended(settled), started;
      }
      tick := tick + 7;
    }
  }
}
