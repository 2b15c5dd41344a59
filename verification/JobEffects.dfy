/** What each operation leaves of a job, field by field: the outcome of emitting, appending and reducing, stated on the
    job before and the job after alone. */
module JobEffects {
  import opened Basics
  import CommandDelivery
  import opened Jobs
  import opened JobProtocol

  // ---------------------------------------------------------------------------------------------------------------
  // A new job

  /** The session a raw key names: the key without the white space around it, none if nothing is left. */
  predicate InSessionOf(key: Option<string>, raw: Option<string>) {
    if raw == None || Trim(raw.value) == "" then key == None else key == Some(Trim(raw.value))
  }

  /** Two attempts unless a number is asked for, which is kept between 1 and 8. */
  predicate AttemptsAllowed(allowed: int, asked: Option<int>) {
    match asked
    case None => allowed == 2
    case Some(n) => if n < 1 then allowed == 1 else if n > 8 then allowed == 8 else allowed == n
  }

  // ---------------------------------------------------------------------------------------------------------------
  // Leases and reports

  /** The lease lasts for the asked time, but a second at least. */
  predicate LeaseEnds(until: Option<int>, leaseMs: int, at: int) {
    until.Some? && (if leaseMs < 1000 then until.value == at + 1000 else until.value == at + leaseMs)
  }

  /** Leased for its next attempt. */
  predicate LeasedTo(a: Job, b: Job, worker: string, leaseMs: int, at: int) {
    && LeaseEnds(b.leaseUntil, leaseMs, at)
    && b == a.(status := Leased, attempt := a.attempt + 1, leaseOwner := Some(worker), leaseUntil := b.leaseUntil,
               updatedAt := at)
  }

  lemma LeaseGives(log: Log, worker: string, leaseMs: int, at: int)
    requires Fold(log).Some? && Fold(log).value.status == Queued
    ensures var after := Fold(Apply(log, TakeLease(worker, leaseMs), at));
      after.Some? && LeasedTo(Fold(log).value, after.value, worker, leaseMs, at)
  {
    var event := EventsOn(Fold(log).value, TakeLease(worker, leaseMs))[0];
    AppendOne(log, event, at);
    FoldAppend(log, Receipt(event, at));
  }

  /** The given fields override, every other one stays. */
  ghost predicate Merged(before: Option<Fields>, given: Option<Fields>, after: Option<Fields>) {
    match given
    case None => after == before
    case Some(fields) =>
      && after.Some?
      && (forall name :: name in fields ==> name in after.value && after.value[name] == fields[name])
      && forall name :: name !in fields ==>
           if before.Some? && name in before.value then name in after.value && after.value[name] == before.value[name]
           else name !in after.value
  }

  /** A job that is finished. */
  predicate Finished(job: Job) {
    job.status == Completed || job.status == Failed || job.status == Canceled
  }

  /** A worker other than the given one, and not one with an empty name, has the job. */
  predicate HeldElsewhere(job: Job, worker: string) {
    job.leaseOwner != None && job.leaseOwner != Some("") && job.leaseOwner != Some(worker)
  }

  /** What a report that is let through makes of the job; it says nothing to a job that is not leased or running. */
  ghost predicate Reported(a: Job, b: Job, op: Op, at: int)
    requires op.IsReport()
  {
    if a.status != Leased && a.status != Running then b == a
    else match op
      case SendHeartbeat(worker, leaseMs) =>
        && LeaseEnds(b.leaseUntil, leaseMs, at)
        && b == a.(status := Running, leaseOwner := Some(worker), leaseUntil := b.leaseUntil, updatedAt := at)
      case SendProgress(worker, progress) =>
        && Merged(a.result, progress, b.result)
        && b == a.(status := Running, leaseOwner := Some(worker), result := b.result, updatedAt := at)
      case SendComplete(worker, result) =>
        b == a.(status := Completed, leaseOwner := Some(worker), leaseUntil := None, result := result, updatedAt := at)
      case SendFail(worker, error, noRetry, result) =>
        && (b.status == Queued <==> a.attempt < a.maxAttempts && !noRetry) && (b.status == Queued || b.status == Failed)
        && (b.status == Queued || result == None ==> b.result == a.result)
        && (b.status == Failed && result != None ==> b.result == result)
        && b == a.(status := b.status, leaseOwner := Some(worker), leaseUntil := None, lastError := Some(error),
                   result := b.result, updatedAt := at)
  }

  lemma ReportGives(log: Log, op: Op, at: int)
    requires Fold(log).Some? && op.IsReport()
    requires !Finished(Fold(log).value) && !HeldElsewhere(Fold(log).value, op.worker)
    ensures Apply(log, op, at) == log + [Receipt(ReportOf(Fold(log).value, op), at)]
    ensures Fold(Apply(log, op, at)).Some? && Reported(Fold(log).value, Fold(Apply(log, op, at)).value, op, at)
  {
    hide Fold;
    var job := Fold(log).value;
    var event := ReportOf(job, op);
    RefusedIs(job, op.worker);
    AppendOne(log, event, at);
    FoldAppend(log, Receipt(event, at));
  }

  lemma RefusedIs(job: Job, worker: string)
    ensures job.Terminal() <==> Finished(job)
    ensures job.OwnedByOther(worker) <==> HeldElsewhere(job, worker)
  {
  }

  // ---------------------------------------------------------------------------------------------------------------
  // Cancellation and expiry

  /** A finished job is left alone; any other is canceled for good. */
  predicate CanceledFor(a: Job, b: Job, reason: Option<string>, at: int) {
    if Finished(a) then b == a
    else b == a.(status := Canceled, leaseUntil := None, canceledReason := reason, abortRequested := true,
                 updatedAt := at)
  }

  lemma CancelGives(log: Log, reason: Option<string>, at: int)
    requires Fold(log).Some?
    ensures var after := Fold(Apply(log, CancelJob(reason), at));
      after.Some? && CanceledFor(Fold(log).value, after.value, reason, at)
  {
    if !Fold(log).value.Terminal() {
      AppendOne(log, JobEvent.Cancel(reason), at);
      FoldAppend(log, Receipt(JobEvent.Cancel(reason), at));
    }
  }

  /** Leased or running, with a deadline that is not 0 and not after now. */
  predicate PastDeadline(job: Job, now: int) {
    && (job.status == Leased || job.status == Running)
    && job.leaseUntil.Some? && 0 != job.leaseUntil.value <= now
  }

  /** The lease is lost: the job goes back to the queue while it has an attempt left. */
  predicate LostLease(a: Job, b: Job, at: int) {
    && (b.status == Queued <==> a.attempt < a.maxAttempts) && (b.status == Queued || b.status == Failed)
    && b == a.(status := b.status, leaseUntil := None, leaseOwner := None, lastError := Some("lease expired"),
               updatedAt := at)
  }

  /** Exactly the jobs past their deadline lose their lease. */
  lemma ExpireGives(log: Log, now: int, at: int)
    requires Fold(log).Some?
    ensures var job, after := Fold(log).value, Apply(log, ExpireOverdue(now), at);
      if PastDeadline(job, now) then
        |after| == |log| + 1 && Fold(after).Some? && LostLease(job, Fold(after).value, at)
      else after == log
  {
    var job := Fold(log).value;
    if Overdue(job, now) {
      var event := ExpireLease(job.attempt < job.maxAttempts);
      AppendOne(log, event, at);
      FoldAppend(log, Receipt(event, at));
    }
  }

  // ---------------------------------------------------------------------------------------------------------------
  // Commands

  /** One command more, still to be consumed; an abort command is an abort request. */
  predicate Commanded(a: Job, b: Job, command: Command, at: int) {
    && command.consumedAt == None
    && b == a.(commands := a.commands + [command], abortRequested := b.abortRequested, updatedAt := at)
    && (b.abortRequested <==> a.abortRequested || command.kind == Abort)
  }

  /** What queueCommand makes of the job: the command is recorded, and aborting a queued job also cancels it. */
  predicate CommandSent(a: Job, b: Job, command: Command, at: int) {
    if command.kind == Abort && a.status == Queued then
      b == a.(commands := a.commands + [command], abortRequested := true, status := Canceled, leaseUntil := None,
              canceledReason := Some("abort requested"), updatedAt := at)
    else Commanded(a, b, command, at)
  }

  lemma CommandGives(log: Log, id: string, kind: CommandKind, payload: Option<Json>, author: Option<string>, now: int,
                     at: int)
    requires Fold(log).Some?
    ensures var after := Fold(Apply(log, SendCommand(id, kind, payload, author, now), at));
      after.Some? && CommandSent(Fold(log).value, after.value, Command(id, kind, payload, author, now, None), at)
  {
    hide Fold;
    var job, op := Fold(log).value, SendCommand(id, kind, payload, author, now);
    var events := EventsOn(job, op);
    AppendTwo(log, events, at);
    FoldAppend(log, Receipt(events[0], at));
    if |events| == 2 {
      FoldAppend(log + [Receipt(events[0], at)], Receipt(events[1], at));
    }
  }

  /** The command still has to be consumed and is of a wanted kind. */
  predicate Waits(command: Command, wanted: set<CommandKind>) {
    (command.consumedAt == None || command.consumedAt == Some(0)) && command.kind in wanted
  }

  /** A waiting command has the id. */
  predicate IdWaits(commands: seq<Command>, wanted: set<CommandKind>, id: string) {
    exists j :: 0 <= j < |commands| && Waits(commands[j], wanted) && commands[j].id == id
  }

  /** Every command under the id of a waiting one is stamped; nothing else of the job changes. */
  predicate Stamps(a: Job, b: Job, wanted: set<CommandKind>, now: int, at: int) {
    && |b.commands| == |a.commands|
    && (forall i :: 0 <= i < |a.commands| ==>
          b.commands[i] == if IdWaits(a.commands, wanted, a.commands[i].id) then a.commands[i].(consumedAt := Some(now))
                           else a.commands[i])
    && b == a.(commands := b.commands, updatedAt := b.updatedAt)
    && b.updatedAt == if exists j :: 0 <= j < |a.commands| && Waits(a.commands[j], wanted) then at else a.updatedAt
  }

  /** The commands handed out: all that wait, in queue order, each once, with the stamp. */
  ghost predicate HandsOut(commands: seq<Command>, wanted: set<CommandKind>, now: int, handed: seq<Command>) {
    exists places: seq<int> :: HandsOutAt(commands, wanted, now, handed, places)
  }

  ghost predicate HandsOutAt(commands: seq<Command>, wanted: set<CommandKind>, now: int, handed: seq<Command>,
                             places: seq<int>)
  {
    && |places| == |handed|
    && (forall k :: 0 <= k < |places| ==>
          0 <= places[k] < |commands| && handed[k] == commands[places[k]].(consumedAt := Some(now)))
    && (forall j, k :: 0 <= j < k < |places| ==> places[j] < places[k])
    && forall i :: 0 <= i < |commands| ==> (i in places <==> Waits(commands[i], wanted))
  }

  lemma DueHandsOut(commands: seq<Command>, wanted: set<CommandKind>, now: int, handed: seq<Command>)
    requires var due := Due(commands, wanted);
      |handed| == |due| && forall k :: 0 <= k < |due| ==> handed[k] == due[k].(consumedAt := Some(now))
    ensures HandsOut(commands, wanted, now, handed)
  {
    hide Due;
    CommandDelivery.DueInOrder(commands, wanted);
    var places: seq<int> := CommandDelivery.DuePlaces(commands, wanted);
    assert HandsOutAt(commands, wanted, now, handed, places);
  }

  lemma ConsumeGives(log: Log, wanted: set<CommandKind>, now: int, at: int)
    requires Fold(log).Some?
    ensures var after := Fold(Apply(log, TakeCommands(wanted, now), at));
      after.Some? && Stamps(Fold(log).value, after.value, wanted, now, at)
  {
    hide Fold, Due, Stamps;
    var commands := Fold(log).value.commands;
    CommandDelivery.ConsumeAll(log, Due(commands, wanted), now, at);
    StampsTheWaiting(Fold(log).value, wanted, now, at);
  }

  lemma StampsTheWaiting(a: Job, wanted: set<CommandKind>, now: int, at: int)
    ensures var due := Due(a.commands, wanted);
      Stamps(a, a.(commands := CommandDelivery.StampedAll(a.commands, CommandDelivery.Ids(due), now),
                   updatedAt := if due == [] then a.updatedAt else at), wanted, now, at)
  {
    hide Due, IdWaits, CommandDelivery.Ids;
    var due := Due(a.commands, wanted);
    DueWaits(a.commands, wanted);
    forall i | 0 <= i < |a.commands|
      ensures a.commands[i].id in CommandDelivery.Ids(due) <==> IdWaits(a.commands, wanted, a.commands[i].id)
    {
      DueIdWaits(a.commands, wanted, a.commands[i].id);
    }
  }

  lemma DueWaits(commands: seq<Command>, wanted: set<CommandKind>)
    ensures Due(commands, wanted) == [] <==> !exists j :: 0 <= j < |commands| && Waits(commands[j], wanted)
  {
    hide Due;
    var due := Due(commands, wanted);
    CommandDelivery.DueIsFilter(commands, wanted);
    if j :| 0 <= j < |commands| && Waits(commands[j], wanted) {
      assert commands[j] in due;
    }
    if due != [] {
      assert due[0] in due;
      var j :| 0 <= j < |commands| && commands[j] == due[0];
    }
  }

  lemma DueIdWaits(commands: seq<Command>, wanted: set<CommandKind>, id: string)
    ensures id in CommandDelivery.Ids(Due(commands, wanted)) <==> IdWaits(commands, wanted, id)
  {
    hide Due;
    var due := Due(commands, wanted);
    CommandDelivery.DueIsFilter(commands, wanted);
    if j :| 0 <= j < |commands| && Waits(commands[j], wanted) && commands[j].id == id {
      assert commands[j] in due;
    }
    if id in CommandDelivery.Ids(due) {
      var k :| 0 <= k < |due| && due[k].id == id;
      assert due[k] in due;
      var j :| 0 <= j < |commands| && commands[j] == due[k];
    }
  }

  // ---------------------------------------------------------------------------------------------------------------
  // The requests of a singleton enqueue

  /** A job the index shows as queued is canceled; any other gets an abort command. */
  predicate Stopped(a: Job, b: Job, seenQueued: bool, commandId: string, now: int, at: int) {
    if seenQueued then CanceledFor(a, b, Some("singleton cancel"), at)
    else Commanded(a, b, Command(commandId, Abort, Some(AbortReason("singleton cancel")), None, now, None), at)
  }

  lemma StopGives(log: Log, seenQueued: bool, commandId: string, now: int, at: int)
    requires Fold(log).Some?
    ensures var after := Apply(log, RequestAbort(seenQueued, "singleton cancel", commandId, now), at);
      && |after| == |log| + 1 && log <= after
      && Fold(after).Some? && Stopped(Fold(log).value, Fold(after).value, seenQueued, commandId, now, at)
  {
    hide Fold;
    var op := RequestAbort(seenQueued, "singleton cancel", commandId, now);
    var event := EventsOn(Fold(log).value, op)[0];
    AppendOne(log, event, at);
    FoldAppend(log, Receipt(event, at));
  }

  lemma SteerGives(log: Log, commandId: string, key: string, payload: Json, now: int, at: int)
    requires Fold(log).Some?
    ensures var after := Apply(log, RequestSteer(commandId, FromEnqueue(key, payload), now), at);
      && |after| == |log| + 1 && log <= after && Fold(after).Some?
      && Commanded(Fold(log).value, Fold(after).value,
                   Command(commandId, Steer, Some(FromEnqueue(key, payload)), None, now, None), at)
  {
    hide Fold;
    var op := RequestSteer(commandId, FromEnqueue(key, payload), now);
    var event := EventsOn(Fold(log).value, op)[0];
    AppendOne(log, event, at);
    FoldAppend(log, Receipt(event, at));
  }
}
