/** The queue as a whole: every job's stream, what leaseNext and enqueue do to them, and the singleton modes over whole
    runs (src/adapters/sqlite-queue.ts:690-898). */
module QueueSpec {
  import opened Basics
  import opened Jobs
  import opened JobProtocol
  import opened QueueIndex

  /** The stored streams. */
  type Logs = map<JobId, Log>

  ghost predicate GoodLog(id: JobId, log: Log) {
    Good(log) && Fold(log).Some? && Fold(log).value.id == id
  }

  ghost predicate GoodLogs(logs: Logs) {
    forall id :: id in logs ==> GoodLog(id, logs[id])
  }

  function JobAt(logs: Logs, id: JobId): Option<Job> {
    if id in logs then Fold(logs[id]) else None
  }

  function JobsIn(logs: Logs): JobMap {
    map id | id in logs && Fold(logs[id]).Some? :: Fold(logs[id]).value
  }

  /** One operation on one existing job. */
  function Applied(logs: Logs, id: JobId, op: Op, at: int): Logs {
    if id in logs then logs[id := Apply(logs[id], op, at)] else logs
  }

  // ---------------------------------------------------------------------------------------------------------------
  // How streams move

  /** `after` continues every stream of `before`. */
  ghost predicate Continues(before: Logs, after: Logs) {
    && GoodLogs(after)
    && forall id :: id in before ==> id in after && before[id] <= after[id]
  }

  /** Any number of operations other than creating jobs. */
  ghost predicate Evolves(before: Logs, after: Logs) {
    Continues(before, after) && after.Keys == before.Keys
  }

  lemma AppliedGood(id: JobId, log: Log, op: Op, at: int)
    requires GoodLog(id, log)
    ensures GoodLog(id, Apply(log, op, at)) && log <= Apply(log, op, at)
    ensures var (a, b) := (Fold(log).value, Fold(Apply(log, op, at)).value);
      && SameIdentity(a, b) && (a.abortRequested ==> b.abortRequested) && (a.Terminal() ==> b.status == a.status)
  {
    GoodFold(log);
    ApplyGood(log, op, at);
    var longer := Apply(log, op, at);
    assert longer[..|log|] == log;
    NeverTakenBack(longer, |log|);
  }

  lemma AppliedEvolves(logs: Logs, id: JobId, op: Op, at: int)
    requires GoodLogs(logs)
    ensures Evolves(logs, Applied(logs, id, op, at))
  {
    if id in logs {
      AppliedGood(id, logs[id], op, at);
    }
  }

  lemma EvolvesJob(before: Logs, after: Logs, id: JobId)
    requires GoodLogs(before) && Continues(before, after) && id in before
    ensures var (a, b) := (Fold(before[id]).value, Fold(after[id]).value);
      && SameIdentity(a, b) && (a.abortRequested ==> b.abortRequested) && (a.Terminal() ==> b.status == a.status)
  {
    assert GoodLog(id, before[id]) && GoodLog(id, after[id]);
    GoodFold(before[id]);
    assert after[id][..|before[id]|] == before[id];
    NeverTakenBack(after[id], |before[id]|);
  }

  // ---------------------------------------------------------------------------------------------------------------
  // What an index may show

  /** An indexed copy may lag behind: it shows the job as some earlier part of its stream left it. */
  ghost predicate Lags(job: Job, log: Log) {
    exists n: nat :: 0 < n <= |log| && ShownAt(job, log, n)
  }

  predicate ShownAt(job: Job, log: Log, n: nat)
    requires n <= |log|
  {
    Fold(log[..n]).Some? && Shown(job, Fold(log[..n]).value)
  }

  ghost predicate LagsIn(indexed: JobMap, logs: Logs) {
    forall id :: id in indexed ==> id in logs && Lags(indexed[id], logs[id])
  }

  /** Every stored job is indexed, in whatever earlier form. */
  ghost predicate Discovered(indexed: JobMap, logs: Logs) {
    LagsIn(indexed, logs) && indexed.Keys == logs.Keys
  }

  /** Every stored job is indexed in its latest form. */
  ghost predicate InStep(indexed: JobMap, logs: Logs) {
    indexed.Keys == logs.Keys
    && forall id :: id in indexed ==> Fold(logs[id]).Some? && Shown(indexed[id], Fold(logs[id]).value)
  }

  /** What a lagging copy has right: identity, and whatever is never taken back. */
  lemma LaggingCopy(job: Job, id: JobId, log: Log)
    requires GoodLog(id, log) && Lags(job, log)
    ensures var now := Fold(log).value;
      SameIdentity(job, now) && (job.abortRequested ==> now.abortRequested)
        && (job.Terminal() ==> now.status == job.status)
  {
    hide Good;
    var n: nat :| 0 < n <= |log| && ShownAt(job, log, n);
    NeverTakenBack(log, n);
  }

  lemma LatestLags(job: Job, log: Log)
    requires log != [] && Fold(log).Some? && Shown(job, Fold(log).value)
    ensures Lags(job, log)
  {
    assert log[..|log|] == log;
    assert ShownAt(job, log, |log|);
  }

  lemma LagsLonger(job: Job, log: Log, longer: Log)
    requires Lags(job, log) && log <= longer
    ensures Lags(job, longer)
  {
    var n: nat :| 0 < n <= |log| && ShownAt(job, log, n);
    assert longer[..n] == log[..n];
    assert ShownAt(job, longer, n);
  }

  lemma LagsContinue(indexed: JobMap, before: Logs, after: Logs)
    requires LagsIn(indexed, before) && Continues(before, after)
    ensures LagsIn(indexed, after)
  {
    forall id | id in indexed ensures id in after && Lags(indexed[id], after[id]) {
      LagsLonger(indexed[id], before[id], after[id]);
    }
  }

  // ---------------------------------------------------------------------------------------------------------------
  // leaseNext

  datatype LeaseOptions = LeaseOptions(workerId: string, leaseMs: int, agentId: Option<string>, agentIds: seq<string>,
                                       lanes: seq<Lane>)
  {
    function Agents(): set<string> {
      (if agentId.Some? && Trim(agentId.value) != "" then {Trim(agentId.value)} else {})
      + (set i | 0 <= i < |agentIds| && Trim(agentIds[i]) != "" :: Trim(agentIds[i]))
    }

    function Lanes(): set<Lane> {
      set i | 0 <= i < |lanes| :: lanes[i]
    }

    predicate Matches(job: Job) {
      && (Agents() == {} || job.agentId in Agents())
      && (Lanes() == {} || job.lane in Lanes())
    }

    predicate Eligible(job: Job) {
      job.ShouldQueue() && Matches(job)
    }
  }

  /** Every overdue lease is expired. */
  function ExpireAll(logs: Logs, now: int, at: int): Logs {
    map id | id in logs :: Apply(logs[id], ExpireOverdue(now), at)
  }

  /** The eligible job that comes first in (lane priority, creation time, id) order. */
  ghost predicate IsFirstEligible(jobs: JobMap, options: LeaseOptions, id: JobId) {
    && id in jobs && options.Eligible(jobs[id])
    && forall other :: other in jobs && other != id && options.Eligible(jobs[other]) ==>
         Before(ByQueue, jobs[id], jobs[other])
  }

  /** What leaseNext does: expire every overdue lease, then lease the first eligible job, or none if there is none. */
  ghost predicate LeasedNext(before: Logs, options: LeaseOptions, now: int, at: int, after: Logs, leased: Option<Job>) {
    var expired := ExpireAll(before, now, at);
    var jobs := JobsIn(expired);
    match leased
    case Some(job) =>
      && IsFirstEligible(jobs, options, job.id)
      && after == Applied(expired, job.id, TakeLease(options.workerId, options.leaseMs), at)
      && JobAt(after, job.id) == leased && job.status == Leased && job.leaseOwner == Some(options.workerId)
    case None =>
      && after == expired
      && forall id :: id in jobs ==> !options.Eligible(jobs[id])
  }

  // ---------------------------------------------------------------------------------------------------------------
  // enqueue

  /** `now` is the queue clock, `at` the receipt clock, `commandId` names the command given to each prior job. */
  datatype EnqueueInput = EnqueueInput(jobId: JobId, agentId: string, lane: Option<Lane>, sessionKey: Option<string>,
                                       mode: Option<SingletonMode>, payload: Json, maxAttempts: Option<int>,
                                       now: int, at: int)
  {
    function Mode(): SingletonMode {
      if mode.Some? then mode.value else Allow
    }

    function Session(): Option<string> {
      SessionKey(sessionKey)
    }

    function Request(): JobRequest {
      JobRequest(jobId, agentId, lane, sessionKey, mode, payload, maxAttempts, now)
    }
  }

  /** activeBySession: the session's jobs that are not terminal. */
  function ActiveIn(jobs: JobMap, key: string, except: JobId): set<JobId> {
    set id | id in jobs && jobs[id].InSession(key) && !jobs[id].Terminal() && id != except
  }

  /** The prior jobs a singleton enqueue has to deal with. */
  function PriorJobs(jobs: JobMap, input: EnqueueInput): set<JobId> {
    if input.Session().Some? && input.Mode() != Allow then ActiveIn(jobs, input.Session().value, input.jobId) else {}
  }

  function AbortOp(seenQueued: bool, id: JobId, input: EnqueueInput, commandId: JobId -> string): Op {
    RequestAbort(seenQueued, "singleton cancel", commandId(id), input.now)
  }

  function AbortEvent(seenQueued: bool, id: JobId, input: EnqueueInput, commandId: JobId -> string): JobEvent {
    if seenQueued then Cancel(Some("singleton cancel"))
    else QueueCommand(Command(commandId(id), Abort, Some(AbortReason("singleton cancel")), None, input.now, None))
  }

  function SteerOp(id: JobId, input: EnqueueInput, commandId: JobId -> string): Op
    requires input.Session().Some?
  {
    RequestSteer(commandId(id), FromEnqueue(input.Session().value, input.payload), input.now)
  }

  /** Each prior job is asked to stop in the way that fits how the index shows it. */
  function AbortAll(indexed: JobMap, logs: Logs, prior: set<JobId>, input: EnqueueInput,
                    commandId: JobId -> string): Logs {
    map id | id in logs ::
      if id in prior && id in indexed then
        Apply(logs[id], AbortOp(indexed[id].status == Queued, id, input, commandId), input.at)
      else logs[id]
  }

  ghost predicate IsMostRecent(jobs: JobMap, ids: set<JobId>, id: JobId) {
    && id in ids && ids <= jobs.Keys
    && forall other :: other in ids && other != id ==> Before(ByRecency, jobs[id], jobs[other])
  }

  /** What enqueue does to the streams. It looks for the session's prior jobs among the indexed ones. */
  ghost predicate EnqueueStep(indexed: JobMap, before: Logs, input: EnqueueInput, commandId: JobId -> string,
                              after: Logs) {
    var prior := PriorJobs(indexed, input);
    if input.jobId in before then after == before
    else if input.Mode() == SteerPrior && prior != {} then
      exists target :: IsMostRecent(indexed, prior, target)
        && after == Applied(before, target, SteerOp(target, input, commandId), input.at)
    else
      var cleared := if input.Mode() == CancelPrior then AbortAll(indexed, before, prior, input, commandId) else before;
      after == cleared[input.jobId := Apply([], Create(input.Request()), input.at)]
  }

  lemma CreatedJob(input: EnqueueInput)
    ensures var log := Apply([], Create(input.Request()), input.at);
      && GoodLog(input.jobId, log)
      && log == [Receipt(Created(input.Request()), input.at)]
      && Fold(log).value.sessionKey == input.Session() && Fold(log).value.status == Queued
      && !Fold(log).value.abortRequested
  {
    var event := Created(input.Request());
    AppendOne([], event, input.at);
    FoldAppend([], Receipt(event, input.at));
    ApplyGood([], Create(input.Request()), input.at);
  }

  /** A singleton cancel leaves a prior job terminal or with an abort request, however the index showed it. */
  lemma AbortedPrior(id: JobId, log: Log, seenQueued: bool, input: EnqueueInput, commandId: JobId -> string)
    requires GoodLog(id, log)
    ensures var after := Apply(log, AbortOp(seenQueued, id, input, commandId), input.at);
      && after == log + [Receipt(AbortEvent(seenQueued, id, input, commandId), input.at)]
      && Fold(after).Some? && (Fold(after).value.Terminal() || Fold(after).value.abortRequested)
  {
    hide Good, Fold, Advance;
    var event := AbortEvent(seenQueued, id, input, commandId);
    AppendOne(log, event, input.at);
    FoldAppend(log, Receipt(event, input.at));
    StoppedBy(Fold(log).value, event, input.at);
  }

  lemma StoppedBy(job: Job, event: JobEvent, ts: int)
    requires event.Cancel? || (event.QueueCommand? && event.command.kind == Abort)
    ensures Advance(job, event, ts).Terminal() || Advance(job, event, ts).abortRequested
  {
  }

  lemma EnqueueContinues(indexed: JobMap, before: Logs, input: EnqueueInput, commandId: JobId -> string, after: Logs)
    requires GoodLogs(before) && EnqueueStep(indexed, before, input, commandId, after)
    ensures Continues(before, after)
    ensures after.Keys <= before.Keys + {input.jobId}
  {
    hide IsMostRecent, SteerOp, AbortOp, Good, Fold, Apply, SessionKey, ActiveIn;
    var prior := PriorJobs(indexed, input);
    if input.jobId in before {
    } else if input.Mode() == SteerPrior && prior != {} {
      var target :| IsMostRecent(indexed, prior, target)
        && after == Applied(before, target, SteerOp(target, input, commandId), input.at);
      AppliedEvolves(before, target, SteerOp(target, input, commandId), input.at);
    } else {
      CreatedJob(input);
      forall id | id in before ensures GoodLog(id, after[id]) && before[id] <= after[id] {
        if input.Mode() == CancelPrior && id in prior && id in indexed {
          AppliedGood(id, before[id], AbortOp(indexed[id].status == Queued, id, input, commandId), input.at);
        }
      }
    }
  }

  // ---------------------------------------------------------------------------------------------------------------
  // Singleton modes over whole runs

  /** One operation of a queue: an enqueue that decides from the given indexed jobs, or anything else. */
  datatype Move = EnqueueMove(indexed: JobMap, input: EnqueueInput, commandId: JobId -> string) | OtherMove

  /** An enqueue first indexes every stored job it does not know yet; the jobs it knows may be shown in earlier forms,
      since other queues act on them too. */
  ghost predicate Moves(before: Logs, move: Move, after: Logs) {
    match move
    case EnqueueMove(indexed, input, commandId) =>
      Discovered(indexed, before) && EnqueueStep(indexed, before, input, commandId, after)
    case OtherMove => Evolves(before, after)
  }

  ghost predicate History(states: seq<Logs>, moves: seq<Move>) {
    && |states| == |moves| + 1 && states[0] == map[]
    && forall i :: 0 <= i < |moves| ==> Moves(states[i], moves[i], states[i + 1])
  }

  /** Every enqueue of the session uses the mode. */
  ghost predicate SessionUses(moves: seq<Move>, key: string, mode: SingletonMode) {
    forall i :: 0 <= i < |moves| && moves[i].EnqueueMove? && moves[i].input.Session() == Some(key) ==>
      moves[i].input.Mode() == mode
  }

  predicate IsActive(log: Log, key: string) {
    Fold(log).Some? && Fold(log).value.InSession(key) && !Fold(log).value.Terminal()
  }

  predicate IsUnaborted(log: Log, key: string) {
    IsActive(log, key) && !Fold(log).value.abortRequested
  }

  ghost predicate OneActive(logs: Logs, key: string) {
    forall a, b :: a in logs && b in logs && IsActive(logs[a], key) && IsActive(logs[b], key) ==> a == b
  }

  ghost predicate OneUnaborted(logs: Logs, key: string) {
    forall a, b :: a in logs && b in logs && IsUnaborted(logs[a], key) && IsUnaborted(logs[b], key) ==> a == b
  }

  /** Continuing streams makes no job active, and takes back no abort request. */
  lemma NoNewActive(before: Logs, after: Logs, id: JobId, key: string)
    requires GoodLogs(before) && Continues(before, after) && id in before
    ensures id in after
    ensures IsActive(after[id], key) ==> IsActive(before[id], key)
    ensures IsUnaborted(after[id], key) ==> IsUnaborted(before[id], key)
  {
    EvolvesJob(before, after, id);
  }

  lemma OtherKeepsOne(before: Logs, after: Logs, key: string)
    requires GoodLogs(before) && Evolves(before, after)
    ensures OneActive(before, key) ==> OneActive(after, key)
    ensures OneUnaborted(before, key) ==> OneUnaborted(after, key)
  {
    hide GoodLogs, IsActive, IsUnaborted;
    forall id | id in after ensures IsActive(after[id], key) ==> IsActive(before[id], key) {
      NoNewActive(before, after, id, key);
    }
    forall id | id in after ensures IsUnaborted(after[id], key) ==> IsUnaborted(before[id], key) {
      NoNewActive(before, after, id, key);
    }
  }

  /** An enqueue creates its job unless it is known or, when steering, the index shows an active job of the session. */
  predicate Creates(indexed: JobMap, before: Logs, input: EnqueueInput) {
    input.jobId !in before && (input.Mode() == SteerPrior ==> PriorJobs(indexed, input) == {})
  }

  lemma EnqueueCreates(indexed: JobMap, before: Logs, input: EnqueueInput, commandId: JobId -> string, after: Logs)
    requires LagsIn(indexed, before) && EnqueueStep(indexed, before, input, commandId, after)
    ensures Creates(indexed, before, input) ==>
      && input.jobId in after && after[input.jobId] == Apply([], Create(input.Request()), input.at)
      && after.Keys == before.Keys + {input.jobId}
      && forall id :: id in before ==>
           after[id] == if input.Mode() == CancelPrior && id in PriorJobs(indexed, input) then
             Apply(before[id], AbortOp(indexed[id].status == Queued, id, input, commandId), input.at)
           else before[id]
    ensures !Creates(indexed, before, input) ==> after.Keys == before.Keys
  {
    hide Apply, SteerOp, AbortOp, PriorJobs, Lags;
    assert PriorJobs(indexed, input) <= indexed.Keys by {
      PriorIndexed(indexed, input);
    }
  }

  lemma PriorIndexed(indexed: JobMap, input: EnqueueInput)
    ensures PriorJobs(indexed, input) <= indexed.Keys
  {
  }

  /** An indexed job of the session that is active in its stream is found by the enqueue, in whatever form. */
  lemma ActiveIsPrior(indexed: JobMap, before: Logs, input: EnqueueInput, id: JobId, key: string)
    requires GoodLogs(before) && LagsIn(indexed, before) && id in indexed && input.jobId !in before
    requires IsActive(before[id], key) && input.Session() == Some(key) && input.Mode() != Allow
    ensures id in PriorJobs(indexed, input)
  {
    assert GoodLog(id, before[id]);
    LaggingCopy(indexed[id], id, before[id]);
  }

  /** A new job of the session is active and without an abort request. */
  lemma CreatedIsUnaborted(input: EnqueueInput, key: string)
    requires input.Session() == Some(key) && key != ""
    ensures var log := Apply([], Create(input.Request()), input.at); IsActive(log, key) && IsUnaborted(log, key)
  {
    CreatedJob(input);
  }

  /** A job of the session that is active but not indexed. */
  ghost predicate MissesActive(indexed: JobMap, logs: Logs, key: string) {
    exists id :: id in logs && id !in indexed && IsActive(logs[id], key)
  }

  ghost predicate MissesUnaborted(indexed: JobMap, logs: Logs, key: string) {
    exists id :: id in logs && id !in indexed && IsUnaborted(logs[id], key)
  }

  /** A steering enqueue keeps the session's active job the only one exactly when it does not create its job while an
      active job of the session is missing from the index. */
  lemma SteerKeepsOneActive(indexed: JobMap, before: Logs, input: EnqueueInput, commandId: JobId -> string, after: Logs,
                            key: string)
    requires GoodLogs(before) && LagsIn(indexed, before) && EnqueueStep(indexed, before, input, commandId, after)
    requires input.Session() == Some(key) && key != "" && input.Mode() == SteerPrior && OneActive(before, key)
    ensures OneActive(after, key) <==> !(Creates(indexed, before, input) && MissesActive(indexed, before, key))
  {
    hide GoodLogs, LagsIn, IsActive, EnqueueStep, PriorJobs, Apply;
    EnqueueContinues(indexed, before, input, commandId, after);
    EnqueueCreates(indexed, before, input, commandId, after);
    CreatedIsUnaborted(input, key);
    if Creates(indexed, before, input) {
      forall id | id in before ensures IsActive(before[id], key) ==> id !in indexed {
        if id in indexed && IsActive(before[id], key) {
          ActiveIsPrior(indexed, before, input, id, key);
        }
      }
      if id :| id in before && IsActive(before[id], key) {
        assert after[id] == before[id];
      }
    } else {
      forall id | id in after ensures IsActive(after[id], key) ==> IsActive(before[id], key) {
        NoNewActive(before, after, id, key);
      }
    }
  }

  /** A cancelling enqueue keeps the session's job without an abort request the only one exactly when it does not create
      its job while such a job is missing from the index. */
  lemma CancelKeepsOneUnaborted(indexed: JobMap, before: Logs, input: EnqueueInput, commandId: JobId -> string,
                                after: Logs, key: string)
    requires GoodLogs(before) && LagsIn(indexed, before) && EnqueueStep(indexed, before, input, commandId, after)
    requires input.Session() == Some(key) && key != "" && input.Mode() == CancelPrior && OneUnaborted(before, key)
    ensures OneUnaborted(after, key) <==> !(Creates(indexed, before, input) && MissesUnaborted(indexed, before, key))
  {
    hide GoodLogs, LagsIn, IsUnaborted, EnqueueStep, PriorJobs, Apply;
    EnqueueContinues(indexed, before, input, commandId, after);
    EnqueueCreates(indexed, before, input, commandId, after);
    CreatedIsUnaborted(input, key);
    if Creates(indexed, before, input) {
      forall id | id in before ensures IsUnaborted(after[id], key) <==> IsUnaborted(before[id], key) && id !in indexed {
        UnabortedLeft(indexed, before, input, commandId, after, id, key);
      }
    } else {
      forall id | id in after ensures IsUnaborted(after[id], key) ==> IsUnaborted(before[id], key) {
        NoNewActive(before, after, id, key);
      }
    }
  }

  /** Of the session's jobs without an abort request, a cancelling enqueue leaves those that are not indexed. */
  lemma UnabortedLeft(indexed: JobMap, before: Logs, input: EnqueueInput, commandId: JobId -> string, after: Logs,
                      id: JobId, key: string)
    requires GoodLogs(before) && LagsIn(indexed, before) && EnqueueStep(indexed, before, input, commandId, after)
    requires Creates(indexed, before, input) && input.Mode() == CancelPrior && input.Session() == Some(key)
      && id in before
    ensures id in after && (IsUnaborted(after[id], key) <==> IsUnaborted(before[id], key) && id !in indexed)
  {
    hide EnqueueStep, Good, Fold, Apply, Created, PriorJobs, Lags;
    EnqueueContinues(indexed, before, input, commandId, after);
    EnqueueCreates(indexed, before, input, commandId, after);
    NoNewActive(before, after, id, key);
    PriorIndexed(indexed, input);
    if id in indexed && IsActive(before[id], key) {
      ActiveIsPrior(indexed, before, input, id, key);
      assert GoodLog(id, before[id]);
      AbortedPrior(id, before[id], indexed[id].status == Queued, input, commandId);
    }
  }

  /** An enqueue in another session changes nothing for this one. */
  lemma OtherSession(indexed: JobMap, before: Logs, input: EnqueueInput, commandId: JobId -> string, after: Logs,
                     key: string)
    requires GoodLogs(before) && LagsIn(indexed, before) && EnqueueStep(indexed, before, input, commandId, after)
    requires input.Session() != Some(key)
    ensures OneActive(before, key) ==> OneActive(after, key)
    ensures OneUnaborted(before, key) ==> OneUnaborted(after, key)
  {
    hide GoodLogs, LagsIn, EnqueueStep, Apply, Fold, SessionKey, PriorJobs;
    EnqueueContinues(indexed, before, input, commandId, after);
    EnqueueCreates(indexed, before, input, commandId, after);
    CreatedJob(input);
    forall id | id in after && IsActive(after[id], key)
      ensures id in before && IsActive(before[id], key)
        && (IsUnaborted(after[id], key) ==> IsUnaborted(before[id], key))
    {
      if id in before {
        NoNewActive(before, after, id, key);
      }
    }
  }

  lemma StepGood(before: Logs, move: Move, after: Logs)
    requires GoodLogs(before) && Moves(before, move, after)
    ensures GoodLogs(after)
  {
    if move.EnqueueMove? {
      EnqueueContinues(move.indexed, before, move.input, move.commandId, after);
    }
  }

  /** If every enqueue of a session steers, the session never has two jobs that are not terminal. */
  lemma {:induction false} SteerSessionsHaveOneJob(states: seq<Logs>, moves: seq<Move>, key: string)
    requires History(states, moves) && SessionUses(moves, key, SteerPrior) && key != ""
    ensures GoodLogs(states[|moves|]) && OneActive(states[|moves|], key)
  {
    hide GoodLogs, OneActive, EnqueueStep, LagsIn;
    if moves == [] {
      NoJobs(key);
    } else {
      var n := |moves| - 1;
      var before, move, after := states[n], moves[n], states[n + 1];
      SteerSessionsHaveOneJob(states[..n + 1], moves[..n], key);
      assert Moves(before, move, after);
      StepGood(before, move, after);
      if move.OtherMove? {
        OtherKeepsOne(before, after, key);
      } else if move.input.Session() == Some(key) {
        SteerKeepsOneActive(move.indexed, before, move.input, move.commandId, after, key);
      } else {
        OtherSession(move.indexed, before, move.input, move.commandId, after, key);
      }
    }
  }

  /** If every enqueue of a session cancels, at most one of its jobs is neither terminal nor asked to abort. */
  lemma {:induction false} CancelSessionsHaveOneLiveJob(states: seq<Logs>, moves: seq<Move>, key: string)
    requires History(states, moves) && SessionUses(moves, key, CancelPrior) && key != ""
    ensures GoodLogs(states[|moves|]) && OneUnaborted(states[|moves|], key)
  {
    hide GoodLogs, OneUnaborted, EnqueueStep, LagsIn;
    if moves == [] {
      NoJobs(key);
    } else {
      var n := |moves| - 1;
      var before, move, after := states[n], moves[n], states[n + 1];
      CancelSessionsHaveOneLiveJob(states[..n + 1], moves[..n], key);
      assert Moves(before, move, after);
      StepGood(before, move, after);
      if move.OtherMove? {
        OtherKeepsOne(before, after, key);
      } else if move.input.Session() == Some(key) {
        CancelKeepsOneUnaborted(move.indexed, before, move.input, move.commandId, after, key);
      } else {
        OtherSession(move.indexed, before, move.input, move.commandId, after, key);
      }
    }
  }

  lemma NoJobs(key: string)
    ensures GoodLogs(map[]) && OneActive(map[], key) && OneUnaborted(map[], key)
  {
  }

  /** The session's jobs that are active in their streams. */
  function ActiveJobs(logs: Logs, key: string): set<JobId> {
    set id | id in logs && IsActive(logs[id], key)
  }

  /** With a job of the session active in its stream, a steering enqueue creates nothing: it appends one steer command
      to the most recently updated of the session's jobs that the index shows as active, and leaves every other
      stream. With the index in step this is the most recently updated of the active jobs themselves. */
  lemma SteerAppendsOneCommand(indexed: JobMap, before: Logs, input: EnqueueInput, commandId: JobId -> string,
                               after: Logs, active: JobId, key: string)
    requires GoodLogs(before) && Discovered(indexed, before) && EnqueueStep(indexed, before, input, commandId, after)
    requires input.jobId !in before && input.Mode() == SteerPrior && input.Session() == Some(key)
    requires active in before && IsActive(before[active], key)
    ensures exists target ::
      && target in before && IsMostRecent(indexed, ActiveIn(indexed, key, input.jobId), target)
      && after == before[target := before[target] + [SteerReceipt(target, input, commandId)]]
      && (InStep(indexed, before) ==> IsMostRecent(JobsIn(before), ActiveJobs(before, key), target))
  {
    hide GoodLogs, IsActive, InStep, IsMostRecent, Lags, SessionKey, Apply, SteerOp;
    ActiveIsPrior(indexed, before, input, active, key);
    var prior := PriorJobs(indexed, input);
    var target :| IsMostRecent(indexed, prior, target)
      && after == Applied(before, target, SteerOp(target, input, commandId), input.at);
    SteerGoesTo(indexed, before, input, commandId, after, target);
    if InStep(indexed, before) {
      RecentInStep(indexed, before, input, key, target);
    }
  }

  /** A steering enqueue that finds prior jobs appends its one receipt to the most recent of them. */
  lemma SteerGoesTo(indexed: JobMap, before: Logs, input: EnqueueInput, commandId: JobId -> string, after: Logs,
                    target: JobId)
    requires GoodLogs(before) && LagsIn(indexed, before) && EnqueueStep(indexed, before, input, commandId, after)
    requires input.jobId !in before && input.Mode() == SteerPrior && input.Session().Some?
    requires IsMostRecent(indexed, PriorJobs(indexed, input), target)
    ensures target in before && GoodLog(target, before[target])
    ensures after == before[target := before[target] + [SteerReceipt(target, input, commandId)]]
  {
    hide Good, Lags, SteerOp, SessionKey, Apply, Before, SteerReceipt;
    var prior := PriorJobs(indexed, input);
    var chosen :| IsMostRecent(indexed, prior, chosen)
      && after == Applied(before, chosen, SteerOp(chosen, input, commandId), input.at);
    RecentIsUnique(indexed, prior, chosen, target);
    assert GoodLog(target, before[target]);
    SteerAppends(before[target], target, input, commandId);
  }

  lemma RecentIsUnique(jobs: JobMap, ids: set<JobId>, a: JobId, b: JobId)
    requires IsMostRecent(jobs, ids, a) && IsMostRecent(jobs, ids, b)
    ensures a == b
  {
  }

  /** With the index in step, the prior jobs are the active ones, in the same order. */
  lemma RecentInStep(indexed: JobMap, before: Logs, input: EnqueueInput, key: string, target: JobId)
    requires InStep(indexed, before) && input.jobId !in before && input.Mode() != Allow && input.Session() == Some(key)
    requires IsMostRecent(indexed, PriorJobs(indexed, input), target)
    ensures IsMostRecent(JobsIn(before), ActiveJobs(before, key), target)
  {
    hide Before, Fold, SessionKey;
    var jobs, prior := JobsIn(before), PriorJobs(indexed, input);
    forall id | id in indexed
      ensures id in jobs && (id in prior <==> id in ActiveJobs(before, key)) && SameRecency(indexed[id], jobs[id])
    {
    }
    forall other | other in prior && other != target ensures Before(ByRecency, jobs[target], jobs[other]) {
      RecencyAlike(indexed[target], indexed[other], jobs[target], jobs[other]);
    }
  }

  predicate SameRecency(a: Job, b: Job) {
    a.id == b.id && a.updatedAt == b.updatedAt && a.createdAt == b.createdAt
  }

  lemma RecencyAlike(a: Job, b: Job, c: Job, d: Job)
    requires SameRecency(a, c) && SameRecency(b, d)
    ensures Before(ByRecency, a, b) <==> Before(ByRecency, c, d)
  {
  }

  /** The steered job, whose indexed copy was taken after n receipts of its stream, is active exactly when no receipt
      since has ended it. While a session has one active job this is exactly when the command goes to that job. */
  lemma SteerReachesActive(indexed: JobMap, before: Logs, input: EnqueueInput, commandId: JobId -> string, after: Logs,
                           target: JobId, n: nat, key: string)
    requires GoodLogs(before) && LagsIn(indexed, before) && EnqueueStep(indexed, before, input, commandId, after)
    requires input.jobId !in before && input.Mode() == SteerPrior && input.Session() == Some(key)
    requires IsMostRecent(indexed, PriorJobs(indexed, input), target) && target in before
    requires 0 < n <= |before[target]| && ShownAt(indexed[target], before[target], n)
    ensures after == before[target := before[target] + [SteerReceipt(target, input, commandId)]]
    ensures IsActive(after[target], key) <==> !EndedSince(before[target], n)
    ensures OneActive(before, key) ==>
      (IsMostRecent(JobsIn(before), ActiveJobs(before, key), target) <==> !EndedSince(before[target], n))
  {
    hide GoodLogs, IsActive, EnqueueStep, EndedSince, Fold, ShownAt, SessionKey, Good, Before;
    SteerGoesTo(indexed, before, input, commandId, after, target);
    PriorShown(indexed, input, key, target);
    ActiveSince(indexed[target], target, before[target], n, key);
    CommandKeepsActive(before[target], SteerReceipt(target, input, commandId), key);
    if OneActive(before, key) {
      OnlyActiveIsRecent(before, key, target);
    }
  }

  lemma PriorShown(indexed: JobMap, input: EnqueueInput, key: string, id: JobId)
    requires id in PriorJobs(indexed, input) && input.Session() == Some(key)
    ensures id in indexed && indexed[id].InSession(key) && !indexed[id].Terminal()
  {
  }

  /** A job that was active after n receipts is active now exactly when no receipt since has ended it. */
  lemma ActiveSince(copy: Job, id: JobId, log: Log, n: nat, key: string)
    requires GoodLog(id, log) && 0 < n <= |log| && ShownAt(copy, log, n)
    requires copy.InSession(key) && !copy.Terminal()
    ensures IsActive(log, key) <==> !EndedSince(log, n)
  {
    hide Good, EndedSince;
    NeverTakenBack(log, n);
    EndedIsTerminal(log, n);
  }

  lemma CommandKeepsActive(log: Log, receipt: Receipt, key: string)
    requires Fold(log).Some? && receipt.event.QueueCommand?
    ensures IsActive(log + [receipt], key) <==> IsActive(log, key)
  {
    hide Fold, Stamped;
    FoldAppend(log, receipt);
  }

  /** The only active job of a session is the most recent one. */
  lemma OnlyActiveIsRecent(logs: Logs, key: string, id: JobId)
    requires OneActive(logs, key) && id in logs
    ensures IsMostRecent(JobsIn(logs), ActiveJobs(logs, key), id) <==> IsActive(logs[id], key)
  {
  }

  function SteerReceipt(target: JobId, input: EnqueueInput, commandId: JobId -> string): Receipt
    requires input.Session().Some?
  {
    var command := Command(commandId(target), Steer, Some(FromEnqueue(input.Session().value, input.payload)), None,
                           input.now, None);
    Receipt(QueueCommand(command), input.at)
  }

  lemma SteerAppends(log: Log, target: JobId, input: EnqueueInput, commandId: JobId -> string)
    requires Fold(log).Some? && input.Session().Some?
    ensures Apply(log, SteerOp(target, input, commandId), input.at) == log + [SteerReceipt(target, input, commandId)]
  {
    AppendOne(log, SteerReceipt(target, input, commandId).event, input.at);
  }

  // ---------------------------------------------------------------------------------------------------------------
  // Two states that show the limits

  /** Where another queue created the session's job and this one has not discovered it, a second enqueue, whatever its
      mode, creates a second job that is active and without an abort request. */
  lemma UndiscoveredBreaksOne(first: EnqueueInput, second: EnqueueInput, commandId: JobId -> string, key: string)
    requires first.Session() == second.Session() == Some(key) && key != "" && first.jobId != second.jobId
    ensures var before := map[first.jobId := Apply([], Create(first.Request()), first.at)];
      var after := before[second.jobId := Apply([], Create(second.Request()), second.at)];
      && GoodLogs(before) && OneActive(before, key) && OneUnaborted(before, key) && LagsIn(map[], before)
      && EnqueueStep(map[], before, second, commandId, after) && !OneActive(after, key) && !OneUnaborted(after, key)
  {
    hide Apply, IsActive, SessionKey, IsUnaborted;
    CreatedJob(first);
    CreatedIsUnaborted(first, key);
    CreatedIsUnaborted(second, key);
    var before: Logs := map[first.jobId := Apply([], Create(first.Request()), first.at)];
    var after := before[second.jobId := Apply([], Create(second.Request()), second.at)];
    NothingPrior(before, second, commandId);
    assert IsActive(after[first.jobId], key) && IsActive(after[second.jobId], key);
    assert IsUnaborted(after[first.jobId], key) && IsUnaborted(after[second.jobId], key);
  }

  /** With an empty index an enqueue of a new job creates it and does nothing else. */
  lemma NothingPrior(before: Logs, input: EnqueueInput, commandId: JobId -> string)
    requires input.jobId !in before
    ensures EnqueueStep(map[], before, input, commandId,
                        before[input.jobId := Apply([], Create(input.Request()), input.at)])
  {
    hide Apply, SessionKey;
    var none: JobMap := map[];
    assert PriorJobs(none, input) == {};
    assert AbortAll(none, before, {}, input, commandId) == before;
  }

  /** A steering enqueue can be lost. The session's job is created, this queue indexes it, another queue cancels it, and
      the next steering enqueue, with every stored job discovered, steers the terminal job: it creates nothing, and no
      job of the session is active. */
  lemma SteerCanBeLost(first: EnqueueInput, second: EnqueueInput, commandId: JobId -> string, key: string, at: int)
    requires first.Session() == second.Session() == Some(key) && key != "" && first.jobId != second.jobId
    requires second.Mode() == SteerPrior
    ensures var created := Apply([], Create(first.Request()), first.at);
      var log := Apply(created, CancelJob(None), at);
      var indexed := map[first.jobId := Fold(created).value];
      var (one, two) := (map[first.jobId := created], map[first.jobId := log]);
      var after := map[first.jobId := log + [SteerReceipt(first.jobId, second, commandId)]];
      && History([map[], one, two, after],
                 [EnqueueMove(map[], first, commandId), OtherMove, EnqueueMove(indexed, second, commandId)])
      && second.jobId !in after && ActiveJobs(after, key) == {}
  {
    hide Apply, Fold, SessionKey, Good, EnqueueStep, Lags, IsActive, Evolves;
    CreatedJob(first);
    var created := Apply([], Create(first.Request()), first.at);
    CancelledJob(first.jobId, created, at);
    var log := Apply(created, CancelJob(None), at);
    var indexed := map[first.jobId := Fold(created).value];
    var none: Logs := map[];
    var (one, two) := (map[first.jobId := created], map[first.jobId := log]);
    NothingPrior(none, first, commandId);
    assert none[first.jobId := created] == one;
    AppliedEvolves(one, first.jobId, CancelJob(None), at);
    assert Applied(one, first.jobId, CancelJob(None), at) == two;
    SteersOnly(indexed, two, first.jobId, second, commandId, key);
    var after := map[first.jobId := log + [SteerReceipt(first.jobId, second, commandId)]];
    assert two[first.jobId := after[first.jobId]] == after;
    CommandKeepsActive(log, SteerReceipt(first.jobId, second, commandId), key);
    TerminalNotActive(log, key);
    var (states, moves) := ([none, one, two, after],
      [EnqueueMove(map[], first, commandId), OtherMove, EnqueueMove(indexed, second, commandId)]);
    assert Moves(none, moves[0], one) && Moves(one, moves[1], two) && Moves(two, moves[2], after);
  }

  lemma TerminalNotActive(log: Log, key: string)
    requires Fold(log).Some? && Fold(log).value.Terminal()
    ensures !IsActive(log, key)
  {
  }

  /** With one job indexed, as active, a steering enqueue steers that job. */
  lemma SteersOnly(indexed: JobMap, before: Logs, id: JobId, input: EnqueueInput, commandId: JobId -> string,
                   key: string)
    requires indexed.Keys == {id} && indexed[id].InSession(key) && !indexed[id].Terminal()
    requires id in before && Fold(before[id]).Some? && input.jobId !in before
    requires input.Session() == Some(key) && input.Mode() == SteerPrior
    ensures EnqueueStep(indexed, before, input, commandId,
      before[id := before[id] + [SteerReceipt(id, input, commandId)]])
  {
    hide Fold, Apply, SteerOp, SessionKey, SteerReceipt;
    assert PriorJobs(indexed, input) == {id};
    SteerAppends(before[id], id, input, commandId);
    assert IsMostRecent(indexed, {id}, id);
  }

  /** Where another queue cancelled the session's job and this one still shows it as queued, a cancelling enqueue
      appends one more cancellation to the terminal job's stream. */
  lemma CancelReachesTerminal(first: EnqueueInput, second: EnqueueInput, commandId: JobId -> string, key: string,
                              at: int)
    requires first.Session() == second.Session() == Some(key) && key != "" && first.jobId != second.jobId
    requires second.Mode() == CancelPrior
    ensures var created := Apply([], Create(first.Request()), first.at);
      var log := Apply(created, CancelJob(None), at);
      var (indexed, before) := (map[first.jobId := Fold(created).value], map[first.jobId := log]);
      && GoodLogs(before) && Discovered(indexed, before) && Fold(log).Some? && Fold(log).value.Terminal()
      && forall after :: EnqueueStep(indexed, before, second, commandId, after) ==>
           first.jobId in after
           && after[first.jobId] == log + [Receipt(Cancel(Some("singleton cancel")), second.at)]
  {
    hide Apply, Fold, SessionKey, Good, EnqueueStep, AbortOp, Lags;
    var created := Apply([], Create(first.Request()), first.at);
    var log := Apply(created, CancelJob(None), at);
    CreatedJob(first);
    CancelledJob(first.jobId, created, at);
    var (indexed, before) := (map[first.jobId := Fold(created).value], map[first.jobId := log]);
    AbortedPrior(first.jobId, log, true, second, commandId);
    assert first.jobId in PriorJobs(indexed, second);
    forall after | EnqueueStep(indexed, before, second, commandId, after)
      ensures first.jobId in after && after[first.jobId] == log + [Receipt(Cancel(Some("singleton cancel")), second.at)]
    {
      EnqueueCreates(indexed, before, second, commandId, after);
    }
  }

  /** Cancelling a queued job, of which an index keeps the queued form. */
  lemma CancelledJob(id: JobId, log: Log, at: int)
    requires GoodLog(id, log) && log != [] && Fold(log).value.status == Queued
    ensures var after := Apply(log, CancelJob(None), at);
      GoodLog(id, after) && Fold(after).value.Terminal() && Lags(Fold(log).value, after)
  {
    hide Good;
    AppendOne(log, Cancel(None), at);
    FoldAppend(log, Receipt(Cancel(None), at));
    AppliedGood(id, log, CancelJob(None), at);
    LatestLags(Fold(log).value, log);
    LagsLonger(Fold(log).value, log, Apply(log, CancelJob(None), at));
  }
}
