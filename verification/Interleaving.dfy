/** Several queue objects on one store, as a server, a command-line tool and a worker have them: their calls in any
    order make a history of the store, and every queue keeps its invariant through the calls of the others. */
module Interleaving {
  import opened Basics
  import opened Jobs
  import opened JobProtocol
  import opened QueueSpec
  import opened QueueSteps
  import opened LiveIndex
  import opened LiveQueue
  import opened QueueEffects

  /** One call on a queue object with the clock values it reads. */
  datatype Call =
    | Enqueueing(input: EnqueueInput, commandIds: JobId -> string)
    | LeasingNext(options: LeaseOptions, now: int, at: int)
    | Leasing(id: JobId, worker: string, leaseMs: int, at: int)
    | Reporting(id: JobId, op: Op, at: int)
    | Canceling(id: JobId, reason: Option<string>, at: int)
    | Commanding(id: JobId, commandId: string, kind: CommandKind, payload: Option<Json>, author: Option<string>,
                 now: int, at: int)
    | Consuming(id: JobId, filter: Option<set<CommandKind>>, now: int, at: int)
    | Loading(id: JobId)
    | Discovering
    | RefreshingAll(expire: bool, now: int, at: int)
    | RefreshingPart
  {
    /** Reports are one of the four kinds; where there are projection rows leases are taken under a named worker. */
    predicate Callable(projecting: bool) {
      && (Reporting? ==> op.IsReport())
      && (projecting && LeasingNext? ==> options.workerId != "")
      && (projecting && Leasing? ==> worker != "")
    }
  }

  /** What a call does to the streams: an enqueue is an enqueue with that input, anything else extends streams. */
  predicate Does(move: Move, call: Call) {
    if call.Enqueueing? then move.EnqueueMove? && move.input == call.input else move.OtherMove?
  }

  /** Every enqueue call of the session uses the mode. */
  ghost predicate CallsUse(calls: seq<(nat, Call)>, key: string, mode: SingletonMode) {
    forall i :: 0 <= i < |calls| && calls[i].1.Enqueueing? && calls[i].1.input.Session() == Some(key) ==>
      calls[i].1.input.Mode() == mode
  }

  lemma LeasedEvolves(before: Logs, options: LeaseOptions, now: int, at: int, id: JobId, after: Logs)
    requires GoodLogs(before) && LeasedWhileEligible(before, options, now, at, id, after)
    ensures Evolves(before, after)
  {
    hide GoodLogs, OnlyExpired, EligibleAt, Evolves, Applied;
    var op := TakeLease(options.workerId, options.leaseMs);
    var logs :| OnlyExpired(before, logs, now, at) && EligibleAt(logs, options, id)
      && after == Applied(logs, id, op, at);
    OnlyExpiredEvolves(before, logs, now, at);
    EvolvesAlong(before, logs, id, op, at);
  }

  /** Every call but an enqueue only extends streams. */
  method PerformOther(queue: Queue, call: Call)
    requires queue.Valid() && call.Callable(queue.store.projecting) && !call.Enqueueing?
    modifies queue.store, queue.index
    ensures queue.Valid() && Evolves(old(queue.store.logs), queue.store.logs)
  {
    hide GoodLogs, RowsShown, LagsIn, JobIndex.Valid, Evolves, Applied, OnlyExpired, Refreshed, LeasedWhileEligible;
    ghost var before := queue.store.logs;
    EvolvesItself(before);
    match call
    case LeasingNext(options, now, at) =>
      var leased := queue.LeaseNext(options, now, at);
      if leased.Some? {
        LeasedEvolves(before, options, now, at, leased.value.id, queue.store.logs);
      } else {
        OnlyExpiredEvolves(before, queue.store.logs, now, at);
      }
    case Leasing(id, worker, leaseMs, at) =>
      var leased := queue.LeaseJob(id, worker, leaseMs, at);
      AppliedEvolves(before, id, TakeLease(worker, leaseMs), at);
    case Reporting(id, op, at) =>
      var answer := queue.Report(id, op, at);
      AppliedEvolves(before, id, op, at);
    case Canceling(id, reason, at) =>
      var answer := queue.Cancel(id, reason, at);
      AppliedEvolves(before, id, CancelJob(reason), at);
    case Commanding(id, commandId, kind, payload, author, now, at) =>
      var command := queue.AddCommand(id, commandId, kind, payload, author, now, at);
      AppliedEvolves(before, id, SendCommand(commandId, kind, payload, author, now), at);
    case Consuming(id, filter, now, at) =>
      var consumed := queue.ConsumeCommands(id, filter, now, at);
      var wanted := if filter.Some? then filter.value else {Steer, FollowUp, Abort};
      AppliedEvolves(before, id, TakeCommands(wanted, now), at);
    case Loading(id) =>
      var job := queue.LoadAuthoritativeJob(id);
    case Discovering =>
      queue.Discover();
    case RefreshingAll(expire, now, at) =>
      var changed := queue.RefreshAll(expire, now, at);
      OnlyExpiredEvolves(before, queue.store.logs, now, at);
    case RefreshingPart =>
      queue.RefreshPart();
  }

  /** One call makes one move of the store, and leaves every other queue on it valid. */
  method Perform(queue: Queue, call: Call, ghost others: set<Queue>) returns (ghost move: Move)
    requires queue.Valid() && call.Callable(queue.store.projecting)
    requires forall other :: other in others ==>
      other.Valid() && other.store == queue.store && other.index != queue.index
    modifies queue.store, queue.index
    ensures queue.Valid() && forall other :: other in others ==> other.Valid()
    ensures Moves(old(queue.store.logs), move, queue.store.logs) && Does(move, call)
  {
    hide GoodLogs, RowsShown, LagsIn, JobIndex.Valid, EnqueueStep, EnqueueDoes, Answers;
    ghost var before := queue.store.logs;
    if call.Enqueueing? {
      var job := queue.Enqueue(call.input, call.commandIds);
      ghost var indexed :| Moves(before, EnqueueMove(indexed, call.input, call.commandIds), queue.store.logs);
      move := EnqueueMove(indexed, call.input, call.commandIds);
      EnqueueContinues(indexed, before, call.input, call.commandIds, queue.store.logs);
    } else {
      PerformOther(queue, call);
      move := OtherMove;
    }
    forall other | other in others ensures other.Valid() {
      LagsContinue(other.index.jobsById, before, queue.store.logs);
    }
  }

  /** Queues that share a store and nothing else. */
  ghost predicate Share(queues: seq<Queue>, store: JobStore)
    reads store, queues, set i | 0 <= i < |queues| :: queues[i].index
  {
    && store.Valid()
    && (forall i :: 0 <= i < |queues| ==> queues[i].store == store && queues[i].Valid())
    && forall i, j :: 0 <= i < j < |queues| ==> queues[i].index != queues[j].index
  }

  /** Any interleaving of calls makes a history of the store. So whatever else is called, in whatever order and on
      whichever queue: a session all of whose enqueues steer has at most one job that is not terminal, and one all of
      whose enqueues cancel has at most one that is neither terminal nor asked to abort. */
  method Interleave(store: JobStore, queues: seq<Queue>, calls: seq<(nat, Call)>)
    requires Share(queues, store) && store.logs == map[]
    requires forall i :: 0 <= i < |calls| ==> calls[i].0 < |queues| && calls[i].1.Callable(store.projecting)
    modifies store, set i | 0 <= i < |queues| :: queues[i].index
    ensures Share(queues, store) && GoodLogs(store.logs)
    ensures forall key :: key != "" && CallsUse(calls, key, SteerPrior) ==> OneActive(store.logs, key)
    ensures forall key :: key != "" && CallsUse(calls, key, CancelPrior) ==> OneUnaborted(store.logs, key)
  {
    hide Moves, GoodLogs, RowsShown, LagsIn, JobIndex.Valid, OneActive, OneUnaborted;
    ghost var states, moves: seq<Move> := [store.logs], [];
    for i := 0 to |calls|
      invariant Share(queues, store)
      invariant |moves| == i && History(states, moves) && states[i] == store.logs
      invariant forall k :: 0 <= k < i ==> Does(moves[k], calls[k].1)
    {
      var queue := queues[calls[i].0];
      ghost var others := set j | 0 <= j < |queues| && j != calls[i].0 :: queues[j];
      ghost var move := Perform(queue, calls[i].1, others);
      moves, states := moves + [move], states + [store.logs];
    }
    forall key | key != "" && CallsUse(calls, key, SteerPrior) ensures OneActive(store.logs, key) {
      SteerSessionsHaveOneJob(states, moves, key);
    }
    forall key | key != "" && CallsUse(calls, key, CancelPrior) ensures OneUnaborted(store.logs, key) {
      CancelSessionsHaveOneLiveJob(states, moves, key);
    }
  }
}
