/** Steer, follow-up and abort commands of a job: consumeCommands (src/adapters/sqlite-queue.ts:1071-1093) hands each
    out at most once over any run. */
module CommandDelivery {
  import opened Basics
  import opened Jobs
  import opened JobProtocol

  predicate IsDue(command: Command, wanted: set<CommandKind>) {
    command.Unconsumed() && command.kind in wanted
  }

  function Ids(commands: seq<Command>): set<string> {
    set i | 0 <= i < |commands| :: commands[i].id
  }

  /** The commands with every one under an id in `ids` stamped. */
  function StampedAll(commands: seq<Command>, ids: set<string>, at: int): seq<Command> {
    seq(|commands|, i requires 0 <= i < |commands| =>
      if commands[i].id in ids then commands[i].(consumedAt := Some(at)) else commands[i])
  }

  /** The positions of the due commands, in queue order. */
  function DuePlaces(commands: seq<Command>, wanted: set<CommandKind>): seq<nat> {
    if commands == [] then []
    else
      var n := |commands| - 1;
      DuePlaces(commands[..n], wanted) + if IsDue(commands[n], wanted) then [n] else []
  }

  lemma {:induction false} DueAppend(commands: seq<Command>, last: Command, wanted: set<CommandKind>)
    ensures Due(commands + [last], wanted) == Due(commands, wanted) + if IsDue(last, wanted) then [last] else []
  {
    if commands == [] {
      assert [last][1..] == [];
    } else {
      DueAppend(commands[1..], last, wanted);
      assert (commands + [last])[1..] == commands[1..] + [last];
    }
  }

  predicate RisesBelow(places: seq<nat>, bound: nat) {
    && (forall k :: 0 <= k < |places| ==> places[k] < bound)
    && (forall j, k :: 0 <= j < k < |places| ==> places[j] < places[k])
  }

  lemma {:induction false} PlacesRise(commands: seq<Command>, wanted: set<CommandKind>)
    ensures RisesBelow(DuePlaces(commands, wanted), |commands|)
  {
    if commands != [] {
      var n := |commands| - 1;
      PlacesRise(commands[..n], wanted);
      OneMorePlace(DuePlaces(commands[..n], wanted), n);
    }
  }

  lemma OneMorePlace(places: seq<nat>, n: nat)
    requires RisesBelow(places, n)
    ensures RisesBelow(places + [n], n + 1) && RisesBelow(places + [], n + 1)
  {
  }

  lemma {:induction false} PlacesAreDue(commands: seq<Command>, wanted: set<CommandKind>)
    ensures forall i: nat :: i in DuePlaces(commands, wanted) <==> i < |commands| && IsDue(commands[i], wanted)
  {
    hide IsDue;
    if commands != [] {
      PlacesAreDue(commands[..|commands| - 1], wanted);
    }
  }

  lemma {:induction false} DueAtPlaces(commands: seq<Command>, wanted: set<CommandKind>)
    ensures var (due, places) := (Due(commands, wanted), DuePlaces(commands, wanted));
      |places| == |due| && forall k :: 0 <= k < |due| ==> places[k] < |commands| && due[k] == commands[places[k]]
  {
    hide IsDue, Due;
    if commands == [] {
      NoneDue(wanted);
    } else {
      var n := |commands| - 1;
      DueAtPlaces(commands[..n], wanted);
      DueAppend(commands[..n], commands[n], wanted);
      assert commands == commands[..n] + [commands[n]];
    }
  }

  lemma NoneDue(wanted: set<CommandKind>)
    ensures Due([], wanted) == []
  {
  }

  /** The commands handed out are the due ones, each once and in queue order. */
  lemma DueInOrder(commands: seq<Command>, wanted: set<CommandKind>)
    ensures var (due, places) := (Due(commands, wanted), DuePlaces(commands, wanted));
      && |places| == |due| && (forall k :: 0 <= k < |due| ==> places[k] < |commands| && due[k] == commands[places[k]])
      && (forall j, k :: 0 <= j < k < |places| ==> places[j] < places[k])
      && (forall i: nat :: i in places <==> i < |commands| && IsDue(commands[i], wanted))
  {
    hide IsDue, Due, DuePlaces;
    PlacesRise(commands, wanted);
    PlacesAreDue(commands, wanted);
    DueAtPlaces(commands, wanted);
  }

  /** Due is the subsequence of the due commands. */
  lemma DueIsFilter(commands: seq<Command>, wanted: set<CommandKind>)
    ensures forall c :: c in Due(commands, wanted) <==> c in commands && IsDue(c, wanted)
  {
    var due, places := Due(commands, wanted), DuePlaces(commands, wanted);
    DueInOrder(commands, wanted);
    forall c | c in commands && IsDue(c, wanted) ensures c in due {
      var i: nat :| i < |commands| && commands[i] == c;
      assert i in places;
      var k :| 0 <= k < |places| && places[k] == i;
      assert due[k] == c;
    }
    forall c | c in due ensures c in commands && IsDue(c, wanted) {
      var k :| 0 <= k < |due| && due[k] == c;
      assert places[k] in places;
    }
  }

  lemma DueIsIn(commands: seq<Command>, wanted: set<CommandKind>, command: Command)
    requires command in Due(commands, wanted)
    ensures command in commands && IsDue(command, wanted)
  {
    DueIsFilter(commands, wanted);
  }

  function Consumes(due: seq<Command>, now: int): seq<JobEvent> {
    seq(|due|, i requires 0 <= i < |due| => Consume(due[i].id, now))
  }

  lemma StampOneMore(commands: seq<Command>, due: seq<Command>, now: int)
    requires due != []
    ensures var n := |due| - 1;
      Stamped(StampedAll(commands, Ids(due[..n]), now), due[n].id, now) == StampedAll(commands, Ids(due), now)
  {
    assert Ids(due) == Ids(due[..|due| - 1]) + {due[|due| - 1].id};
  }

  lemma {:induction false} ConsumeAll(log: Log, due: seq<Command>, now: int, at: int)
    requires Fold(log).Some?
    ensures var job := Fold(log).value;
      Fold(Append(log, Consumes(due, now), at))
      == Some(job.(commands := StampedAll(job.commands, Ids(due), now),
                   updatedAt := if due == [] then job.updatedAt else at))
  {
    hide Stamped, Fold;
    var job := Fold(log).value;
    if due == [] {
      assert StampedAll(job.commands, Ids(due), now) == job.commands;
    } else {
      hide StampedAll, Ids;
      var n := |due| - 1;
      ConsumeAll(log, due[..n], now, at);
      assert Consumes(due, now)[..n] == Consumes(due[..n], now);
      FoldAppend(Append(log, Consumes(due[..n], now), at), Receipt(Consume(due[n].id, now), at));
      StampOneMore(job.commands, due, now);
    }
  }

  ghost predicate DistinctIds(commands: seq<Command>) {
    forall i, j :: 0 <= i < j < |commands| ==> commands[i].id != commands[j].id
  }

  /** One call stamps exactly the unconsumed commands of the wanted kinds and touches nothing else of the job; it
      hands them out in queue order (Due). */
  lemma TakeCommandsStampsTheDue(log: Log, wanted: set<CommandKind>, now: int, at: int)
    requires Fold(log).Some? && DistinctIds(Fold(log).value.commands)
    ensures var before := Fold(log).value; var after := Fold(Apply(log, TakeCommands(wanted, now), at));
      && after.Some?
      && after.value == before.(commands := after.value.commands, updatedAt := after.value.updatedAt)
      && |after.value.commands| == |before.commands|
      && forall i :: 0 <= i < |before.commands| ==>
           after.value.commands[i]
           == if IsDue(before.commands[i], wanted) then before.commands[i].(consumedAt := Some(now))
              else before.commands[i]
  {
    ConsumeAll(log, Due(Fold(log).value.commands, wanted), now, at);
    DueIds(Fold(log).value.commands, wanted);
  }

  lemma DueIds(commands: seq<Command>, wanted: set<CommandKind>)
    requires DistinctIds(commands)
    ensures forall i :: 0 <= i < |commands| ==>
      (commands[i].id in Ids(Due(commands, wanted)) <==> IsDue(commands[i], wanted))
  {
    var due := Due(commands, wanted);
    DueIsFilter(commands, wanted);
    forall i | 0 <= i < |commands| ensures commands[i].id in Ids(due) <==> IsDue(commands[i], wanted) {
      if IsDue(commands[i], wanted) {
        assert commands[i] in due;
      }
      if commands[i].id in Ids(due) {
        var k :| 0 <= k < |due| && due[k].id == commands[i].id;
        assert due[k] in due;
        var m :| 0 <= m < |commands| && commands[m] == due[k];
      }
    }
  }

  /** Asking again at once returns the same commands when the clock stamped them 0 and nothing otherwise: 0 reads as
      "not consumed". */
  lemma RedeliveredExactlyAtZero(log: Log, wanted: set<CommandKind>, now: int, at: int)
    requires Fold(log).Some? && DistinctIds(Fold(log).value.commands)
    ensures Fold(Apply(log, TakeCommands(wanted, now), at)).Some?
    ensures var (first, again) := (Due(Fold(log).value.commands, wanted),
                                   Due(Fold(Apply(log, TakeCommands(wanted, now), at)).value.commands, wanted));
      if now == 0 then Ids(again) == Ids(first) else again == []
  {
    hide Fold, Apply;
    TakeCommandsStampsTheDue(log, wanted, now, at);
    StampedAgain(Fold(log).value.commands, Fold(Apply(log, TakeCommands(wanted, now), at)).value.commands, wanted, now);
  }

  lemma StampedAgain(before: seq<Command>, after: seq<Command>, wanted: set<CommandKind>, now: int)
    requires |after| == |before|
    requires forall i :: 0 <= i < |before| ==>
      after[i] == if IsDue(before[i], wanted) then before[i].(consumedAt := Some(now)) else before[i]
    ensures var (first, again) := (Due(before, wanted), Due(after, wanted));
      if now == 0 then Ids(again) == Ids(first) else again == []
  {
    hide Due;
    var first, again := Due(before, wanted), Due(after, wanted);
    DueIsFilter(before, wanted);
    DueIsFilter(after, wanted);
    assert again == [] || again[0] in again;
    forall c | c in again ensures now == 0 && c.id in Ids(first) {
      var i :| 0 <= i < |after| && after[i] == c;
      assert before[i] in first;
    }
    if now == 0 {
      forall c | c in first ensures c.id in Ids(again) {
        var i :| 0 <= i < |before| && before[i] == c;
        assert after[i] in again;
      }
    }
  }

  // ---------------------------------------------------------------------------------------------------------------
  // Whole runs

  /** The commands the step hands out. */
  function DeliveredAt(steps: seq<Step>, i: nat): seq<Command>
    requires i < |steps|
  {
    var job := Fold(Run(steps[..i]));
    if steps[i].op.TakeCommands? && job.Some? then Due(job.value.commands, steps[i].op.wanted) else []
  }

  /** Generated command ids are never reused. */
  ghost predicate FreshCommandIds(steps: seq<Step>) {
    forall a, b :: 0 <= a < b < |steps| && steps[a].op.AddedCommand().Some? && steps[b].op.AddedCommand().Some? ==>
      steps[a].op.AddedCommand().value.id != steps[b].op.AddedCommand().value.id
  }

  predicate Adds(op: Op, id: string) {
    op.AddedCommand().Some? && op.AddedCommand().value.id == id
  }

  ghost predicate Settled(log: Log, id: string) {
    Fold(log).Some? ==> forall c :: c in Fold(log).value.commands && c.id == id ==> !c.Unconsumed()
  }

  lemma AdvanceCommands(job: Job, event: JobEvent, ts: int)
    requires !event.Enqueue? && !event.IsCommandRecord()
    ensures Advance(job, event, ts).commands == job.commands
  {
  }

  /** The commands after one operation on a job: its own command is added, or the due ones are stamped. */
  function CommandsNext(commands: seq<Command>, op: Op): seq<Command> {
    if op.TakeCommands? then StampedAll(commands, Ids(Due(commands, op.wanted)), op.now)
    else if op.AddedCommand().Some? then commands + [op.AddedCommand().value]
    else commands
  }

  lemma CommandsAfter(log: Log, op: Op, at: int)
    requires Good(log)
    ensures Fold(log).None? && Fold(Apply(log, op, at)).Some? ==> Fold(Apply(log, op, at)).value.commands == []
    ensures Fold(log).Some? ==> Fold(Apply(log, op, at)).Some?
    ensures Fold(log).Some? ==> Fold(Apply(log, op, at)).value.commands == CommandsNext(Fold(log).value.commands, op)
  {
    var events := Events(Fold(log), op);
    if Fold(log).None? {
      if op.Create? {
        AppendOne(log, events[0], at);
        FoldAppend(log, Receipt(events[0], at));
      }
    } else if op.Create? {
    } else if op.TakeCommands? {
      ConsumeAll(log, Due(Fold(log).value.commands, op.wanted), op.now, at);
    } else {
      EventsShape(Fold(log).value, op);
      if |events| > 0 {
        OneEvent(log, events[0], at);
      }
      if |events| == 1 {
        assert events == [events[0]];
      } else if |events| == 2 {
        var middle := log + [Receipt(events[0], at)];
        assert events[..1] == [events[0]];
        FoldAppend(middle, Receipt(events[1], at));
        AdvanceCommands(Fold(middle).value, events[1], at);
      }
    }
  }

  /** Apart from consuming, an operation emits at most two events, and its command comes first. */
  lemma EventsShape(job: Job, op: Op)
    requires !op.Create? && !op.TakeCommands?
    ensures var events := EventsOn(job, op);
      && |events| <= 2
      && (|events| > 0 ==> !events[0].Enqueue? && !events[0].Consume?)
      && (|events| > 1 ==> !events[1].Enqueue? && !events[1].IsCommandRecord())
      && (op.AddedCommand().Some? ==> |events| > 0 && events[0] == QueueCommand(op.AddedCommand().value))
      && (op.AddedCommand().None? ==> |events| <= 1 && (|events| > 0 ==> !events[0].QueueCommand?))
  {
  }

  lemma OneEvent(log: Log, event: JobEvent, at: int)
    requires Fold(log).Some? && !event.Enqueue? && !event.Consume?
    ensures Append(log, [event], at) == log + [Receipt(event, at)]
    ensures Fold(log + [Receipt(event, at)]).Some?
    ensures Fold(log + [Receipt(event, at)]).value.commands
      == Fold(log).value.commands + if event.QueueCommand? then [event.command] else []
  {
    AppendOne(log, event, at);
    FoldAppend(log, Receipt(event, at));
    if !event.QueueCommand? {
      AdvanceCommands(Fold(log).value, event, at);
    }
  }

  lemma SettledStep(log: Log, op: Op, at: int, id: string)
    requires Good(log) && Settled(log, id) && !Adds(op, id)
    ensures Settled(Apply(log, op, at), id)
  {
    hide Good, Fold, Apply, Due, StampedAll;
    CommandsAfter(log, op, at);
    if Fold(log).Some? && op.TakeCommands? {
      NotDue(Fold(log).value.commands, op.wanted, op.now, id);
    }
  }

  /** Stamping the due commands leaves those of a settled id as they are. */
  lemma NotDue(commands: seq<Command>, wanted: set<CommandKind>, now: int, id: string)
    requires forall c :: c in commands && c.id == id ==> !c.Unconsumed()
    ensures forall c :: c in StampedAll(commands, Ids(Due(commands, wanted)), now) && c.id == id ==> !c.Unconsumed()
  {
    var due := Due(commands, wanted);
    var after := StampedAll(commands, Ids(due), now);
    DueIsFilter(commands, wanted);
    assert id !in Ids(due) by {
      forall k | 0 <= k < |due| ensures due[k].id != id {
        assert due[k] in due;
      }
    }
    forall i | 0 <= i < |after| && after[i].id == id ensures !after[i].Unconsumed() {
      assert commands[i] in commands && after[i] == commands[i];
    }
  }

  lemma {:induction false} SettledStays(steps: seq<Step>, i: nat, id: string)
    requires i <= |steps| && Settled(Run(steps[..i]), id)
    requires forall k :: i <= k < |steps| ==> !Adds(steps[k].op, id)
    ensures Settled(Run(steps), id)
  {
    hide Settled, Adds, Good, Apply;
    if i == |steps| {
      assert steps[..i] == steps;
    } else {
      var n := |steps| - 1;
      assert steps[..n][..i] == steps[..i];
      SettledStays(steps[..n], i, id);
      RunGood(steps[..n]);
      SettledStep(Run(steps[..n]), steps[n].op, steps[n].at, id);
    }
  }

  /** Every command of a run's job was added by one of its steps. */
  lemma {:induction false} AddedBy(steps: seq<Step>, command: Command) returns (k: nat)
    requires Fold(Run(steps)).Some? && command in Fold(Run(steps)).value.commands
    ensures k < |steps| && Adds(steps[k].op, command.id)
  {
    hide Good, Fold, Due, Apply;
    NoStream();
    var n := |steps| - 1;
    var log, op := Run(steps[..n]), steps[n].op;
    RunGood(steps[..n]);
    CommandsAfter(log, op, steps[n].at);
    k := n;
    if op.TakeCommands? {
      var commands := Fold(Run(steps)).value.commands;
      var i :| 0 <= i < |commands| && commands[i] == command;
      k := AddedBy(steps[..n], Fold(log).value.commands[i]);
    } else if !Adds(op, command.id) {
      k := AddedBy(steps[..n], command);
    }
  }

  /** A run with fresh command ids never gives a job two commands with the same id. */
  lemma {:induction false} RunDistinctIds(steps: seq<Step>)
    requires FreshCommandIds(steps) && Fold(Run(steps)).Some?
    ensures DistinctIds(Fold(Run(steps)).value.commands)
  {
    hide Good, Fold, Apply, Due;
    NoStream();
    if steps != [] {
      var n := |steps| - 1;
      var log, op := Run(steps[..n]), steps[n].op;
      RunGood(steps[..n]);
      CommandsAfter(log, op, steps[n].at);
      if Fold(log).Some? {
        RunDistinctIds(steps[..n]);
        var commands := Fold(log).value.commands;
        forall i | 0 <= i < |commands| && op.AddedCommand().Some? ensures commands[i].id != op.AddedCommand().value.id {
          var k := AddedBy(steps[..n], commands[i]);
        }
      }
    }
  }

  lemma NoStream()
    ensures Fold([]).None?
  {
  }

  /** In any run with fresh command ids one call stamps exactly the due commands of the job and nothing else. */
  lemma RunStampsTheDue(steps: seq<Step>, wanted: set<CommandKind>, now: int, at: int)
    requires FreshCommandIds(steps) && Fold(Run(steps)).Some?
    ensures var before := Fold(Run(steps)).value; var after := Fold(Apply(Run(steps), TakeCommands(wanted, now), at));
      && after.Some?
      && after.value == before.(commands := after.value.commands, updatedAt := after.value.updatedAt)
      && |after.value.commands| == |before.commands|
      && forall i :: 0 <= i < |before.commands| ==>
           after.value.commands[i]
           == if IsDue(before.commands[i], wanted) then before.commands[i].(consumedAt := Some(now))
              else before.commands[i]
  {
    RunDistinctIds(steps);
    TakeCommandsStampsTheDue(Run(steps), wanted, now, at);
  }

  /** Every call to consume commands reads a nonzero clock. */
  ghost predicate NonzeroTimes(steps: seq<Step>) {
    forall i :: 0 <= i < |steps| && steps[i].op.TakeCommands? ==> steps[i].op.now != 0
  }

  lemma PendingAppend(log: Log, receipt: Receipt)
    requires ConsumesPending(log, 0) && (Fold(log).Some? ==> TakesPending(Fold(log).value, receipt.event))
    ensures ConsumesPending(log + [receipt], 0)
  {
    hide Fold, TakesPending;
    var longer := log + [receipt];
    forall k | 0 <= k < |longer| && Fold(longer[..k]).Some?
      ensures TakesPending(Fold(longer[..k]).value, longer[k].event)
    {
      assert longer[..k] == log[..k];
      if k == |log| { assert log[..k] == log; }
    }
  }

  /** Each of the due commands is unconsumed, and the ones stamped before it are others. */
  predicate AreDue(commands: seq<Command>, due: seq<Command>) {
    && (forall k :: 0 <= k < |due| ==> due[k] in commands && due[k].Unconsumed())
    && forall j, k :: 0 <= j < k < |due| ==> due[j].id != due[k].id
  }

  lemma DueAreDue(commands: seq<Command>, wanted: set<CommandKind>)
    requires DistinctIds(commands)
    ensures AreDue(commands, Due(commands, wanted))
  {
    hide Due;
    var due, places := Due(commands, wanted), DuePlaces(commands, wanted);
    DueInOrder(commands, wanted);
    forall k | 0 <= k < |due| ensures due[k] in commands && due[k].Unconsumed() {
      assert places[k] in places;
    }
    forall j, k | 0 <= j < k < |due| ensures due[j].id != due[k].id {
      assert places[j] < places[k];
    }
  }

  /** A command not stamped yet is still there to be taken. */
  lemma NextIsPending(job: Job, commands: seq<Command>, due: seq<Command>, now: int)
    requires due != [] && now != 0 && AreDue(commands, due)
    requires job.commands == StampedAll(commands, Ids(due[..|due| - 1]), now)
    ensures TakesPending(job, Consume(due[|due| - 1].id, now))
  {
    var n := |due| - 1;
    var i :| 0 <= i < |commands| && commands[i] == due[n];
    assert due[n].id !in Ids(due[..n]);
    assert job.commands[i] == commands[i];
  }

  lemma {:induction false} TakingPending(log: Log, due: seq<Command>, now: int, at: int)
    requires Fold(log).Some? && ConsumesPending(log, 0) && now != 0 && AreDue(Fold(log).value.commands, due)
    ensures ConsumesPending(Append(log, Consumes(due, now), at), 0)
  {
    hide Fold, StampedAll, Ids, TakesPending, ConsumesPending;
    if due != [] {
      var n, events := |due| - 1, Consumes(due, now);
      TakingPending(log, due[..n], now, at);
      ConsumeAll(log, due[..n], now, at);
      assert events[..n] == Consumes(due[..n], now) && events[n] == Consume(due[n].id, now);
      var before := Append(log, Consumes(due[..n], now), at);
      NextIsPending(Fold(before).value, Fold(log).value.commands, due, now);
      PendingAppend(before, Receipt(events[n], at));
    }
  }

  lemma AppliedPending(log: Log, op: Op, at: int)
    requires ConsumesPending(log, 0) && (op.TakeCommands? ==> op.now != 0)
    requires Fold(log).Some? ==> DistinctIds(Fold(log).value.commands)
    ensures ConsumesPending(Apply(log, op, at), 0)
  {
    hide Fold, ConsumesPending, Due;
    if Fold(log).Some? && op.TakeCommands? {
      DueAreDue(Fold(log).value.commands, op.wanted);
      TakingPending(log, Due(Fold(log).value.commands, op.wanted), op.now, at);
    } else {
      hide EventsOn;
      var events := Events(Fold(log), op);
      if Fold(log).Some? && !op.Create? {
        EventsShape(Fold(log).value, op);
      }
      AppendTwo(log, events, at);
      if events != [] {
        PendingAppend(log, Receipt(events[0], at));
        if |events| == 2 {
          PendingAppend(log + [Receipt(events[0], at)], Receipt(events[1], at));
        }
      }
    }
  }

  /** A run with fresh command ids that reads no clock of 0 never consumes a command that is consumed already. */
  lemma {:induction false} RunTakesPending(steps: seq<Step>)
    requires FreshCommandIds(steps) && NonzeroTimes(steps)
    ensures ConsumesPending(Run(steps), 0)
  {
    hide Fold, Apply, ConsumesPending;
    if steps == [] {
      NothingConsumed([], 0);
    } else {
      var n := |steps| - 1;
      RunTakesPending(steps[..n]);
      if Fold(Run(steps[..n])).Some? {
        RunDistinctIds(steps[..n]);
      }
      AppliedPending(Run(steps[..n]), steps[n].op, steps[n].at);
    }
  }

  /** So in such a run a copy taken of a terminal job is out of date exactly when a command record came after it. */
  lemma RunTerminalCopy(steps: seq<Step>, n: nat)
    requires FreshCommandIds(steps) && NonzeroTimes(steps) && 0 < n <= |Run(steps)|
    requires Fold(Run(steps)[..n]).Some? && Fold(Run(steps)[..n]).value.Terminal()
    ensures Fold(Run(steps)) == Fold(Run(steps)[..n]) <==> NoCommandRecords(Run(steps), n)
  {
    RunTakesPending(steps);
    RunGood(steps);
    TerminalCopy(Run(steps), n);
  }

  /** Over any run with fresh command ids, a command handed out at a nonzero time is never handed out again. */
  lemma DeliveredAtMostOnce(steps: seq<Step>, i: nat, j: nat, first: Command, second: Command)
    requires i < j < |steps| && FreshCommandIds(steps)
    requires first in DeliveredAt(steps, i) && second in DeliveredAt(steps, j)
    requires steps[i].op.now != 0
    ensures first.id != second.id
  {
    hide Good, Fold, Due, Apply;
    var before := Run(steps[..i]);
    RunGood(steps[..i]);
    DueIsIn(Fold(before).value.commands, steps[i].op.wanted, first);
    DueIsIn(Fold(Run(steps[..j])).value.commands, steps[j].op.wanted, second);
    SettledByDelivery(before, steps[i].op, steps[i].at, first);
    assert steps[..i + 1][..i] == steps[..i];
    assert steps[..j][..i + 1] == steps[..i + 1];
    var k := AddedBy(steps[..i], first);
    SettledStays(steps[..j], i + 1, first.id);
  }

  lemma SettledByDelivery(log: Log, op: Op, at: int, delivered: Command)
    requires Good(log) && op.TakeCommands? && op.now != 0 && Fold(log).Some?
    requires delivered in Due(Fold(log).value.commands, op.wanted)
    ensures Settled(Apply(log, op, at), delivered.id)
  {
    CommandsAfter(log, op, at);
    assert delivered.id in Ids(Due(Fold(log).value.commands, op.wanted));
  }
}
