/** The job projection of src/db/projectors.ts:144-264: one row per job and one row per unconsumed command, brought up
    to date stream by stream, and equal to a full replay of the streams after every sync. */
module JobProjection {
  import opened Basics
  import opened Jobs
  import opened JobProtocol
  import opened ReceiptStore
  import opened ChangeFeed
  import opened CommandDelivery
  import opened LiveReceipts

  datatype Pending = Pending(jobId: JobId, command: Command)

  type Rows = map<JobId, Job>

  type PendingTable = map<string, Pending>

  // ---------------------------------------------------------------------------------------------------------------
  // Replay

  /** The job events of a stream's receipts. */
  function ToLog(rows: seq<Row>): Log {
    if rows == [] then []
    else
      var last := rows[|rows| - 1];
      ToLog(rows[..|rows| - 1]) + if last.body.JobBody? then [Receipt(last.body.event, last.ts)] else []
  }

  /** The job as a full replay of its stream finds it. */
  function Replayed(receipts: seq<Row>, id: JobId): Option<Job> {
    Fold(ToLog(ReceiptStore.Rows(receipts, JobStream(id))))
  }

  /** Every job stream holds what the queue writes: job events under the stream's own id, in an order that replays
      without throwing. */
  ghost predicate Replayable(receipts: seq<Row>) {
    && (forall row :: row in receipts && row.stream.JobStream? ==> row.body.JobBody?)
    && (forall id :: Good(ToLog(ReceiptStore.Rows(receipts, JobStream(id)))))
    && (forall id :: Replayed(receipts, id).Some? ==> Replayed(receipts, id).value.id == id)
  }

  function CommandsOf(job: Option<Job>): seq<Command> {
    if job.Some? then job.value.commands else []
  }

  // ---------------------------------------------------------------------------------------------------------------
  // What the tables should say of a job

  ghost predicate RowExact(rows: Rows, id: JobId, job: Option<Job>) {
    if job.Some? then id in rows && rows[id] == job.value else id !in rows
  }

  /** The pending rows of the job are exactly its unconsumed commands. */
  ghost predicate PendingExact(pending: PendingTable, id: JobId, commands: seq<Command>) {
    && (forall c :: c in commands && c.Unconsumed() ==> c.id in pending && pending[c.id] == Pending(id, c))
    && (forall key :: key in pending && pending[key].jobId == id ==>
          pending[key].command in commands && pending[key].command.Unconsumed() && pending[key].command.id == key)
  }

  ghost predicate Exact(rows: Rows, pending: PendingTable, receipts: seq<Row>, id: JobId) {
    RowExact(rows, id, Replayed(receipts, id)) && PendingExact(pending, id, CommandsOf(Replayed(receipts, id)))
  }

  /** DELETE ... WHERE job_id = id. */
  function Without(pending: PendingTable, id: JobId): PendingTable {
    map key | key in pending && pending[key].jobId != id :: pending[key]
  }

  function Unconsumed(commands: seq<Command>): seq<Command> {
    if commands == [] then []
    else (if commands[0].Unconsumed() then [commands[0]] else []) + Unconsumed(commands[1..])
  }

  lemma {:induction false} UnconsumedIsFilter(commands: seq<Command>)
    ensures forall c :: c in Unconsumed(commands) <==> c in commands && c.Unconsumed()
  {
    if commands != [] {
      UnconsumedIsFilter(commands[1..]);
      assert commands == [commands[0]] + commands[1..];
    }
  }

  /** The primary key on the command id allows the insertion. */
  ghost predicate Insertable(others: PendingTable, commands: seq<Command>) {
    (forall c :: c in commands ==> c.id !in others) && DistinctIds(commands)
  }

  /** No command id is used twice, within a job or across jobs, and the pending rows are of commands that exist. */
  ghost predicate NoClash(pending: PendingTable, receipts: seq<Row>) {
    && (forall id :: DistinctIds(CommandsOf(Replayed(receipts, id))))
    && (forall a, b, c, d ::
          a != b && c in CommandsOf(Replayed(receipts, a)) && d in CommandsOf(Replayed(receipts, b)) ==>
          c.id != d.id)
    && (forall key :: key in pending ==> IsCommandOf(receipts, pending[key].jobId, key))
  }

  predicate IsCommandOf(receipts: seq<Row>, id: JobId, key: string) {
    exists c :: c in CommandsOf(Replayed(receipts, id)) && c.id == key
  }

  // ---------------------------------------------------------------------------------------------------------------
  // What a sync goes through

  /** The greatest global sequence number, 0 without receipts. */
  function LatestGlobalSeq(receipts: seq<Row>): int {
    if receipts == [] then 0
    else Max(LatestGlobalSeq(receipts[..|receipts| - 1]), receipts[|receipts| - 1].globalSeq)
  }

  /** The stream has a receipt later than the offset. */
  ghost predicate ChangedSince(db: Db, offset: int, stream: StreamName) {
    UnderJobs(stream) && exists change :: change in db.changeLog && change.stream == stream && offset < change.globalSeq
  }

  ghost predicate NoneChanged(db: Db, offset: int) {
    forall stream :: !ChangedSince(db, offset, stream)
  }

  /** The streams a sync goes through: the changed ones, or at the very start, without a change log, all of them. */
  ghost predicate NeedsSync(db: Db, offset: int, stream: StreamName) {
    if NoneChanged(db, offset) then offset == 0 && UnderJobs(stream) && stream in db.streams
    else ChangedSince(db, offset, stream)
  }

  lemma {:induction false} LatestIsMax(receipts: seq<Row>)
    ensures forall row :: row in receipts ==> row.globalSeq <= LatestGlobalSeq(receipts)
    ensures 0 <= LatestGlobalSeq(receipts)
  {
    if receipts != [] {
      var n := |receipts| - 1;
      LatestIsMax(receipts[..n]);
      assert receipts == receipts[..n] + [receipts[n]];
    }
  }

  /** A stream that is in the streams table has a receipt, hence a change-log entry. */
  lemma HeadHasChange(db: Db, stream: StreamName)
    requires StoreSound(db) && stream in db.streams
    ensures exists change :: change in db.changeLog && change.stream == stream && 0 < change.globalSeq
  {
    assert StreamSound(db, stream);
    var rows := Read(db, stream);
    RowIn(db.receipts, stream, 0);
    var i :| 0 <= i < |db.receipts| && db.receipts[i] == rows[0];
    assert db.changeLog[i] in db.changeLog && db.changeLog[i].stream == stream;
  }

  /** With the offset at the last receipt nothing is due: a second sync finds nothing to do. */
  lemma NothingDueAtLatest(db: Db, stream: StreamName)
    requires StoreSound(db)
    ensures !NeedsSync(db, LatestGlobalSeq(db.receipts), stream)
  {
    var offset := LatestGlobalSeq(db.receipts);
    LatestIsMax(db.receipts);
    forall other ensures !ChangedSince(db, offset, other) {
      forall change | change in db.changeLog ensures change.globalSeq <= offset {
        var i :| 0 <= i < |db.changeLog| && db.changeLog[i] == change;
        assert db.receipts[i] in db.receipts;
      }
    }
    if offset == 0 && UnderJobs(stream) && stream in db.streams {
      HeadHasChange(db, stream);
      assert ChangedSince(db, 0, stream);
    }
  }

  /** In a sound store a sync goes through exactly the job streams changed since the offset. */
  lemma DueIsChanged(db: Db, offset: int, stream: StreamName)
    requires StoreSound(db) && 0 <= offset
    ensures NeedsSync(db, offset, stream) <==> ChangedSince(db, offset, stream)
  {
    if offset == 0 && UnderJobs(stream) && stream in db.streams {
      HeadHasChange(db, stream);
    }
  }

  /** The feed lists the changed streams. */
  lemma FeedIsChanged(log: seq<Change>, after: int, feed: seq<Change>, stream: StreamName)
    requires Rising(log) && IsFeed(log, after, feed)
    ensures (exists change :: change in feed && change.stream == stream)
      <==> UnderJobs(stream) && exists change :: change in log && change.stream == stream && after < change.globalSeq
  {
    if change :| change in feed && change.stream == stream {
      assert IsLatest(log, after, change);
    }
    if UnderJobs(stream) && exists change :: change in log && change.stream == stream && after < change.globalSeq {
      var change :| change in log && change.stream == stream && after < change.globalSeq;
      var last := LastOf(log, change);
      assert IsLatest(log, after, last);
    }
  }

  lemma {:induction false} LastOf(log: seq<Change>, change: Change) returns (last: Change)
    requires change in log
    ensures last in log && last.stream == change.stream && change.globalSeq <= last.globalSeq
    ensures forall other :: other in log && other.stream == change.stream ==> other.globalSeq <= last.globalSeq
  {
    var n := |log| - 1;
    assert log == log[..n] + [log[n]];
    last := change;
    if exists other :: other in log[..n] && other.stream == change.stream {
      var other :| other in log[..n] && other.stream == change.stream;
      last := LastOf(log[..n], if change in log[..n] then change else other);
    }
    if log[n].stream == change.stream && last.globalSeq < log[n].globalSeq {
      last := log[n];
    }
  }

  // ---------------------------------------------------------------------------------------------------------------
  // One stream

  lemma {:induction false} UnconsumedDistinct(commands: seq<Command>)
    requires DistinctIds(commands)
    ensures DistinctIds(Unconsumed(commands))
  {
    if commands != [] {
      var rest := Unconsumed(commands[1..]);
      UnconsumedDistinct(commands[1..]);
      UnconsumedIsFilter(commands[1..]);
      forall j | 0 <= j < |rest| ensures rest[j].id != commands[0].id {
        assert rest[j] in commands[1..];
      }
    }
  }

  lemma NoClashInserts(pending: PendingTable, receipts: seq<Row>, id: JobId)
    requires NoClash(pending, receipts)
    ensures Insertable(Without(pending, id), Unconsumed(CommandsOf(Replayed(receipts, id))))
  {
    var commands := CommandsOf(Replayed(receipts, id));
    UnconsumedDistinct(commands);
    UnconsumedIsFilter(commands);
    forall c | c in commands ensures c.id !in Without(pending, id) {
      if c.id in pending {
        assert IsCommandOf(receipts, pending[c.id].jobId, c.id);
      }
    }
  }

  /** The pending rows of every other job stay; those of the job are its unconsumed commands. */
  ghost predicate Replaced(before: PendingTable, after: PendingTable, id: JobId, commands: seq<Command>) {
    Without(after, id) == Without(before, id) && PendingExact(after, id, commands)
  }

  lemma ReplacedKeeps(before: PendingTable, after: PendingTable, id: JobId, commands: seq<Command>,
                      other: JobId, theirs: seq<Command>)
    requires Replaced(before, after, id, commands) && other != id && PendingExact(before, other, theirs)
    ensures PendingExact(after, other, theirs)
  {
    forall c | c in theirs && c.Unconsumed() ensures c.id in after && after[c.id] == Pending(other, c) {
      assert c.id in Without(before, id);
    }
    forall key | key in after && after[key].jobId == other
      ensures after[key].command in theirs && after[key].command.Unconsumed() && after[key].command.id == key
    {
      assert key in Without(after, id);
    }
  }

  lemma ReplacedNoClash(before: PendingTable, after: PendingTable, receipts: seq<Row>, id: JobId)
    requires Replaced(before, after, id, CommandsOf(Replayed(receipts, id))) && NoClash(before, receipts)
    ensures NoClash(after, receipts)
  {
    forall key | key in after ensures IsCommandOf(receipts, after[key].jobId, key) {
      if after[key].jobId == id {
        assert after[key].command in CommandsOf(Replayed(receipts, id));
      } else {
        assert key in Without(after, id);
        assert after[key] == before[key];
      }
    }
  }

  function PutAll(others: PendingTable, id: JobId, commands: seq<Command>): PendingTable {
    if commands == [] then others
    else
      var last := commands[|commands| - 1];
      PutAll(others, id, commands[..|commands| - 1])[last.id := Pending(id, last)]
  }

  /** The table has the other rows and one for each command. */
  ghost predicate HoldsBoth(others: PendingTable, id: JobId, commands: seq<Command>, table: PendingTable) {
    && table.Keys == others.Keys + Ids(commands)
    && (forall key :: key in others ==> table[key] == others[key])
    && (forall k :: 0 <= k < |commands| ==> table[commands[k].id] == Pending(id, commands[k]))
  }

  lemma HoldsOneMore(others: PendingTable, id: JobId, commands: seq<Command>, table: PendingTable)
    requires commands != [] && Insertable(others, commands)
    requires HoldsBoth(others, id, commands[..|commands| - 1], table)
    ensures var last := commands[|commands| - 1];
      HoldsBoth(others, id, commands, table[last.id := Pending(id, last)])
  {
    var n := |commands| - 1;
    assert Ids(commands) == Ids(commands[..n]) + {commands[n].id};
    assert commands[n] in commands;
  }

  lemma InsertableShorter(others: PendingTable, commands: seq<Command>)
    requires commands != [] && Insertable(others, commands)
    ensures Insertable(others, commands[..|commands| - 1])
  {
  }

  lemma {:induction false} PutAllHolds(others: PendingTable, id: JobId, commands: seq<Command>)
    requires Insertable(others, commands)
    ensures HoldsBoth(others, id, commands, PutAll(others, id, commands))
  {
    if commands != [] {
      hide Insertable, HoldsBoth;
      InsertableShorter(others, commands);
      PutAllHolds(others, id, commands[..|commands| - 1]);
      HoldsOneMore(others, id, commands, PutAll(others, id, commands[..|commands| - 1]));
    }
  }

  lemma PutAllKeys(others: PendingTable, id: JobId, commands: seq<Command>)
    requires Insertable(others, commands)
    ensures PutAll(others, id, commands).Keys == others.Keys + Ids(commands)
    ensures forall key :: key in others ==> PutAll(others, id, commands)[key] == others[key]
    ensures forall c :: c in commands ==> PutAll(others, id, commands)[c.id] == Pending(id, c)
  {
    hide Insertable, PutAll;
    PutAllHolds(others, id, commands);
  }

  lemma PutAllOwn(others: PendingTable, id: JobId, commands: seq<Command>)
    requires Insertable(others, commands) && forall key :: key in others ==> others[key].jobId != id
    ensures Without(PutAll(others, id, commands), id) == others
    ensures forall key :: key in PutAll(others, id, commands) && key !in others ==>
      PutAll(others, id, commands)[key].command in commands && PutAll(others, id, commands)[key].command.id == key
  {
    var table := PutAll(others, id, commands);
    PutAllKeys(others, id, commands);
    forall key | key in table && key !in others
      ensures table[key].command in commands && table[key].command.id == key && table[key].jobId == id
    {
      var k :| 0 <= k < |commands| && commands[k].id == key;
      assert commands[k] in commands;
    }
  }

  lemma PutAllExact(others: PendingTable, id: JobId, commands: seq<Command>)
    requires Insertable(others, Unconsumed(commands)) && forall key :: key in others ==> others[key].jobId != id
    ensures PendingExact(PutAll(others, id, Unconsumed(commands)), id, commands)
  {
    hide Unconsumed, PutAll;
    UnconsumedIsFilter(commands);
    PutAllKeys(others, id, Unconsumed(commands));
    PutAllOwn(others, id, Unconsumed(commands));
  }

  lemma NoneInsertable(others: PendingTable)
    ensures Insertable(others, [])
  {
  }

  lemma NotInsertable(others: PendingTable, commands: seq<Command>, i: nat)
    requires i < |commands| && commands[i].id in others.Keys + Ids(commands[..i])
    ensures !Insertable(others, commands)
  {
    assert commands[i] in commands;
  }

  lemma StillInsertable(others: PendingTable, commands: seq<Command>, next: Command)
    requires Insertable(others, commands) && next.id !in others.Keys + Ids(commands)
    ensures Insertable(others, commands + [next])
  {
  }

  /** One stream's rows are rewritten from its replay, unless the primary key of the pending table forbids it. */
  ghost predicate StreamSynced(rows0: Rows, pending0: PendingTable, rows: Rows, pending: PendingTable,
                               receipts: seq<Row>, stream: StreamName, ok: bool) {
    if !stream.JobStream? then ok && rows == rows0 && pending == pending0
    else
      var job := Replayed(receipts, stream.id);
      && (ok <==> Insertable(Without(pending0, stream.id), Unconsumed(CommandsOf(job))))
      && (if ok then
            && rows == (if job.Some? then rows0[stream.id := job.value] else rows0 - {stream.id})
            && Replaced(pending0, pending, stream.id, CommandsOf(job))
          else rows == rows0 && pending == pending0)
  }

  /** Syncing one stream makes its job exact, keeps every other exact job exact, and fails only on a clash. */
  lemma SyncedOne(rows0: Rows, pending0: PendingTable, rows: Rows, pending: PendingTable, receipts: seq<Row>,
                  stream: StreamName, ok: bool)
    requires StreamSynced(rows0, pending0, rows, pending, receipts, stream, ok)
    ensures forall id :: Exact(rows0, pending0, receipts, id) ==> Exact(rows, pending, receipts, id)
    ensures ok && stream.JobStream? ==> Exact(rows, pending, receipts, stream.id)
    ensures NoClash(pending0, receipts) ==> ok && NoClash(pending, receipts)
  {
    if stream.JobStream? {
      var job := Replayed(receipts, stream.id);
      if NoClash(pending0, receipts) {
        NoClashInserts(pending0, receipts, stream.id);
        ReplacedNoClash(pending0, pending, receipts, stream.id);
      }
      if ok {
        forall id | id != stream.id && Exact(rows0, pending0, receipts, id) ensures Exact(rows, pending, receipts, id) {
          ReplacedKeeps(pending0, pending, stream.id, CommandsOf(job), id, CommandsOf(Replayed(receipts, id)));
        }
      }
    }
  }

  /** The ids of the single-job streams in a list. */
  function JobIds(streams: seq<StreamName>): seq<JobId> {
    if streams == [] then []
    else (if streams[0].JobStream? then [streams[0].id] else []) + JobIds(streams[1..])
  }

  lemma {:induction false} JobIdsMembers(streams: seq<StreamName>)
    ensures forall id :: id in JobIds(streams) <==> JobStream(id) in streams
  {
    if streams != [] {
      JobIdsMembers(streams[1..]);
      assert streams == [streams[0]] + streams[1..];
    }
  }

  ghost predicate NothingToSync(db: Db, offset: int) {
    forall stream :: !NeedsSync(db, offset, stream)
  }

  /** listStreamsByPrefix("jobs/"). */
  method ListStreams(streams: map<StreamName, Head>) returns (names: seq<StreamName>)
    ensures forall stream :: stream in names <==> stream in streams && UnderJobs(stream)
  {
    names := [];
    var todo := streams.Keys;
    while todo != {}
      invariant todo <= streams.Keys
      invariant forall stream :: stream in names <==> stream in streams && stream !in todo && UnderJobs(stream)
      decreases todo
    {
      var stream :| stream in todo;
      todo := todo - {stream};
      if UnderJobs(stream) {
        names := names + [stream];
      }
    }
  }

  /** The streams a sync goes through. */
  method DueStreams(db: Db, offset: int) returns (streams: seq<StreamName>)
    requires Rising(db.changeLog) && forall change :: change in db.changeLog ==> 1 <= change.globalSeq
    ensures forall stream :: stream in streams <==> NeedsSync(db, offset, stream)
  {
    var changed := ListChangedStreams(db.changeLog, offset);
    forall stream ensures (exists change :: change in changed && change.stream == stream)
      <==> ChangedSince(db, offset, stream) {
      FeedIsChanged(db.changeLog, offset, changed, stream);
    }
    if changed != [] {
      assert ChangedSince(db, offset, changed[0].stream);
      streams := seq(|changed|, i requires 0 <= i < |changed| => changed[i].stream);
      forall change | change in changed ensures change.stream in streams {
        var i :| 0 <= i < |changed| && changed[i] == change;
        assert streams[i] == change.stream;
      }
    } else if offset == 0 {
      streams := ListStreams(db.streams);
    } else {
      streams := [];
    }
  }

  /** The rows of every job whose stream a sync from `since` would pass over equal its replay. */
  ghost predicate ExactUnlessDue(rows: Rows, pending: PendingTable, db: Db, since: int) {
    forall id :: !NeedsSync(db, since, JobStream(id)) ==> Exact(rows, pending, db.receipts, id)
  }

  /** The rows after syncJobProjectionHeartbeat. */
  function HeartbeatRows(rows: Rows, id: JobId, record: Option<Job>): Rows {
    if record.Some? && record.value.leaseUntil.Some? && id in rows then
      rows[id := HeartbeatRow(rows[id], record.value)]
    else rows
  }

  /** After a heartbeat on an exact row the row equals the replay exactly when the job was already running under this
      worker; after the first heartbeat of an attempt the row still says "leased". */
  lemma HeartbeatRowExact(job: Job, worker: string, leaseMs: int, at: int)
    requires JobProtocol.Sound(job) && job.Active()
    ensures HeartbeatRow(job, Advance(job, Heartbeat(worker, leaseMs), at))
      == Advance(job, Heartbeat(worker, leaseMs), at)
      <==> job.status == Running && job.leaseOwner == Some(worker)
  {
  }

  /** The stream of an accepted append is due, wherever the offset stands. */
  lemma AppendedNeedsSync(db: Db, offset: int, offer: Offer, expectedPrev: Option<Hash>)
    requires StoreSound(db) && 0 <= offset <= LatestGlobalSeq(db.receipts) && UnderJobs(offer.stream)
    requires OutcomeOf(db, offer, expectedPrev) == Appended
    ensures NeedsSync(AppendTo(db, offer, expectedPrev), offset, offer.stream)
  {
    var after := AppendTo(db, offer, expectedPrev);
    LatestBelowNext(db.receipts, db.nextSeq);
    assert after.changeLog[|db.changeLog|] in after.changeLog;
    assert ChangedSince(after, offset, offer.stream);
  }

  lemma {:induction false} LatestBelowNext(receipts: seq<Row>, next: int)
    requires 1 <= next && forall i :: 0 <= i < |receipts| ==> receipts[i].globalSeq < next
    ensures LatestGlobalSeq(receipts) < next
  {
    if receipts != [] {
      LatestBelowNext(receipts[..|receipts| - 1], next);
    }
  }

  /** An append makes its own stream due and leaves the replay of every other stream alone. */
  lemma AppendKeepsExact(rows: Rows, pending: PendingTable, db: Db, offset: int, offer: Offer,
                         expectedPrev: Option<Hash>)
    requires StoreSound(db) && 0 <= offset <= LatestGlobalSeq(db.receipts)
    requires ExactUnlessDue(rows, pending, db, offset)
    ensures ExactUnlessDue(rows, pending, AppendTo(db, offer, expectedPrev), offset)
    ensures offset <= LatestGlobalSeq(AppendTo(db, offer, expectedPrev).receipts)
  {
    hide Exact, NeedsSync, StoreSound;
    var after := AppendTo(db, offer, expectedPrev);
    if OutcomeOf(db, offer, expectedPrev) == Appended {
      AppendKeepsSound(db, offer, expectedPrev);
      assert after.receipts[..|db.receipts|] == db.receipts;
      forall id | !NeedsSync(after, offset, JobStream(id)) ensures Exact(rows, pending, after.receipts, id) {
        StillDue(db, offset, offer, expectedPrev, JobStream(id));
        if offer.stream == JobStream(id) {
          AppendedNeedsSync(db, offset, offer, expectedPrev);
        } else {
          RowsAppend(db.receipts, NextRow(db, offer), JobStream(id));
          SameReplay(rows, pending, db.receipts, after.receipts, id);
        }
      }
    }
  }

  lemma SameReplay(rows: Rows, pending: PendingTable, before: seq<Row>, after: seq<Row>, id: JobId)
    requires Exact(rows, pending, before, id)
    requires ReceiptStore.Rows(after, JobStream(id)) == ReceiptStore.Rows(before, JobStream(id))
    ensures Exact(rows, pending, after, id)
  {
  }

  lemma StillDue(db: Db, offset: int, offer: Offer, expectedPrev: Option<Hash>, stream: StreamName)
    requires StoreSound(db) && 0 <= offset && StoreSound(AppendTo(db, offer, expectedPrev))
    ensures NeedsSync(db, offset, stream) ==> NeedsSync(AppendTo(db, offer, expectedPrev), offset, stream)
  {
    var after := AppendTo(db, offer, expectedPrev);
    DueIsChanged(db, offset, stream);
    DueIsChanged(after, offset, stream);
    if change :| change in db.changeLog && change.stream == stream && offset < change.globalSeq {
      assert change in after.changeLog;
    }
  }

  /** At the very start every stored job stream is due, so empty tables are right. */
  lemma EmptyUnlessDue(db: Db)
    requires StoreSound(db)
    ensures ExactUnlessDue(map[], map[], db, 0)
  {
    forall id | !NeedsSync(db, 0, JobStream(id)) ensures Exact(map[], map[], db.receipts, id) {
      DueIsChanged(db, 0, JobStream(id));
      if JobStream(id) in db.streams {
        HeadHasChange(db, JobStream(id));
      }
      assert StreamSound(db, JobStream(id));
    }
  }

  class JobTables {
    const tables: ReceiptTables
    var rows: Rows
    var pending: PendingTable
    var offset: int

    constructor (tables: ReceiptTables)
      ensures this.tables == tables && rows == map[] && pending == map[] && offset == 0
      ensures StoreSound(tables.Tables()) ==> Valid()
    {
      this.tables := tables;
      rows, pending, offset := map[], map[], 0;
      new;
      LatestIsMax(tables.receipts);
      if StoreSound(tables.Tables()) {
        EmptyUnlessDue(tables.Tables());
      }
    }

    /** INSERT of the unconsumed commands into a copy of the table; false when the primary key forbids it. */
    method InsertPending(others: PendingTable, id: JobId, commands: seq<Command>)
      returns (ok: bool, table: PendingTable)
      requires forall key :: key in others ==> others[key].jobId != id
      ensures ok <==> Insertable(others, Unconsumed(commands))
      ensures ok ==> Without(table, id) == others && PendingExact(table, id, commands)
    {
      hide PendingExact, Without, Unconsumed, Insertable, DistinctIds;
      var unsent := Unconsumed(commands);
      table := others;
      NoneInsertable(others);
      assert unsent[..0] == [];
      for i := 0 to |unsent|
        invariant Insertable(others, unsent[..i]) && table == PutAll(others, id, unsent[..i])
      {
        PutAllKeys(others, id, unsent[..i]);
        assert unsent[..i + 1][..i] == unsent[..i];
        if unsent[i].id in table {
          NotInsertable(others, unsent, i);
          return false, table;
        }
        StillInsertable(others, unsent[..i], unsent[i]);
        assert unsent[..i + 1] == unsent[..i] + [unsent[i]];
        table := table[unsent[i].id := Pending(id, unsent[i])];
      }
      assert unsent[..|unsent|] == unsent;
      PutAllOwn(others, id, unsent);
      PutAllExact(others, id, commands);
      ok := true;
    }

    /** syncJobProjectionStream: one transaction, rolled back when the insertion fails. Streams that are not a single
        job's are passed over. */
    method SyncStream(stream: StreamName) returns (ok: bool)
      requires Replayable(tables.receipts)
      modifies `rows, `pending
      ensures StreamSynced(old(rows), old(pending), rows, pending, tables.receipts, stream, ok)
    {
      if !stream.JobStream? {
        return true;
      }
      var id := stream.id;
      var job := Replayed(tables.receipts, id);
      var nextPending := Without(pending, id);
      var nextRows := rows;
      if job.None? {
        nextRows := nextRows - {id};
        ok := true;
      } else {
        nextRows := nextRows[id := job.value];
        ok, nextPending := InsertPending(nextPending, id, job.value.commands);
      }
      if ok {
        rows, pending := nextRows, nextPending;
      }
    }

    ghost predicate ExactSince(since: int)
      reads this, tables
    {
      ExactUnlessDue(rows, pending, tables.Tables(), since)
    }

    /** What every append, single-stream sync, heartbeat and full sync keeps. */
    ghost predicate Valid()
      reads this, tables
    {
      && StoreSound(tables.Tables()) && 0 <= offset <= LatestGlobalSeq(tables.receipts)
      && ExactSince(offset)
    }

    /** An append by any queue: the stream is due from then on. */
    method Append(offer: Offer, expectedPrev: Option<Hash>) returns (outcome: Outcome)
      requires Valid()
      modifies tables
      ensures Valid() && tables.Tables() == AppendTo(old(tables.Tables()), offer, expectedPrev)
      ensures outcome == OutcomeOf(old(tables.Tables()), offer, expectedPrev)
    {
      hide StoreSound, NeedsSync, Exact, AppendTo, OutcomeOf, LatestGlobalSeq;
      AppendKeepsSound(tables.Tables(), offer, expectedPrev);
      AppendKeepsExact(rows, pending, tables.Tables(), offset, offer, expectedPrev);
      outcome := tables.Append(offer, expectedPrev);
    }

    /** The projection half of emitEvent: append, then sync the one stream. */
    method Emit(offer: Offer, expectedPrev: Option<Hash>) returns (outcome: Outcome, ok: bool)
      requires Valid() && Replayable(AppendTo(tables.Tables(), offer, expectedPrev).receipts)
      modifies tables, `rows, `pending
      ensures Valid() && tables.Tables() == AppendTo(old(tables.Tables()), offer, expectedPrev)
      ensures outcome == OutcomeOf(old(tables.Tables()), offer, expectedPrev)
      ensures ok && offer.stream.JobStream? ==> Exact(rows, pending, tables.receipts, offer.stream.id)
      ensures outcome == Appended && NoClash(old(pending), tables.receipts) ==> ok
    {
      hide StoreSound, Exact, NeedsSync, NoClash, StreamSynced, Replayable;
      outcome := Append(offer, expectedPrev);
      if outcome != Appended {
        return outcome, false;
      }
      ok := SyncStream(offer.stream);
      SyncedOne(old(rows), old(pending), rows, pending, tables.receipts, offer.stream, ok);
    }

    /** The heartbeat path: append, then touch two columns of the job's row. The row need not equal the replay
        (HeartbeatRowExact says when it does), but its stream is due, so the next sync replaces it. */
    method EmitHeartbeat(jobId: JobId, offer: Offer, expectedPrev: Option<Hash>) returns (outcome: Outcome)
      requires Valid() && offer.stream == JobStream(jobId)
      modifies tables, `rows
      ensures Valid() && tables.Tables() == AppendTo(old(tables.Tables()), offer, expectedPrev)
      ensures outcome == OutcomeOf(old(tables.Tables()), offer, expectedPrev)
      ensures outcome != Appended ==> rows == old(rows)
      ensures outcome == Appended ==> rows == HeartbeatRows(old(rows), jobId, Replayed(tables.receipts, jobId))
    {
      hide StoreSound, NeedsSync, PendingExact, Replayed;
      outcome := Append(offer, expectedPrev);
      if outcome == Appended {
        AppendedNeedsSync(old(tables.Tables()), offset, offer, expectedPrev);
        var record := Replayed(tables.receipts, jobId);
        if record.Some? && record.value.leaseUntil.Some? && jobId in rows {
          rows := rows[jobId := rows[jobId].(leaseUntil := record.value.leaseUntil,
                                             updatedAt := record.value.updatedAt)];
        }
      }
    }

    /** syncChangedJobProjections, atomic with respect to appends. Given exact tables for every stream that is not due,
        a sync that gets through leaves them exact for every job and moves the offset to the last receipt; one that
        fails leaves the offset, so that the same streams stay due. It gets through when no command id is used twice. */
    method SyncChanged() returns (ok: bool, ids: seq<JobId>)
      requires Rising(tables.changeLog) && forall change :: change in tables.changeLog ==> 1 <= change.globalSeq
      requires Replayable(tables.receipts) && ExactSince(offset)
      modifies this
      ensures old(Valid()) ==> Valid()
      ensures ok ==> forall id :: Exact(rows, pending, tables.receipts, id)
      ensures ok ==> forall id :: id in ids <==> NeedsSync(tables.Tables(), old(offset), JobStream(id))
      ensures ok && ids != [] ==> offset == LatestGlobalSeq(tables.receipts)
      ensures ok && StoreSound(tables.Tables()) ==> forall stream :: !NeedsSync(tables.Tables(), offset, stream)
      ensures !ok ==> offset == old(offset)
      ensures ExactSince(old(offset))
      ensures old(NoClash(pending, tables.receipts)) ==> ok && NoClash(pending, tables.receipts)
      ensures NothingToSync(tables.Tables(), old(offset)) ==> unchanged(this) && ids == []
    {
      hide Exact, NoClash, StreamSynced, StoreSound, NeedsSync, LatestGlobalSeq, Replayable;
      LatestIsMax(tables.receipts);
      ghost var db, since := tables.Tables(), offset;
      var streams := DueStreams(tables.Tables(), offset);
      if streams == [] {
        return true, [];
      }
      assert streams[0] in streams;
      for i := 0 to |streams|
        invariant offset == since && tables.Tables() == db
        invariant forall id :: !NeedsSync(db, since, JobStream(id)) || JobStream(id) in streams[..i] ==>
          Exact(rows, pending, tables.receipts, id)
        invariant old(NoClash(pending, tables.receipts)) ==> NoClash(pending, tables.receipts)
      {
        ghost var rows0, pending0 := rows, pending;
        ok := SyncStream(streams[i]);
        SyncedOne(rows0, pending0, rows, pending, tables.receipts, streams[i], ok);
        assert streams[..i + 1] == streams[..i] + [streams[i]];
        if !ok {
          return false, [];
        }
      }
      assert streams[..|streams|] == streams;
      offset := LatestGlobalSeq(tables.receipts);
      ok, ids := true, JobIds(streams);
      if StoreSound(db) {
        forall stream ensures !NeedsSync(db, offset, stream) {
          NothingDueAtLatest(db, stream);
        }
      }
      JobIdsMembers(streams);
    }
  }
}
