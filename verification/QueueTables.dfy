/** The store the queues work on, read off the tables: its streams are the job streams among the receipts and its rows
    the rows of the job projection. Emitting on the tables does to both what LiveQueue's Emit does. */
module QueueTables {
  import opened Basics
  import opened Jobs
  import opened JobProtocol
  import opened JobProjection
  import opened QueueSpec
  import opened QueueSteps
  import opened ReceiptStore

  /** The single-job streams of the streams table. */
  function JobIdsIn(db: Db): set<JobId> {
    set stream | stream in db.streams && stream.JobStream? :: stream.id
  }

  function LogOf(db: Db, id: JobId): Log {
    ToLog(Read(db, JobStream(id)))
  }

  function LogsOf(db: Db): Logs {
    map id | id in JobIdsIn(db) :: LogOf(db, id)
  }

  lemma JobIdsAre(db: Db, id: JobId)
    ensures id in JobIdsIn(db) <==> JobStream(id) in db.streams
  {
  }

  lemma ToLogAppend(rows: seq<Row>, row: Row)
    requires row.body.JobBody?
    ensures ToLog(rows + [row]) == ToLog(rows) + [Receipt(row.body.event, row.ts)]
  {
    assert (rows + [row])[..|rows|] == rows;
  }

  /** An accepted append of a job event extends that job's stream by one receipt. */
  lemma AppendedLogs(db: Db, offer: Offer, expectedPrev: Option<Hash>)
    requires StoreSound(db) && OutcomeOf(db, offer, expectedPrev) == Appended
    requires offer.stream.JobStream? && offer.body.JobBody?
    ensures LogsOf(AppendTo(db, offer, expectedPrev))
      == Extended(LogsOf(db), offer.stream.id, offer.body.event, offer.ts)
  {
    hide ToLog, ReceiptStore.Rows, Collides;
    var after, id, row := AppendTo(db, offer, expectedPrev), offer.stream.id, NextRow(db, offer);
    ToLogAppend(Read(db, offer.stream), row);
    forall other
      ensures LogOf(after, other)
        == if other == id then LogOf(db, id) + [Receipt(offer.body.event, offer.ts)] else LogOf(db, other)
    {
      RowsAppend(db.receipts, row, JobStream(other));
      assert Read(db, JobStream(other)) + [] == Read(db, JobStream(other));
    }
    JobIdsAre(db, id);
    if id !in JobIdsIn(db) {
      NoLog(db, id);
    }
    forall other ensures other in JobIdsIn(after) <==> other in JobIdsIn(db) || other == id {
      JobIdsAre(db, other);
      JobIdsAre(after, other);
    }
  }

  lemma NoLog(db: Db, id: JobId)
    requires StoreSound(db) && JobStream(id) !in db.streams
    ensures LogOf(db, id) == []
  {
    assert StreamSound(db, JobStream(id));
  }

  /** The projection half of an emit leaves the rows that the queue's own store has after it. */
  lemma EmittedRows(rows: JobProjection.Rows, pending: PendingTable, after: JobProjection.Rows,
                    afterPending: PendingTable, db: Db, offer: Offer, expectedPrev: Option<Hash>)
    requires StoreSound(db) && OutcomeOf(db, offer, expectedPrev) == Appended
    requires offer.stream.JobStream? && offer.body.JobBody? && !offer.body.event.Heartbeat?
    requires StreamSynced(rows, pending, after, afterPending, AppendTo(db, offer, expectedPrev).receipts, offer.stream,
                          true)
    requires JobAt(LogsOf(AppendTo(db, offer, expectedPrev)), offer.stream.id).Some?
    ensures var record := JobAt(LogsOf(AppendTo(db, offer, expectedPrev)), offer.stream.id).value;
      after == RowsAfter(rows, true, offer.stream.id, offer.body.event, record)
  {
    hide Insertable, Replaced, ToLog, ReceiptStore.Rows, Collides, StoreSound;
    ReplayedIs(AppendTo(db, offer, expectedPrev), offer.stream.id);
  }

  /** So does the heartbeat's two-column update. */
  lemma HeartbeatRowsAre(rows: JobProjection.Rows, db: Db, id: JobId, event: JobEvent)
    requires event.Heartbeat? && JobAt(LogsOf(db), id).Some?
    ensures HeartbeatRows(rows, id, Replayed(db.receipts, id))
      == RowsAfter(rows, true, id, event, JobAt(LogsOf(db), id).value)
  {
    ReplayedIs(db, id);
  }

  lemma ReplayedIs(db: Db, id: JobId)
    ensures id in LogsOf(db) ==> Replayed(db.receipts, id) == JobAt(LogsOf(db), id)
  {
  }

  /** Streams the queue may have written are good, each under its own id. */
  lemma ReplayableLogs(db: Db)
    requires StoreSound(db) && Replayable(db.receipts)
    ensures GoodLogs(LogsOf(db))
    ensures forall id :: Replayed(db.receipts, id).Some? <==> id in LogsOf(db)
  {
    hide Good, ReceiptStore.Rows, ToLog;
    forall id ensures id in LogsOf(db) ==> GoodLog(id, LogsOf(db)[id])
      ensures Replayed(db.receipts, id).Some? <==> id in LogsOf(db)
    {
      JobIdsAre(db, id);
      assert Good(LogOf(db, id)) && Replayed(db.receipts, id) == Fold(LogOf(db, id));
      GoodFold(LogOf(db, id));
      if id in JobIdsIn(db) {
        SomeLog(db, id);
      } else {
        NoLog(db, id);
      }
    }
  }

  lemma SomeLog(db: Db, id: JobId)
    requires StoreSound(db) && Replayable(db.receipts) && JobStream(id) in db.streams
    ensures LogOf(db, id) != []
  {
    hide Good;
    var rows := Read(db, JobStream(id));
    assert StreamSound(db, JobStream(id));
    RowIn(db.receipts, JobStream(id), |rows| - 1);
    assert rows == rows[..|rows| - 1] + [rows[|rows| - 1]];
    ToLogAppend(rows[..|rows| - 1], rows[|rows| - 1]);
  }

  /** Exact tables are rows that show every stored job as it stands: what the queues' store asks of its rows. */
  lemma ExactRowsAreShown(rows: JobProjection.Rows, pending: PendingTable, db: Db)
    requires StoreSound(db) && Replayable(db.receipts)
    requires forall id :: Exact(rows, pending, db.receipts, id)
    requires forall id :: id in LogsOf(db) && Fold(LogsOf(db)[id]).Some? ==> Named(Fold(LogsOf(db)[id]).value)
    ensures GoodLogs(LogsOf(db)) && rows == JobsIn(LogsOf(db)) && RowsShown(LogsOf(db), rows, true)
  {
    hide Good, ReceiptStore.Rows, ToLog, PendingExact, Named, Replayable, StoreSound, LogsOf;
    ReplayableLogs(db);
    var jobs := JobsIn(LogsOf(db));
    forall id ensures (id in rows <==> id in jobs) && (id in rows ==> rows[id] == jobs[id]) {
      assert Exact(rows, pending, db.receipts, id);
      ReplayedIs(db, id);
    }
    assert rows == jobs;
  }
}
