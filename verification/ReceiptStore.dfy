/** The append-only receipt store of src/adapters/sqlite.ts and the tables its transaction keeps beside the receipts:
    stream heads, the branches of src/modules/branch-meta.ts and the change log. */
module ReceiptStore {
  import opened Basics
  import opened Jobs

  type Hash = string

  datatype StreamName =
    | JobStream(id: JobId)         // jobs/<id>
    | NestedJobStream(path: string) // jobs/<path with a slash, or nothing>
    | BranchMetaStream             // __meta/branches
    | OtherStream(name: string)

  datatype Branch = Branch(name: string, parent: Option<string>, forkAt: Option<int>, createdAt: int)

  datatype Body = JobBody(event: JobEvent) | BranchUpsert(branch: Branch) | OtherBody(json: string)

  /** A receipt offered to the store. */
  datatype Offer = Offer(id: string, ts: int, stream: StreamName, prev: Option<Hash>, body: Body, hash: Hash)

  datatype Row = Row(globalSeq: int, streamSeq: int, id: string, ts: int, stream: StreamName, prev: Option<Hash>,
                     body: Body, hash: Hash)

  datatype Head = Head(headHash: Hash, receiptCount: int)

  datatype Change = Change(globalSeq: int, stream: StreamName)

  datatype Db = Db(receipts: seq<Row>, streams: map<StreamName, Head>, branches: map<string, Branch>,
                   changeLog: seq<Change>, nextSeq: int)

  datatype Outcome = Appended | HeadMoved | Duplicate

  const EMPTY := Db([], map[], map[], [], 1)

  // ---------------------------------------------------------------------------------------------------------------
  // Reading

  /** The receipts of a stream, in the order they were stored. */
  function Rows(receipts: seq<Row>, stream: StreamName): seq<Row> {
    if receipts == [] then []
    else
      var last := receipts[|receipts| - 1];
      Rows(receipts[..|receipts| - 1], stream) + if last.stream == stream then [last] else []
  }

  function Read(db: Db, stream: StreamName): seq<Row> {
    Rows(db.receipts, stream)
  }

  function Take(db: Db, stream: StreamName, n: int): seq<Row> {
    var rows := Read(db, stream);
    rows[..Max(0, Min(n, |rows|))]
  }

  function Count(db: Db, stream: StreamName): int {
    if stream in db.streams then db.streams[stream].receiptCount else 0
  }

  function HeadHash(db: Db, stream: StreamName): Option<Hash> {
    if stream in db.streams then Some(db.streams[stream].headHash) else None
  }

  /** The version string, count and head hash; None for an unknown stream. */
  function Version(db: Db, stream: StreamName): Option<Head> {
    if stream in db.streams then Some(db.streams[stream]) else None
  }

  /** The last receipt by stream sequence. */
  function HeadRow(db: Db, stream: StreamName): Option<Row> {
    var rows := Read(db, stream);
    if rows == [] then None else Some(rows[|rows| - 1])
  }

  /** The reducer of the branch-meta module over its stream. */
  function FoldBranches(rows: seq<Row>): map<string, Branch> {
    if rows == [] then map[]
    else
      var before := FoldBranches(rows[..|rows| - 1]);
      match rows[|rows| - 1].body
      case BranchUpsert(branch) => before[branch.name := branch]
      case _ => before
  }

  // ---------------------------------------------------------------------------------------------------------------
  // Appending

  /** The hash the head must have: `expectedPrev ?? r.prev`. */
  function PhysicalPrev(offer: Offer, expectedPrev: Option<Hash>): Option<Hash> {
    if expectedPrev.Some? then expectedPrev else offer.prev
  }

  /** The unique indexes on the hash and on (stream, receipt id). */
  predicate Collides(db: Db, offer: Offer) {
    exists i :: 0 <= i < |db.receipts|
      && (db.receipts[i].hash == offer.hash || (db.receipts[i].stream == offer.stream && db.receipts[i].id == offer.id))
  }

  function OutcomeOf(db: Db, offer: Offer, expectedPrev: Option<Hash>): Outcome {
    if HeadHash(db, offer.stream) != PhysicalPrev(offer, expectedPrev) then HeadMoved
    else if Collides(db, offer) then Duplicate
    else Appended
  }

  function NextRow(db: Db, offer: Offer): Row {
    Row(db.nextSeq, Count(db, offer.stream) + 1, offer.id, offer.ts, offer.stream, offer.prev, offer.body, offer.hash)
  }

  /** The tables after an accepted append; a refused one changes nothing. */
  function AppendTo(db: Db, offer: Offer, expectedPrev: Option<Hash>): Db {
    if OutcomeOf(db, offer, expectedPrev) != Appended then db
    else
      var row := NextRow(db, offer);
      Db(db.receipts + [row],
         db.streams[offer.stream := Head(row.hash, row.streamSeq)],
         if offer.stream == BranchMetaStream && offer.body.BranchUpsert? then
           db.branches[offer.body.branch.name := offer.body.branch]
         else db.branches,
         db.changeLog + [Change(row.globalSeq, row.stream)],
         db.nextSeq + 1)
  }

  // ---------------------------------------------------------------------------------------------------------------
  // What every store looks like

  /** Stream sequence numbers are 1, 2, 3, ... and the streams table holds their count and the last hash. */
  predicate StreamSound(db: Db, stream: StreamName) {
    var rows := Read(db, stream);
    && (forall k :: 0 <= k < |rows| ==> rows[k].streamSeq == k + 1 && rows[k].stream == stream)
    && (stream in db.streams <==> rows != [])
    && (rows != [] ==> db.streams[stream] == Head(rows[|rows| - 1].hash, |rows|))
  }

  ghost predicate HashesUnique(receipts: seq<Row>) {
    forall i, j :: 0 <= i < j < |receipts| ==> receipts[i].hash != receipts[j].hash
  }

  /** No stream has two receipts under one id. */
  ghost predicate IdsUnique(receipts: seq<Row>) {
    forall i, j :: 0 <= i < j < |receipts| ==>
      receipts[i].stream != receipts[j].stream || receipts[i].id != receipts[j].id
  }

  /** One change-log entry per receipt, under the same rising global number. */
  predicate LogFollows(db: Db) {
    && 1 <= db.nextSeq && |db.changeLog| == |db.receipts|
    && (forall i :: 0 <= i < |db.receipts| ==>
          1 <= db.receipts[i].globalSeq < db.nextSeq
          && db.changeLog[i] == Change(db.receipts[i].globalSeq, db.receipts[i].stream))
    && (forall i, j :: 0 <= i < j < |db.receipts| ==> db.receipts[i].globalSeq < db.receipts[j].globalSeq)
  }

  ghost predicate StoreSound(db: Db) {
    && (forall stream :: StreamSound(db, stream))
    && HashesUnique(db.receipts) && IdsUnique(db.receipts)
    && LogFollows(db)
    && db.branches == FoldBranches(Read(db, BranchMetaStream))
  }

  lemma RowsAppend(receipts: seq<Row>, row: Row, stream: StreamName)
    ensures Rows(receipts + [row], stream) == Rows(receipts, stream) + if row.stream == stream then [row] else []
  {
    assert (receipts + [row])[..|receipts|] == receipts;
  }

  /** Every append, accepted or refused, keeps the tables sound: the branches table stays the fold of its stream. */
  lemma AppendKeepsSound(db: Db, offer: Offer, expectedPrev: Option<Hash>)
    requires StoreSound(db)
    ensures StoreSound(AppendTo(db, offer, expectedPrev))
  {
    hide StreamSound, HashesUnique, IdsUnique, LogFollows, FoldBranches, Rows;
    var after := AppendTo(db, offer, expectedPrev);
    if OutcomeOf(db, offer, expectedPrev) == Appended {
      forall stream ensures StreamSound(after, stream) {
        AppendedStream(db, offer, expectedPrev, stream);
      }
      AppendedLog(db, offer, expectedPrev);
      BranchesFollow(db, offer, expectedPrev);
    }
  }

  lemma AppendedStream(db: Db, offer: Offer, expectedPrev: Option<Hash>, stream: StreamName)
    requires StreamSound(db, stream) && StreamSound(db, offer.stream)
    requires OutcomeOf(db, offer, expectedPrev) == Appended
    ensures StreamSound(AppendTo(db, offer, expectedPrev), stream)
  {
    hide Rows, Collides;
    RowsAppend(db.receipts, NextRow(db, offer), stream);
  }

  lemma AppendedLog(db: Db, offer: Offer, expectedPrev: Option<Hash>)
    requires HashesUnique(db.receipts) && IdsUnique(db.receipts) && LogFollows(db)
    requires OutcomeOf(db, offer, expectedPrev) == Appended
    ensures var after := AppendTo(db, offer, expectedPrev);
      HashesUnique(after.receipts) && IdsUnique(after.receipts) && LogFollows(after)
  {
  }

  lemma BranchesFollow(db: Db, offer: Offer, expectedPrev: Option<Hash>)
    requires db.branches == FoldBranches(Read(db, BranchMetaStream))
    ensures var after := AppendTo(db, offer, expectedPrev);
      after.branches == FoldBranches(Read(after, BranchMetaStream))
  {
    hide Rows, FoldBranches, Collides;
    var row, meta := NextRow(db, offer), Read(db, BranchMetaStream);
    RowsAppend(db.receipts, row, BranchMetaStream);
    FoldBranch(meta, row);
    assert meta + [] == meta;
  }

  lemma FoldBranch(rows: seq<Row>, row: Row)
    ensures FoldBranches(rows + [row])
      == if row.body.BranchUpsert? then FoldBranches(rows)[row.body.branch.name := row.body.branch]
         else FoldBranches(rows)
  {
    assert (rows + [row])[..|rows|] == rows;
  }

  /** count, head and take agree with read. */
  lemma QueriesAgree(db: Db, stream: StreamName, n: int)
    requires StoreSound(db)
    ensures Count(db, stream) == |Read(db, stream)|
    ensures HeadRow(db, stream).Some? <==> HeadHash(db, stream).Some?
    ensures HeadRow(db, stream).Some? ==>
      && Some(HeadRow(db, stream).value.hash) == HeadHash(db, stream)
      && HeadRow(db, stream).value.streamSeq == Count(db, stream)
    ensures Take(db, stream, n) <= Read(db, stream)
    ensures |Take(db, stream, n)| == Max(0, Min(n, Count(db, stream)))
  {
    assert StreamSound(db, stream);
  }

  // ---------------------------------------------------------------------------------------------------------------
  // Runs of writers

  datatype Attempt = Attempt(offer: Offer, expectedPrev: Option<Hash>)
  {
    /** The caller hands no expected hash, or the one the receipt was built on. */
    predicate Plain() {
      expectedPrev.None? || expectedPrev == offer.prev
    }
  }

  function AppendsFrom(db: Db, attempts: seq<Attempt>): Db {
    if attempts == [] then db
    else
      var last := attempts[|attempts| - 1];
      AppendTo(AppendsFrom(db, attempts[..|attempts| - 1]), last.offer, last.expectedPrev)
  }

  function RunAppends(attempts: seq<Attempt>): Db {
    AppendsFrom(EMPTY, attempts)
  }

  predicate Succeeds(attempts: seq<Attempt>, i: nat)
    requires i < |attempts|
  {
    OutcomeOf(RunAppends(attempts[..i]), attempts[i].offer, attempts[i].expectedPrev) == Appended
  }

  lemma {:induction false} AppendsSound(db: Db, attempts: seq<Attempt>)
    requires StoreSound(db)
    ensures StoreSound(AppendsFrom(db, attempts))
  {
    if attempts != [] {
      var n := |attempts| - 1;
      AppendsSound(db, attempts[..n]);
      AppendKeepsSound(AppendsFrom(db, attempts[..n]), attempts[n].offer, attempts[n].expectedPrev);
    }
  }

  /** The same for the tables after any appends by any writers, from the empty store on. */
  lemma RunSound(attempts: seq<Attempt>)
    ensures StoreSound(RunAppends(attempts))
  {
    AppendsSound(EMPTY, attempts);
  }

  lemma {:induction false} StreamsContinue(db: Db, attempts: seq<Attempt>, stream: StreamName)
    ensures Read(db, stream) <= Read(AppendsFrom(db, attempts), stream)
  {
    if attempts != [] {
      var n := |attempts| - 1;
      var before := AppendsFrom(db, attempts[..n]);
      StreamsContinue(db, attempts[..n], stream);
      RowsAppend(before.receipts, NextRow(before, attempts[n].offer), stream);
    }
  }

  /** The head hash of a stream tells whether it got a receipt. */
  lemma HeadMovesWithReceipts(db: Db, attempts: seq<Attempt>, stream: StreamName)
    requires StoreSound(db)
    ensures var after := AppendsFrom(db, attempts);
      HeadHash(after, stream) == HeadHash(db, stream) <==> Read(after, stream) == Read(db, stream)
  {
    hide Rows, FoldBranches, LogFollows, AppendsFrom;
    var after := AppendsFrom(db, attempts);
    AppendsSound(db, attempts);
    StreamsContinue(db, attempts, stream);
    assert StreamSound(db, stream) && StreamSound(after, stream);
    var rows, longer := Read(db, stream), Read(after, stream);
    if rows != [] && |rows| < |longer| {
      RowsAreReceipts(after.receipts, stream, |rows| - 1, |longer| - 1);
      assert longer[|rows| - 1] == rows[|rows| - 1];
    }
  }

  lemma {:induction false} StreamsOnlyGrow(attempts: seq<Attempt>, i: nat, stream: StreamName)
    requires i <= |attempts|
    ensures Read(RunAppends(attempts[..i]), stream) <= Read(RunAppends(attempts), stream)
  {
    if i == |attempts| {
      assert attempts[..i] == attempts;
    } else {
      var n := |attempts| - 1;
      assert attempts[..n][..i] == attempts[..i];
      StreamsOnlyGrow(attempts[..n], i, stream);
      var db := RunAppends(attempts[..n]);
      RowsAppend(db.receipts, NextRow(db, attempts[n].offer), stream);
    }
  }

  /** While the version of a stream stays the same so do its receipts: a snapshot taken under it is still right. */
  lemma VersionTellsChange(attempts: seq<Attempt>, i: nat, stream: StreamName)
    requires i <= |attempts|
    ensures Version(RunAppends(attempts[..i]), stream) == Version(RunAppends(attempts), stream)
      <==> Read(RunAppends(attempts[..i]), stream) == Read(RunAppends(attempts), stream)
  {
    StreamsOnlyGrow(attempts, i, stream);
    RunSound(attempts);
    RunSound(attempts[..i]);
    assert StreamSound(RunAppends(attempts), stream) && StreamSound(RunAppends(attempts[..i]), stream);
  }

  function HashBefore(rows: seq<Row>, k: nat): Option<Hash>
    requires k <= |rows|
  {
    if k == 0 then None else Some(rows[k - 1].hash)
  }

  predicate Linked(rows: seq<Row>) {
    forall k :: 0 <= k < |rows| ==> rows[k].prev == HashBefore(rows, k)
  }

  /** Under any interleaving of plain writers each receipt names the hash before it. */
  lemma {:induction false} ChainsAreLinked(attempts: seq<Attempt>, stream: StreamName)
    requires forall i :: 0 <= i < |attempts| ==> attempts[i].Plain()
    ensures Linked(Read(RunAppends(attempts), stream))
  {
    if attempts != [] {
      var n := |attempts| - 1;
      var db, last := RunAppends(attempts[..n]), attempts[n];
      ChainsAreLinked(attempts[..n], stream);
      RunSound(attempts[..n]);
      assert StreamSound(db, stream);
      RowsAppend(db.receipts, NextRow(db, last.offer), stream);
      assert last.Plain();
      var rows := Read(db, stream);
      var after := Read(AppendTo(db, last.offer, last.expectedPrev), stream);
      assert after == rows || after == rows + [NextRow(db, last.offer)];
      if after != rows {
        assert HeadHash(db, stream) == last.offer.prev;
        LinkedAppend(rows, NextRow(db, last.offer));
      }
    }
  }

  lemma LinkedAppend(rows: seq<Row>, row: Row)
    requires Linked(rows) && row.prev == HashBefore(rows, |rows|)
    ensures Linked(rows + [row])
  {
    var longer := rows + [row];
    forall k | 0 <= k < |longer| ensures longer[k].prev == HashBefore(longer, k) {
      assert HashBefore(longer, k) == HashBefore(rows, k);
    }
  }

  /** The head has moved past `prev` for good: it is an inner receipt of the stream, or there is a first receipt. */
  ghost predicate Passed(db: Db, stream: StreamName, prev: Option<Hash>) {
    var rows := Read(db, stream);
    if prev.None? then rows != []
    else exists k :: 0 <= k < |rows| - 1 && rows[k].hash == prev.value
  }

  lemma {:induction false} RowsAreReceipts(receipts: seq<Row>, stream: StreamName, k: nat, m: nat)
    requires k < m < |Rows(receipts, stream)| && HashesUnique(receipts)
    ensures Rows(receipts, stream)[k].hash != Rows(receipts, stream)[m].hash
  {
    var n := |receipts| - 1;
    var shorter := receipts[..n];
    assert HashesUnique(shorter);
    if m < |Rows(shorter, stream)| {
      RowsAreReceipts(shorter, stream, k, m);
    } else {
      RowIn(shorter, stream, k);
    }
  }

  lemma {:induction false} RowIn(receipts: seq<Row>, stream: StreamName, k: nat)
    requires k < |Rows(receipts, stream)|
    ensures Rows(receipts, stream)[k] in receipts
  {
    var n := |receipts| - 1;
    if k < |Rows(receipts[..n], stream)| {
      RowIn(receipts[..n], stream, k);
    }
  }

  lemma PassedIsNotHead(db: Db, stream: StreamName, prev: Option<Hash>)
    requires StoreSound(db) && Passed(db, stream, prev)
    ensures HeadHash(db, stream) != prev
  {
    assert StreamSound(db, stream);
    if prev.Some? {
      var rows := Read(db, stream);
      var k :| 0 <= k < |rows| - 1 && rows[k].hash == prev.value;
      RowsAreReceipts(db.receipts, stream, k, |rows| - 1);
    }
  }

  lemma PassedStays(db: Db, stream: StreamName, prev: Option<Hash>, attempt: Attempt)
    requires Passed(db, stream, prev)
    ensures Passed(AppendTo(db, attempt.offer, attempt.expectedPrev), stream, prev)
  {
    RowsAppend(db.receipts, NextRow(db, attempt.offer), stream);
    var rows, after := Read(db, stream), Read(AppendTo(db, attempt.offer, attempt.expectedPrev), stream);
    if prev.Some? {
      var k :| 0 <= k < |rows| - 1 && rows[k].hash == prev.value;
      assert after[k] == rows[k];
    }
  }

  lemma SuccessPasses(db: Db, attempt: Attempt)
    requires StoreSound(db) && OutcomeOf(db, attempt.offer, attempt.expectedPrev) == Appended
    ensures Passed(AppendTo(db, attempt.offer, attempt.expectedPrev), attempt.offer.stream,
                   PhysicalPrev(attempt.offer, attempt.expectedPrev))
  {
    var stream := attempt.offer.stream;
    RowsAppend(db.receipts, NextRow(db, attempt.offer), stream);
    assert StreamSound(db, stream);
    var rows, after := Read(db, stream), Read(AppendTo(db, attempt.offer, attempt.expectedPrev), stream);
    if rows != [] {
      assert after[|rows| - 1] == rows[|rows| - 1];
    }
  }

  lemma {:induction false} PassedAtEnd(attempts: seq<Attempt>, i: nat, stream: StreamName, prev: Option<Hash>)
    requires i <= |attempts| && Passed(RunAppends(attempts[..i]), stream, prev)
    ensures Passed(RunAppends(attempts), stream, prev)
  {
    if i == |attempts| {
      assert attempts[..i] == attempts;
    } else {
      var n := |attempts| - 1;
      assert attempts[..n][..i] == attempts[..i];
      PassedAtEnd(attempts[..n], i, stream, prev);
      PassedStays(RunAppends(attempts[..n]), stream, prev, attempts[n]);
    }
  }

  /** Of all appends to a stream that were prepared on the same head, at most one ever succeeds. */
  lemma OneWinnerPerHead(attempts: seq<Attempt>, i: nat, j: nat)
    requires i < j < |attempts| && attempts[i].offer.stream == attempts[j].offer.stream
    requires PhysicalPrev(attempts[i].offer, attempts[i].expectedPrev)
      == PhysicalPrev(attempts[j].offer, attempts[j].expectedPrev)
    ensures !Succeeds(attempts, i) || !Succeeds(attempts, j)
  {
    if Succeeds(attempts, i) {
      var prev, stream := PhysicalPrev(attempts[i].offer, attempts[i].expectedPrev), attempts[i].offer.stream;
      RunSound(attempts[..i]);
      SuccessPasses(RunAppends(attempts[..i]), attempts[i]);
      assert attempts[..i + 1][..i] == attempts[..i];
      assert attempts[..j][..i + 1] == attempts[..i + 1];
      PassedAtEnd(attempts[..j], i + 1, stream, prev);
      RunSound(attempts[..j]);
      PassedIsNotHead(RunAppends(attempts[..j]), stream, prev);
    }
  }

  /** A fork builds its first receipt on the last hash of its parent's prefix and appends it with no expected hash
      (packages/core/src/runtime.ts:269-285). The store then compares that hash with the fork's own empty head, so the
      append gets past the head check exactly when the prefix is empty, whatever the parent's chain is. */
  lemma FirstAppendOnPrefix(db: Db, prefix: seq<Row>, offer: Offer)
    requires StoreSound(db) && Read(db, offer.stream) == []
    requires offer.prev == HashBefore(prefix, |prefix|)
    ensures OutcomeOf(db, offer, None) != HeadMoved <==> prefix == []
  {
    assert StreamSound(db, offer.stream);
  }

  /** For a stream forked at a position of a stored parent: exactly when that position is 0. */
  lemma FirstAppendOnFork(db: Db, parent: StreamName, at: nat, offer: Offer)
    requires StoreSound(db) && Read(db, offer.stream) == [] && at <= |Read(db, parent)|
    requires offer.prev == HashBefore(Read(db, parent), at)
    ensures OutcomeOf(db, offer, None) != HeadMoved <==> at == 0
  {
    FirstAppendOnPrefix(db, Read(db, parent)[..at], offer);
  }

  /** A store where it fails: one receipt in the parent, a fork after it. */
  lemma ForkRefused(first: Offer, second: Offer)
    requires first.prev == None && first.stream != second.stream && second.prev == Some(first.hash)
    ensures var db := AppendTo(EMPTY, first, None);
      && StoreSound(db) && |Read(db, first.stream)| == 1 && Read(db, second.stream) == []
      && second.prev == HashBefore(Read(db, first.stream), 1)
      && OutcomeOf(db, second, None) == HeadMoved && AppendTo(db, second, None) == db
  {
    var db := AppendTo(EMPTY, first, None);
    AppendKeepsSound(EMPTY, first, None);
    RowsAppend([], NextRow(EMPTY, first), first.stream);
    RowsAppend([], NextRow(EMPTY, first), second.stream);
    assert StreamSound(db, second.stream);
    FirstAppendOnFork(db, first.stream, 1, second);
  }
}
