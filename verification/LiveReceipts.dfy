/** The tables of src/adapters/sqlite.ts as the append transaction changes them, one after the other. */
module LiveReceipts {
  import opened Basics
  import opened ReceiptStore

  /** Two receipts have one hash, or one stream and id. */
  predicate Clashes(row: Row, offer: Offer) {
    row.hash == offer.hash || (row.stream == offer.stream && row.id == offer.id)
  }

  lemma CollidesIs(db: Db, offer: Offer)
    ensures Collides(db, offer) <==> exists row :: row in db.receipts && Clashes(row, offer)
  {
    if row :| row in db.receipts && Clashes(row, offer) {
      var i :| 0 <= i < |db.receipts| && db.receipts[i] == row;
    }
    if Collides(db, offer) {
      var i :| 0 <= i < |db.receipts| && Clashes(db.receipts[i], offer);
      assert db.receipts[i] in db.receipts;
    }
  }

  class ReceiptTables {
    var receipts: seq<Row>
    var streams: map<StreamName, Head>
    var branches: map<string, Branch>
    var changeLog: seq<Change>
    var nextSeq: int

    constructor ()
      ensures Tables() == EMPTY
    {
      receipts, streams, branches, changeLog, nextSeq := [], map[], map[], [], 1;
    }

    function Tables(): Db
      reads this
    {
      Db(receipts, streams, branches, changeLog, nextSeq)
    }

    /** append: one transaction; a moved head and a violated unique index roll it back. */
    method Append(offer: Offer, expectedPrev: Option<Hash>) returns (outcome: Outcome)
      modifies this
      ensures outcome == OutcomeOf(old(Tables()), offer, expectedPrev)
      ensures Tables() == AppendTo(old(Tables()), offer, expectedPrev)
      ensures old(StoreSound(Tables())) ==> StoreSound(Tables())
      ensures outcome != Appended ==> unchanged(this)
      ensures outcome == Duplicate ==> exists row :: row in old(receipts) && Clashes(row, offer)
      ensures outcome == Appended ==> forall row :: row in old(receipts) ==> !Clashes(row, offer)
    {
      hide StoreSound, Collides;
      ghost var before := Tables();
      if StoreSound(before) {
        AppendKeepsSound(before, offer, expectedPrev);
      }
      var physicalPrev := if expectedPrev.Some? then expectedPrev else offer.prev;
      var headHash, receiptCount := None, 0;
      if offer.stream in streams {
        headHash, receiptCount := Some(streams[offer.stream].headHash), streams[offer.stream].receiptCount;
      }
      if headHash != physicalPrev {
        return HeadMoved;
      }
      CollidesIs(Tables(), offer);
      if Collides(Tables(), offer) {
        return Duplicate;
      }
      var streamSeq, globalSeq := receiptCount + 1, nextSeq;
      nextSeq := nextSeq + 1;
      receipts := receipts + [Row(globalSeq, streamSeq, offer.id, offer.ts, offer.stream, offer.prev, offer.body,
                                  offer.hash)];
      streams := streams[offer.stream := Head(offer.hash, streamSeq)];
      if offer.stream == BranchMetaStream && offer.body.BranchUpsert? {
        branches := branches[offer.body.branch.name := offer.body.branch];
      }
      changeLog := changeLog + [Change(globalSeq, offer.stream)];
      outcome := Appended;
    }

    /** The branch store's save: an upsert built on the head of the branch-meta stream as it was read before other
        processes appended `between`. Apart from a repeated id or hash it fails exactly when one of those appends
        reached that stream; where it does not fail, the branch reads back as saved. */
    method Save(branch: Branch, id: string, ts: int, hash: Hash, between: seq<Attempt>) returns (outcome: Outcome)
      requires StoreSound(Tables())
      modifies this
      ensures StoreSound(Tables())
      ensures var before := AppendsFrom(old(Tables()), between);
        && (outcome == HeadMoved <==> Read(before, BranchMetaStream) != Read(old(Tables()), BranchMetaStream))
        && (outcome != Appended ==> Tables() == before)
        && (outcome == Appended ==>
              && branches == before.branches[branch.name := branch]
              && Read(Tables(), BranchMetaStream)
                 == Read(before, BranchMetaStream) + [SavedRow(before, branch, id, ts, hash)])
    {
      hide StoreSound, Read, OutcomeOf, AppendTo;
      ghost var start := Tables();
      QueriesAgree(start, BranchMetaStream, 0);
      var head := HeadRow(Tables(), BranchMetaStream);
      var prev := if head.Some? then Some(head.value.hash) else None;
      for i := 0 to |between|
        invariant StoreSound(Tables()) && Tables() == AppendsFrom(start, between[..i])
      {
        assert between[..i + 1][..i] == between[..i];
        var other := Append(between[i].offer, between[i].expectedPrev);
      }
      assert between[..|between|] == between;
      var offer := Offer(id, ts, BranchMetaStream, prev, BranchUpsert(branch), hash);
      HeadMovesWithReceipts(start, between, BranchMetaStream);
      Upserted(Tables(), offer, prev, branch);
      outcome := Append(offer, prev);
    }
  }

  /** The receipt of a saved branch: the next of its stream, built on the last one. */
  function SavedRow(db: Db, branch: Branch, id: string, ts: int, hash: Hash): Row {
    var rows := Read(db, BranchMetaStream);
    Row(db.nextSeq, |rows| + 1, id, ts, BranchMetaStream, HashBefore(rows, |rows|), BranchUpsert(branch), hash)
  }

  lemma Upserted(db: Db, offer: Offer, prev: Option<Hash>, branch: Branch)
    requires StoreSound(db)
    requires offer.stream == BranchMetaStream && offer.body == BranchUpsert(branch) && offer.prev == prev
    ensures OutcomeOf(db, offer, prev) == HeadMoved <==> HeadHash(db, BranchMetaStream) != prev
    ensures OutcomeOf(db, offer, prev) == Appended ==>
      && AppendTo(db, offer, prev).branches == db.branches[branch.name := branch]
      && Read(AppendTo(db, offer, prev), BranchMetaStream)
         == Read(db, BranchMetaStream) + [SavedRow(db, branch, offer.id, offer.ts, offer.hash)]
    ensures OutcomeOf(db, offer, prev) != Appended ==> AppendTo(db, offer, prev) == db
  {
    hide Rows, Collides, FoldBranches, LogFollows, HashesUnique, IdsUnique;
    assert StreamSound(db, BranchMetaStream);
    RowsAppend(db.receipts, NextRow(db, offer), BranchMetaStream);
  }
}
