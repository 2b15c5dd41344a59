/** What listChangedStreams (src/db/client.ts:226-289) has to return, and why both of its code paths return it. */
module ChangeFeed {
  import opened Basics
  import opened ReceiptStore

  ghost predicate Rising(log: seq<Change>) {
    forall i, j :: 0 <= i < j < |log| ==> log[i].globalSeq < log[j].globalSeq
  }

  /** The stream name starts with "jobs/". */
  predicate UnderJobs(stream: StreamName) {
    stream.JobStream? || stream.NestedJobStream?
  }

  predicate Selected(change: Change, after: int) {
    after < change.globalSeq && UnderJobs(change.stream)
  }

  /** The last change of its stream, and later than `after`. */
  ghost predicate IsLatest(log: seq<Change>, after: int, change: Change) {
    && change in log && Selected(change, after)
    && forall other :: other in log && other.stream == change.stream ==> other.globalSeq <= change.globalSeq
  }

  /** Each changed stream once, with its greatest sequence number, in rising order. */
  ghost predicate IsFeed(log: seq<Change>, after: int, feed: seq<Change>) {
    && Rising(feed)
    && forall change :: change in feed <==> IsLatest(log, after, change)
  }

  lemma {:induction false} RisingUnique(xs: seq<Change>, ys: seq<Change>)
    requires Rising(xs) && Rising(ys) && forall change :: change in xs <==> change in ys
    ensures xs == ys
  {
    if xs != [] { assert xs[0] in ys; }
    if ys != [] { assert ys[0] in xs; }
    if xs != [] {
      RisingTail(xs);
      RisingTail(ys);
      assert xs[0] == ys[0];
      RisingUnique(xs[1..], ys[1..]);
    }
  }

  lemma RisingTail(xs: seq<Change>)
    requires xs != [] && Rising(xs)
    ensures forall change :: change in xs[1..] <==> change in xs && change != xs[0]
    ensures forall change :: change in xs ==> xs[0].globalSeq <= change.globalSeq
  {
    assert xs == [xs[0]] + xs[1..];
    forall change | change in xs[1..] ensures xs[0].globalSeq < change.globalSeq {
      var i :| 0 <= i < |xs[1..]| && xs[1..][i] == change;
      assert xs[i + 1] == change;
    }
  }

  /** There is only one feed. */
  lemma FeedUnique(log: seq<Change>, after: int, xs: seq<Change>, ys: seq<Change>)
    requires IsFeed(log, after, xs) && IsFeed(log, after, ys)
    ensures xs == ys
  {
    RisingUnique(xs, ys);
  }

  // ---------------------------------------------------------------------------------------------------------------
  // The map from streams to sequence numbers both paths go through

  ghost predicate IsLatestMap(log: seq<Change>, after: int, latest: map<StreamName, int>) {
    && (forall stream :: stream in latest ==> IsLatest(log, after, Change(latest[stream], stream)))
    && (forall change :: change in log && Selected(change, after) ==> change.stream in latest)
  }

  lemma LatestMapStep(log: seq<Change>, i: nat, after: int, latest: map<StreamName, int>)
    requires Rising(log) && i < |log| && IsLatestMap(log[..i], after, latest)
    ensures IsLatestMap(log[..i + 1], after,
      if Selected(log[i], after) then latest[log[i].stream := log[i].globalSeq] else latest)
  {
    assert log[..i + 1] == log[..i] + [log[i]];
    forall change | change in log[..i] ensures change.globalSeq < log[i].globalSeq {
      var k :| 0 <= k < i && log[k] == change;
    }
    forall stream | stream in latest ensures IsLatest(log[..i], after, Change(latest[stream], stream)) {
    }
  }

  /** GROUP BY stream with MAX(global_seq). */
  function MaxByStream(log: seq<Change>): map<StreamName, int> {
    if log == [] then map[]
    else
      var last := log[|log| - 1];
      var before := MaxByStream(log[..|log| - 1]);
      if !UnderJobs(last.stream) then before
      else if last.stream in before then before[last.stream := Max(before[last.stream], last.globalSeq)]
      else before[last.stream := last.globalSeq]
  }

  /** With no sequence number at or below `after`, grouping finds the same map as reading the changes in order. */
  lemma {:induction false} MaxIsLatest(log: seq<Change>, after: int)
    requires Rising(log) && forall change :: change in log ==> after < change.globalSeq
    ensures IsLatestMap(log, after, MaxByStream(log))
  {
    if log != [] {
      var n := |log| - 1;
      forall change | change in log[..n] ensures change in log && change.globalSeq < log[n].globalSeq {
        var k :| 0 <= k < n && log[k] == change;
      }
      MaxIsLatest(log[..n], after);
      assert log[n] in log;
      LatestMapStep(log, n, after, MaxByStream(log[..n]));
      assert log[..n + 1] == log;
      var stream := log[n].stream;
      if stream in MaxByStream(log[..n]) {
        assert IsLatest(log[..n], after, Change(MaxByStream(log[..n])[stream], stream));
      }
    }
  }

  function InsertBySeq(change: Change, sorted: seq<Change>): seq<Change> {
    if sorted == [] || change.globalSeq < sorted[0].globalSeq then [change] + sorted
    else [sorted[0]] + InsertBySeq(change, sorted[1..])
  }

  lemma {:induction false} InsertBySeqKeeps(change: Change, sorted: seq<Change>)
    requires Rising(sorted) && forall other :: other in sorted ==> other.globalSeq != change.globalSeq
    ensures Rising(InsertBySeq(change, sorted))
    ensures forall other :: other in InsertBySeq(change, sorted) <==> other in sorted || other == change
  {
    if sorted == [] {
    } else if change.globalSeq < sorted[0].globalSeq {
      RisingTail(sorted);
      forall j | 0 <= j < |sorted| ensures change.globalSeq < sorted[j].globalSeq {
        assert sorted[j] in sorted;
      }
    } else {
      RisingTail(sorted);
      InsertBySeqKeeps(change, sorted[1..]);
      var rest := InsertBySeq(change, sorted[1..]);
      assert sorted == [sorted[0]] + sorted[1..];
      forall j | 0 <= j < |rest| ensures sorted[0].globalSeq < rest[j].globalSeq {
        assert rest[j] in rest;
        assert sorted[0] in sorted;
      }
    }
  }

  /** The entries of the map, sorted by sequence number. */
  method SortEntries(log: seq<Change>, after: int, latest: map<StreamName, int>) returns (feed: seq<Change>)
    requires Rising(log) && IsLatestMap(log, after, latest)
    ensures IsFeed(log, after, feed)
  {
    feed := [];
    var todo := latest.Keys;
    while todo != {}
      invariant todo <= latest.Keys && Rising(feed)
      invariant forall change :: change in feed <==>
        change.stream in latest && change.stream !in todo && change.globalSeq == latest[change.stream]
      decreases todo
    {
      var stream :| stream in todo;
      todo := todo - {stream};
      var entry := Change(latest[stream], stream);
      forall other | other in feed ensures other.globalSeq != entry.globalSeq {
        SeqIdentifies(log, after, latest, other.stream, stream);
      }
      InsertBySeqKeeps(entry, feed);
      feed := InsertBySeq(entry, feed);
    }
    MapIsFeed(log, after, latest, feed);
  }

  lemma MapIsFeed(log: seq<Change>, after: int, latest: map<StreamName, int>, feed: seq<Change>)
    requires IsLatestMap(log, after, latest) && Rising(feed)
    requires forall change :: change in feed <==> change.stream in latest && change.globalSeq == latest[change.stream]
    ensures IsFeed(log, after, feed)
  {
    forall change | IsLatest(log, after, change) ensures change in feed {
      assert IsLatest(log, after, Change(latest[change.stream], change.stream));
    }
    forall change | change in feed ensures IsLatest(log, after, change) {
      assert change == Change(latest[change.stream], change.stream);
    }
  }

  lemma SeqIdentifies(log: seq<Change>, after: int, latest: map<StreamName, int>, a: StreamName, b: StreamName)
    requires Rising(log) && IsLatestMap(log, after, latest) && a in latest && b in latest && a != b
    ensures latest[a] != latest[b]
  {
    assert IsLatest(log, after, Change(latest[a], a)) && IsLatest(log, after, Change(latest[b], b));
    var i :| 0 <= i < |log| && log[i] == Change(latest[a], a);
    var j :| 0 <= j < |log| && log[j] == Change(latest[b], b);
  }

  /** Both paths of listChangedStreams for the prefix "jobs/": grouped by the database from the start of the log, or
      read in order from a later offset. */
  method ListChangedStreams(log: seq<Change>, after: int) returns (feed: seq<Change>)
    requires Rising(log) && forall change :: change in log ==> 1 <= change.globalSeq
    ensures IsFeed(log, after, feed)
    ensures forall change :: change in feed ==> change.stream.JobStream? || change.stream.NestedJobStream?
    ensures forall change | change in log && change.globalSeq > after
                            && (change.stream.JobStream? || change.stream.NestedJobStream?) ::
      exists last :: last in feed && last.stream == change.stream && last.globalSeq >= change.globalSeq
  {
    var latest: map<StreamName, int> := map[];
    if after <= 0 {
      latest := MaxByStream(log);
      MaxIsLatest(log, after);
    } else {
      for i := 0 to |log|
        invariant IsLatestMap(log[..i], after, latest)
      {
        LatestMapStep(log, i, after, latest);
        if Selected(log[i], after) {
          latest := latest[log[i].stream := log[i].globalSeq];
        }
      }
      assert log[..|log|] == log;
    }
    feed := SortEntries(log, after, latest);
    forall change | change in log && Selected(change, after)
      ensures exists last :: last in feed && last.stream == change.stream && last.globalSeq >= change.globalSeq
    {
      assert Change(latest[change.stream], change.stream) in feed;
    }
  }
}
