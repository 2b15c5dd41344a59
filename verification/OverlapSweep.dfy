/** The sweep over one session's control jobs (src/factory-cli/analyze.ts:1150-1178): how many start before an earlier
    one ends, and the peak it reports, which bounds the true peak from above. */
module OverlapSweep {
  import opened Basics

  datatype End = Until(at: int) | Never
  {
    /** The job is still open at the given time. */
    predicate After(time: int) {
      Never? || time < at
    }
  }

  function Later(a: End, b: End): End {
    if a.Never? || b.Never? then Never else Until(Max(a.at, b.at))
  }

  datatype ControlJob = ControlJob(createdAt: int, updatedAt: int, terminal: bool)
  {
    function EndAt(): End {
      if terminal then Until(updatedAt) else Never
    }

    predicate Open(time: int) {
      createdAt <= time && EndAt().After(time)
    }
  }

  ghost predicate Sorted(jobs: seq<ControlJob>) {
    forall i, j :: 0 <= i < j < |jobs| ==> jobs[i].createdAt <= jobs[j].createdAt
  }

  /** A job is open from its creation on, and once it is terminal until it was last updated. */
  lemma OpenIs(job: ControlJob, time: int)
    ensures job.Open(time) <==> job.createdAt <= time && (!job.terminal || time < job.updatedAt)
  {
  }

  /** The latest end of the jobs, no earlier than time 0. */
  function ActiveUntil(jobs: seq<ControlJob>): End {
    if jobs == [] then Until(0) else Later(ActiveUntil(jobs[..|jobs| - 1]), jobs[|jobs| - 1].EndAt())
  }

  /** Job i starts before an earlier-ordered one ends (or before time 0, where the sweep starts). */
  ghost predicate Overlaps(jobs: seq<ControlJob>, i: nat)
    requires i < |jobs|
  {
    jobs[i].createdAt < 0 || exists j :: 0 <= j < i && jobs[j].EndAt().After(jobs[i].createdAt)
  }

  /** It starts before an earlier-ordered job was last updated, or beside one that is not terminal. */
  lemma OverlapsIs(jobs: seq<ControlJob>, i: nat)
    requires i < |jobs|
    ensures Overlaps(jobs, i) <==>
      || jobs[i].createdAt < 0
      || exists j :: 0 <= j < i && (!jobs[j].terminal || jobs[i].createdAt < jobs[j].updatedAt)
  {
    assert forall j :: 0 <= j < i ==> (jobs[j].EndAt().After(jobs[i].createdAt)
        <==> !jobs[j].terminal || jobs[i].createdAt < jobs[j].updatedAt);
  }

  lemma {:induction false} ActiveUntilIsLatest(jobs: seq<ControlJob>, time: int)
    ensures ActiveUntil(jobs).After(time) <==> time < 0 || exists j :: 0 <= j < |jobs| && jobs[j].EndAt().After(time)
  {
    if jobs != [] {
      var n := |jobs| - 1;
      ActiveUntilIsLatest(jobs[..n], time);
      assert (exists j :: 0 <= j < |jobs| && jobs[j].EndAt().After(time))
        <==> jobs[n].EndAt().After(time) || exists j :: 0 <= j < n && jobs[..n][j].EndAt().After(time);
    }
  }

  ghost function OverlapCount(jobs: seq<ControlJob>, n: nat): nat
    requires n <= |jobs|
  {
    if n == 0 then 0 else OverlapCount(jobs, n - 1) + if Overlaps(jobs, n - 1) then 1 else 0
  }

  ghost function OpenCount(jobs: seq<ControlJob>, n: nat, time: int): nat
    requires n <= |jobs|
  {
    if n == 0 then 0 else OpenCount(jobs, n - 1, time) + if jobs[n - 1].Open(time) then 1 else 0
  }

  lemma {:induction false} CountPositive(jobs: seq<ControlJob>, n: nat)
    requires n <= |jobs|
    ensures OverlapCount(jobs, n) > 0 <==> exists i: nat :: i < n && Overlaps(jobs, i)
  {
    if n > 0 {
      CountPositive(jobs, n - 1);
    }
  }

  /** Of the jobs open at one time all but the first overlap an earlier one. */
  lemma {:induction false} OpenOverlap(jobs: seq<ControlJob>, n: nat, time: int)
    requires n <= |jobs| && Sorted(jobs)
    ensures OpenCount(jobs, n, time) <= OverlapCount(jobs, n) + 1
    ensures OpenCount(jobs, n, time) > 0 ==> exists j :: 0 <= j < n && jobs[j].Open(time)
  {
    if n > 0 {
      OpenOverlap(jobs, n - 1, time);
      if jobs[n - 1].Open(time) && OpenCount(jobs, n - 1, time) > 0 {
        var j :| 0 <= j < n - 1 && jobs[j].Open(time);
        assert jobs[j].EndAt().After(jobs[n - 1].createdAt);
      }
    }
  }

  // The source's stable sort by creation time

  function InsertByCreation(job: ControlJob, jobs: seq<ControlJob>): seq<ControlJob> {
    if jobs == [] || job.createdAt <= jobs[0].createdAt then [job] + jobs
    else [jobs[0]] + InsertByCreation(job, jobs[1..])
  }

  function SortByCreation(jobs: seq<ControlJob>): seq<ControlJob> {
    if jobs == [] then [] else InsertByCreation(jobs[0], SortByCreation(jobs[1..]))
  }

  lemma {:induction false} InsertMembers(job: ControlJob, jobs: seq<ControlJob>)
    ensures multiset(InsertByCreation(job, jobs)) == multiset(jobs) + multiset{job}
  {
    if jobs != [] && job.createdAt > jobs[0].createdAt {
      assert jobs == [jobs[0]] + jobs[1..];
      InsertMembers(job, jobs[1..]);
    }
  }

  lemma {:induction false} InsertSorted(job: ControlJob, jobs: seq<ControlJob>)
    requires Sorted(jobs)
    ensures Sorted(InsertByCreation(job, jobs))
  {
    if jobs != [] && job.createdAt > jobs[0].createdAt {
      var rest := InsertByCreation(job, jobs[1..]);
      InsertSorted(job, jobs[1..]);
      InsertMembers(job, jobs[1..]);
      hide InsertByCreation;
      forall j | 0 <= j < |rest| ensures jobs[0].createdAt <= rest[j].createdAt {
        assert rest[j] in multiset(jobs[1..]) + multiset{job};
      }
    }
  }

  /** Sorting orders the jobs and keeps every one of them. */
  lemma {:induction false} SortSorts(jobs: seq<ControlJob>)
    ensures Sorted(SortByCreation(jobs)) && multiset(SortByCreation(jobs)) == multiset(jobs)
    ensures |SortByCreation(jobs)| == |jobs|
  {
    if jobs != [] {
      assert jobs == [jobs[0]] + jobs[1..];
      SortSorts(jobs[1..]);
      InsertSorted(jobs[0], SortByCreation(jobs[1..]));
      InsertMembers(jobs[0], SortByCreation(jobs[1..]));
      assert |SortByCreation(jobs)| == |multiset(SortByCreation(jobs))| && |multiset(jobs)| == |jobs|;
    }
  }

  function CreatedAt(jobs: seq<ControlJob>, time: int): seq<ControlJob> {
    if jobs == [] then [] else (if jobs[0].createdAt == time then [jobs[0]] else []) + CreatedAt(jobs[1..], time)
  }

  lemma {:induction false} InsertKeepsTies(job: ControlJob, jobs: seq<ControlJob>, time: int)
    ensures CreatedAt(InsertByCreation(job, jobs), time) == CreatedAt([job] + jobs, time)
  {
    if jobs != [] && job.createdAt > jobs[0].createdAt {
      InsertKeepsTies(job, jobs[1..], time);
      assert ([job] + jobs[1..])[1..] == jobs[1..] && ([job] + jobs)[1..] == jobs;
    }
  }

  /** The sort is stable: jobs created at one time keep their order. */
  lemma {:induction false} SortKeepsTies(jobs: seq<ControlJob>, time: int)
    ensures CreatedAt(SortByCreation(jobs), time) == CreatedAt(jobs, time)
  {
    if jobs != [] {
      var rest := SortByCreation(jobs[1..]);
      SortKeepsTies(jobs[1..], time);
      InsertKeepsTies(jobs[0], rest, time);
      assert ([jobs[0]] + rest)[1..] == rest;
    }
  }

  lemma {:induction false} OpenCountSplits(a: seq<ControlJob>, b: seq<ControlJob>, n: nat, time: int)
    requires n <= |b|
    ensures OpenCount(a + b, |a| + n, time) == OpenCount(a, |a|, time) + OpenCount(b, n, time)
  {
    if n > 0 {
      OpenCountSplits(a, b, n - 1, time);
    } else {
      OpenCountPrefix(a, b, |a|, time);
    }
  }

  lemma {:induction false} OpenCountPrefix(a: seq<ControlJob>, b: seq<ControlJob>, n: nat, time: int)
    requires n <= |a|
    ensures OpenCount(a + b, n, time) == OpenCount(a, n, time)
  {
    if n > 0 {
      OpenCountPrefix(a, b, n - 1, time);
    }
  }

  lemma {:induction false} InsertOpens(job: ControlJob, jobs: seq<ControlJob>, time: int)
    ensures var longer := InsertByCreation(job, jobs);
      OpenCount(longer, |longer|, time) == OpenCount(jobs, |jobs|, time) + OpenCount([job], 1, time)
  {
    if jobs != [] && job.createdAt > jobs[0].createdAt {
      var rest := InsertByCreation(job, jobs[1..]);
      assert jobs == [jobs[0]] + jobs[1..];
      InsertOpens(job, jobs[1..], time);
      OpenCountSplits([jobs[0]], jobs[1..], |jobs| - 1, time);
      OpenCountSplits([jobs[0]], rest, |rest|, time);
    } else {
      OpenCountSplits([job], jobs, |jobs|, time);
    }
  }

  /** As many jobs are open at any time in sorted order as in the given order. */
  lemma {:induction false} SortOpens(jobs: seq<ControlJob>, time: int)
    ensures OpenCount(SortByCreation(jobs), |SortByCreation(jobs)|, time) == OpenCount(jobs, |jobs|, time)
  {
    if jobs != [] {
      assert jobs == [jobs[0]] + jobs[1..];
      SortOpens(jobs[1..], time);
      InsertOpens(jobs[0], SortByCreation(jobs[1..]), time);
      OpenCountSplits([jobs[0]], jobs[1..], |jobs| - 1, time);
    }
  }

  /** The sweep counts job i exactly when it overlaps an earlier one. */
  lemma ActiveIsOverlap(jobs: seq<ControlJob>, i: nat)
    requires i < |jobs|
    ensures ActiveUntil(jobs[..i]).After(jobs[i].createdAt) <==> Overlaps(jobs, i)
    ensures ActiveUntil(jobs[..i + 1]) == Later(ActiveUntil(jobs[..i]), jobs[i].EndAt())
  {
    ActiveUntilIsLatest(jobs[..i], jobs[i].createdAt);
    assert forall j :: 0 <= j < i ==> jobs[..i][j] == jobs[j];
    assert jobs[..i + 1][..i] == jobs[..i];
  }

  /** The sweep over one session's jobs. */
  method Sweep(jobs: seq<ControlJob>) returns (overlapCount: int, maxActive: int)
    ensures overlapCount == OverlapCount(SortByCreation(jobs), |SortByCreation(jobs)|)
    ensures overlapCount > 0 <==> exists i: nat :: i < |SortByCreation(jobs)| && Overlaps(SortByCreation(jobs), i)
    ensures maxActive == if jobs == [] then 0 else overlapCount + 1
    ensures forall time :: OpenCount(jobs, |jobs|, time) <= maxActive
  {
    hide Overlaps, ActiveUntil, SortByCreation, OpenCount, Sorted;
    var ordered := SortByCreation(jobs);
    SortSorts(jobs);
    overlapCount, maxActive := 0, 0;
    var activeUntil := Until(0);
    NothingActive();
    assert ordered[..0] == [];
    for i := 0 to |ordered|
      invariant activeUntil == ActiveUntil(ordered[..i]) && overlapCount == OverlapCount(ordered, i)
      invariant maxActive == if i == 0 then 0 else overlapCount + 1
    {
      var job := ordered[i];
      ActiveIsOverlap(ordered, i);
      if activeUntil.After(job.createdAt) {
        overlapCount := overlapCount + 1;
      }
      activeUntil := Later(activeUntil, job.EndAt());
      maxActive := Max(maxActive, overlapCount + 1);
    }
    CountPositive(ordered, |ordered|);
    forall time ensures OpenCount(jobs, |jobs|, time) <= maxActive {
      SortOpens(jobs, time);
      OpenOverlap(ordered, |ordered|, time);
      NoneToOpen(jobs, time);
    }
  }

  lemma NothingActive()
    ensures ActiveUntil([]) == Until(0)
  {
  }

  lemma NoneToOpen(jobs: seq<ControlJob>, time: int)
    ensures jobs == [] ==> OpenCount(jobs, |jobs|, time) == 0
  {
  }

  // ---------------------------------------------------------------------------------------------------------------
  // When the reported peak is the true one

  /** Where as many jobs are open as the sweep reports, they are one job and every job that overlaps an earlier one. */
  lemma {:induction false} TightPeak(jobs: seq<ControlJob>, n: nat, time: int) returns (first: nat)
    requires n <= |jobs| && Sorted(jobs) && OpenCount(jobs, n, time) == OverlapCount(jobs, n) + 1
    ensures first < n && jobs[first].Open(time)
    ensures forall k: nat :: k < n && Overlaps(jobs, k) ==> jobs[k].Open(time)
    ensures forall k: nat :: k < n && jobs[k].Open(time) && k != first ==> first < k && Overlaps(jobs, k)
  {
    OpenOverlap(jobs, n - 1, time);
    CountPositive(jobs, n);
    if jobs[n - 1].Open(time) && OpenCount(jobs, n - 1, time) == 0 {
      NoneOpen(jobs, n - 1, time);
      first := n - 1;
    } else {
      if jobs[n - 1].Open(time) {
        var j :| 0 <= j < n - 1 && jobs[j].Open(time);
        assert jobs[j].EndAt().After(jobs[n - 1].createdAt);
      }
      first := TightPeak(jobs, n - 1, time);
    }
  }

  lemma {:induction false} NoneOpen(jobs: seq<ControlJob>, n: nat, time: int)
    requires n <= |jobs| && OpenCount(jobs, n, time) == 0
    ensures forall k: nat :: k < n ==> !jobs[k].Open(time)
  {
    if n > 0 {
      NoneOpen(jobs, n - 1, time);
    }
  }

  lemma {:induction false} MoreOpen(jobs: seq<ControlJob>, n: nat, a: int, b: int)
    requires n <= |jobs| && forall k: nat :: k < n && jobs[k].Open(a) ==> jobs[k].Open(b)
    ensures OpenCount(jobs, n, a) <= OpenCount(jobs, n, b)
  {
    if n > 0 {
      MoreOpen(jobs, n - 1, a, b);
    }
  }

  /** The reported peak is reached at some time exactly when it is reached as the last overlapping job starts. */
  lemma PeakIsExact(jobs: seq<ControlJob>, last: nat)
    requires Sorted(jobs) && last < |jobs| && Overlaps(jobs, last)
    requires forall k: nat :: last < k < |jobs| ==> !Overlaps(jobs, k)
    ensures (exists time :: OpenCount(jobs, |jobs|, time) == OverlapCount(jobs, |jobs|) + 1)
      <==> OpenCount(jobs, |jobs|, jobs[last].createdAt) == OverlapCount(jobs, |jobs|) + 1
  {
    var n, start := |jobs|, jobs[last].createdAt;
    if time :| OpenCount(jobs, n, time) == OverlapCount(jobs, n) + 1 {
      var first := TightPeak(jobs, n, time);
      MoreOpen(jobs, n, time, start);
      OpenOverlap(jobs, n, start);
    }
  }

  /** Three jobs in a row, each overlapping only the next: a peak of 3 is reported where at most 2 are open. */
  lemma PeakIsOnlyABound()
    ensures var jobs := [ControlJob(0, 10, true), ControlJob(5, 15, true), ControlJob(12, 20, true)];
      OverlapCount(jobs, 3) + 1 == 3 && forall time :: OpenCount(jobs, 3, time) <= 2
  {
    var jobs := [ControlJob(0, 10, true), ControlJob(5, 15, true), ControlJob(12, 20, true)];
    assert jobs[0].EndAt().After(jobs[1].createdAt) && jobs[1].EndAt().After(jobs[2].createdAt);
    assert OverlapCount(jobs, 3) == 2 by {
      assert Overlaps(jobs, 1) && Overlaps(jobs, 2) && !Overlaps(jobs, 0);
      assert OverlapCount(jobs, 0) == 0 && OverlapCount(jobs, 1) == 0 && OverlapCount(jobs, 2) == 1;
    }
    forall time ensures OpenCount(jobs, 3, time) <= 2 {
      hide Overlaps, OverlapCount;
      assert OpenCount(jobs, 0, time) == 0;
      assert OpenCount(jobs, 1, time) == OpenCount(jobs, 0, time) + if jobs[0].Open(time) then 1 else 0;
      assert OpenCount(jobs, 2, time) == OpenCount(jobs, 1, time) + if jobs[1].Open(time) then 1 else 0;
      assert OpenCount(jobs, 3, time) == OpenCount(jobs, 2, time) + if jobs[2].Open(time) then 1 else 0;
      assert jobs[0].Open(time) ==> !jobs[2].Open(time);
    }
  }
}
