/** The mutable index object of src/adapters/sqlite-queue.ts:243-253 and the operations that change it. */
module LiveIndex {
  import opened Basics
  import opened Jobs
  import opened QueueIndex

  /** sameJob: field checks, then equality of the serialised jobs. */
  function SameJob(left: Option<Job>, right: Job): (same: bool)
    ensures same <==> left == Some(right)
  {
    if left.None? then false
    else if left.value.updatedAt != right.updatedAt then false
    else if left.value.status != right.status then false
    else if left.value.attempt != right.attempt then false
    else if left.value.leaseUntil != right.leaseUntil then false
    else if |left.value.commands| != |right.commands| then false
    else if left.value.abortRequested != right.abortRequested then false
    else left.value == right
  }

  function Lookup(jobs: JobMap, id: JobId): Option<Job> {
    if id in jobs then Some(jobs[id]) else None
  }

  /** The listed jobs that `before` did not hold in the same form. */
  function ChangedFrom(before: JobMap, jobs: seq<Job>): seq<Job> {
    if jobs == [] then []
    else if SameJob(Lookup(before, jobs[0].id), jobs[0]) then ChangedFrom(before, jobs[1..])
    else [jobs[0]] + ChangedFrom(before, jobs[1..])
  }

  lemma {:induction false} ChangedMembers(before: JobMap, jobs: seq<Job>)
    ensures forall job :: job in ChangedFrom(before, jobs) <==> job in jobs && Lookup(before, job.id) != Some(job)
  {
    if jobs != [] {
      assert jobs == [jobs[0]] + jobs[1..];
      ChangedMembers(before, jobs[1..]);
    }
  }

  /** The jobs changed by a rebuild from `known` to `kept`, if it is to be reported, or since then. */
  function ChangedIds(known: JobMap, kept: JobMap, now: JobMap, report: bool): set<JobId> {
    set id | id in now && (Lookup(now, id) != Lookup(kept, id) || (report && Lookup(kept, id) != Lookup(known, id)))
  }

  function IdSet(jobs: seq<Job>): set<JobId> {
    set i | 0 <= i < |jobs| :: jobs[i].id
  }

  /** The ids of the reloaded jobs are those whose entries differ. */
  lemma ReloadedIds(known: JobMap, jobs: seq<Job>, report: bool)
    requires DistinctIds(jobs)
    ensures (if report then IdSet(ChangedFrom(known, jobs)) else {})
      == ChangedIds(known, ById(jobs), ById(jobs), report)
  {
    var reloaded, kept := ChangedFrom(known, jobs), ById(jobs);
    ChangedMembers(known, jobs);
    ByIdLookup(jobs);
    forall id | id in kept && Lookup(kept, id) != Lookup(known, id) ensures id in IdSet(reloaded) {
      var k :| 0 <= k < |jobs| && jobs[k].id == id;
      assert jobs[k] in reloaded;
    }
    forall i | 0 <= i < |reloaded| ensures reloaded[i].id in kept && Lookup(kept, reloaded[i].id) == Some(reloaded[i]) {
      assert reloaded[i] in reloaded;
      var k :| 0 <= k < |jobs| && jobs[k] == reloaded[i];
    }
  }

  lemma ChangedAreIndexed(known: JobMap, kept: JobMap, now: JobMap, report: bool)
    ensures ChangedIds(known, kept, now, report) <= now.Keys
  {
  }

  lemma RebuildJobs(jobs: seq<Job>)
    ensures Rebuild(jobs).jobs == ById(jobs)
  {
  }

  lemma ChangedSince(known: JobMap, kept: JobMap, now: JobMap, report: bool, changed: set<JobId>)
    requires kept.Keys <= now.Keys && forall id :: id in changed <==> Lookup(now, id) != Lookup(kept, id)
    ensures ChangedIds(known, kept, kept, report) + changed == ChangedIds(known, kept, now, report)
  {
  }

  /** Equal size and nothing new or different means equal maps: the step that lets resetIndex keep its version. */
  lemma SameSizeSameJobs(before: JobMap, jobs: seq<Job>)
    requires DistinctIds(jobs)
    ensures |before| == |jobs| && ChangedFrom(before, jobs) == [] <==> before == ById(jobs)
  {
    ChangedMembers(before, jobs);
    ByIdLookup(jobs);
    var changed, after := ChangedFrom(before, jobs), ById(jobs);
    if changed != [] {
      var job := changed[0];
      assert job in changed;
    }
    if |before| == |jobs| && changed == [] {
      forall id | id in after ensures id in before && before[id] == after[id] {
        var i :| 0 <= i < |jobs| && jobs[i].id == id;
        assert jobs[i] in jobs && jobs[i] !in changed;
      }
      assert after.Keys <= before.Keys;
      SubsetOfEqualSize(after.Keys, before.Keys);
    }
  }

  lemma SubsetOfEqualSize<T>(small: set<T>, large: set<T>)
    requires small <= large && |small| == |large|
    ensures small == large
  {
    assert |large - small| == |large| - |small|;
  }

  const EMPTY_COUNTS: map<Status, int> :=
    map[Queued := 0, Leased := 0, Running := 0, Completed := 0, Failed := 0, Canceled := 0]

  lemma EmptyCounts()
    ensures EMPTY_COUNTS == CountsOf(map[])
  {
    var none: JobMap := map[];
    forall status: Status ensures status in EMPTY_COUNTS && EMPTY_COUNTS[status] == CountsOf(none)[status] {
      assert WithStatus(none, status) == {};
      match status {
        case Queued => case Leased => case Running => case Completed => case Failed => case Canceled =>
      }
    }
  }

  /** `times` bounds every creation and update time of the jobs. */
  predicate Bounds(times: Option<int>, jobs: seq<Job>) {
    forall k :: 0 <= k < |jobs| ==>
      times.Some? && jobs[k].updatedAt <= times.value && jobs[k].createdAt <= times.value
  }

  /** The latest creation or update time of the jobs, no earlier than time 0; none without jobs. */
  predicate IsLatestTime(times: Option<int>, jobs: seq<Job>) {
    if jobs == [] then times == None
    else
      && times.Some? && 0 <= times.value && Bounds(times, jobs)
      && (times.value == 0
          || exists k :: 0 <= k < |jobs| && (jobs[k].updatedAt == times.value || jobs[k].createdAt == times.value))
  }

  lemma LatestTimeNext(times: Option<int>, jobs: seq<Job>, i: nat)
    requires i < |jobs| && IsLatestTime(times, jobs[..i])
    ensures IsLatestTime(Later(times, jobs[i]), jobs[..i + 1])
  {
    var longer := jobs[..i + 1];
    assert forall k :: 0 <= k < i ==> longer[k] == jobs[..i][k];
    assert longer[i] == jobs[i];
  }

  lemma NothingListed()
    ensures IsLatestTime(None, []) && ById([]) == map[]
  {
  }

  predicate BoundsAll(times: Option<int>, jobs: JobMap) {
    forall id :: id in jobs ==>
      times.Some? && jobs[id].updatedAt <= times.value && jobs[id].createdAt <= times.value
  }

  lemma BoundsPut(times: Option<int>, jobs: JobMap, job: Job)
    requires BoundsAll(times, jobs)
    ensures BoundsAll(Later(times, job), jobs[job.id := job])
  {
  }

  function Later(times: Option<int>, job: Job): Option<int> {
    Some(Max(Max(if times.Some? then times.value else 0, job.updatedAt), job.createdAt))
  }

  class JobIndex {
    var jobsById: JobMap
    var recentJobIds: seq<JobId>
    var queuedJobIds: seq<JobId>
    var leasedJobs: set<JobId>
    var sessionJobs: map<string, set<JobId>>
    var counts: map<Status, int>
    var version: int
    var updatedAt: Option<int>
    var loaded: bool

    function ViewOf(): View
      reads this
    {
      View(jobsById, recentJobIds, queuedJobIds, leasedJobs, sessionJobs, counts)
    }

    /** Every part of the index agrees with the job map, and updatedAt bounds every time in it. */
    ghost predicate Valid()
      reads this
    {
      && WellFormed(ViewOf())
      && BoundsAll(updatedAt, jobsById)
    }

    constructor ()
      ensures Valid() && jobsById == map[] && version == 0 && !loaded
    {
      jobsById, recentJobIds, queuedJobIds, leasedJobs, sessionJobs := map[], [], [], {}, map[];
      counts, version, updatedAt, loaded := EMPTY_COUNTS, 0, None, false;
      new;
      EmptyCounts();
    }

    /** What Valid says about each part, for callers that need only that. */
    lemma Agrees()
      requires Valid()
      ensures Keyed(jobsById) && leasedJobs == LeasedIn(jobsById) && sessionJobs == SessionsOf(jobsById)
      ensures Sorted(ByQueue, queuedJobIds, jobsById)
      ensures forall id :: id in queuedJobIds <==> id in jobsById && jobsById[id].ShouldQueue()
    {
    }

    method MarkLoaded()
      requires Valid()
      modifies this`loaded
      ensures Valid() && loaded
    {
      loaded := true;
    }

    /** insertJobId: binary search for the first id whose job sorts after the new one, then a splice there. */
    method InsertJobId(ids: seq<JobId>, job: Job, order: Order) returns (result: seq<JobId>)
      requires Keyed(jobsById) && job.id in jobsById && jobsById[job.id] == job
      requires Sorted(order, ids, jobsById) && job.id !in ids
      ensures InsertedInto(order, ids, jobsById, job.id, result)
    {
      hide Before;
      var low, high := 0, |ids|;
      while low < high
        invariant 0 <= low <= high <= |ids|
        invariant forall i :: 0 <= i < low ==> Before(order, jobsById[ids[i]], job)
        invariant forall i :: high <= i < |ids| ==> Before(order, job, jobsById[ids[i]])
      {
        var mid := (low + high) / 2;
        var existing := jobsById[ids[mid]];
        assert existing.id in ids;
        OrderIsStrictTotal(order, job, existing, job);
        if Before(order, job, existing) {
          forall i | mid <= i < |ids| ensures Before(order, job, jobsById[ids[i]]) {
            OrderIsStrictTotal(order, job, existing, jobsById[ids[i]]);
          }
          high := mid;
        } else {
          forall i | 0 <= i <= mid ensures Before(order, jobsById[ids[i]], job) {
            OrderIsStrictTotal(order, jobsById[ids[i]], existing, job);
          }
          low := mid + 1;
        }
      }
      result := ids[..low] + [job.id] + ids[low..];
    }

    method AddSessionMember(job: Job)
      modifies this`sessionJobs
      ensures sessionJobs == AddMember(old(sessionJobs), job)
    {
      if !HasSession(job) {
        return;
      }
      var key := job.sessionKey.value;
      var members := if key in sessionJobs then sessionJobs[key] else {};
      sessionJobs := sessionJobs[key := members + {job.id}];
    }

    method RemoveSessionMember(job: Job)
      modifies this`sessionJobs
      ensures sessionJobs == RemoveMember(old(sessionJobs), job)
    {
      if !HasSession(job) || job.sessionKey.value !in sessionJobs {
        return;
      }
      var key := job.sessionKey.value;
      var members := sessionJobs[key] - {job.id};
      sessionJobs := sessionJobs[key := members];
      if members == {} {
        sessionJobs := sessionJobs - {key};
      }
      assert members == {} ==> sessionJobs == old(sessionJobs) - {key};
    }

    /** The job's places in the lists, the leased set, the sessions and the counts are given up. */
    method Withdraw(previous: Job)
      requires previous.id in jobsById && jobsById[previous.id] == previous && previous.status in counts
      modifies this`recentJobIds, this`queuedJobIds, this`leasedJobs, this`sessionJobs, this`counts
      ensures ViewOf() == Removed(old(ViewOf()), previous.id).(jobs := jobsById)
    {
      counts := counts[previous.status := counts[previous.status] - 1];
      recentJobIds := RemoveFirst(recentJobIds, previous.id);
      if previous.ShouldQueue() {
        queuedJobIds := RemoveFirst(queuedJobIds, previous.id);
      }
      leasedJobs := leasedJobs - {previous.id};
      RemoveSessionMember(previous);
    }

    /** The stored job takes its places. */
    method Enlist(job: Job)
      requires Keyed(jobsById) && job.id in jobsById && jobsById[job.id] == job && job.status in counts
      requires Sorted(ByRecency, recentJobIds, jobsById) && job.id !in recentJobIds
      requires Sorted(ByQueue, queuedJobIds, jobsById) && job.id !in queuedJobIds
      modifies this`recentJobIds, this`queuedJobIds, this`leasedJobs, this`sessionJobs, this`counts
      ensures AddedTo(old(ViewOf()), job, ViewOf())
    {
      counts := counts[job.status := counts[job.status] + 1];
      recentJobIds := InsertJobId(recentJobIds, job, ByRecency);
      if job.ShouldQueue() {
        queuedJobIds := InsertJobId(queuedJobIds, job, ByQueue);
      }
      if job.Active() {
        leasedJobs := leasedJobs + {job.id};
      }
      AddSessionMember(job);
    }

    /** upsertIndexedJob: the index of the updated job map, one version later. */
    method Upsert(job: Job)
      requires Valid()
      modifies this
      ensures Valid()
      ensures jobsById == old(jobsById)[job.id := job]
      ensures version == old(version) + 1 && loaded == old(loaded)
      ensures updatedAt.Some? && updatedAt.value >= job.updatedAt && updatedAt.value >= job.createdAt
      ensures var before := if old(updatedAt) == None then 0 else old(updatedAt).value;
        updatedAt.value >= before && updatedAt.value in {before, job.updatedAt, job.createdAt}
    {
      hide WellFormed, AddedTo, BoundsAll, Sorted, SessionsOf, CountsOf;
      ghost var before := ViewOf();
      MakeRoom(before, job);
      if job.id in jobsById {
        Withdraw(jobsById[job.id]);
      }
      jobsById := jobsById[job.id := job];
      ghost var rest := ViewOf();
      assert SameLists(WithoutJob(before, job.id), rest);
      Enlist(job);
      version := version + 1;
      updatedAt := Later(updatedAt, job);
      BoundsPut(old(updatedAt), before.jobs, job);
      UpsertWellFormed(before, rest, job, ViewOf());
    }

    /** The id map and the session map of the listed jobs. */
    static method MapJobs(jobs: seq<Job>) returns (byId: JobMap, sessions: map<string, set<JobId>>)
      requires DistinctIds(jobs)
      ensures byId == ById(jobs) && sessions == SessionsOf(byId)
    {
      byId, sessions := map[], map[];
      for i := 0 to |jobs|
        invariant byId == ById(jobs[..i]) && sessions == SessionsOf(byId)
      {
        NextListed(jobs, i);
        SessionsAdd(byId, jobs[i]);
        byId := byId[jobs[i].id := jobs[i]];
        sessions := AddMember(sessions, jobs[i]);
      }
      assert jobs[..|jobs|] == jobs;
    }

    static method Tally(jobs: seq<Job>) returns (counts: map<Status, int>, latest: Option<int>)
      requires DistinctIds(jobs)
      ensures counts == CountsOf(ById(jobs)) && IsLatestTime(latest, jobs)
    {
      hide CountsOf, ById, IsLatestTime, Later, DistinctIds, Lists;
      counts, latest := EMPTY_COUNTS, None;
      EmptyCounts();
      NothingListed();
      assert jobs[..0] == [];
      for i := 0 to |jobs|
        invariant counts == CountsOf(ById(jobs[..i])) && IsLatestTime(latest, jobs[..i])
      {
        NextListed(jobs, i);
        CountsAdd(ById(jobs[..i]), jobs[i]);
        LatestTimeNext(latest, jobs, i);
        counts := counts[jobs[i].status := counts[jobs[i].status] + 1];
        latest := Later(latest, jobs[i]);
      }
      assert jobs[..|jobs|] == jobs;
    }

    /** resetIndex: the index rebuilt from the listed jobs. The version moves exactly when the job map changed (or is
        still 0), and the result lists exactly the new and the differing jobs. */
    method Reset(jobs: seq<Job>) returns (changed: seq<Job>)
      requires Valid() && DistinctIds(jobs)
      modifies this
      ensures Valid() && loaded
      ensures ViewOf() == Rebuild(jobs)
      ensures changed == ChangedFrom(old(jobsById), jobs)
      ensures version == old(version) <==> old(version) != 0 && jobsById == old(jobsById)
      ensures old(version) <= version <= old(version) + 1
      ensures IsLatestTime(updatedAt, jobs)
    {
      hide WellFormed, BoundsAll, Sort, IsLatestTime, LeasedIn, SessionsOf, CountsOf, OnlyQueued, IdsOf,
        DistinctIds, Lists, ById, ChangedFrom;
      var previous := jobsById;
      jobsById, sessionJobs := MapJobs(jobs);
      recentJobIds := IdsOf(Sort(ByRecency, jobs));
      queuedJobIds := IdsOf(Sort(ByQueue, OnlyQueued(jobs)));
      leasedJobs := LeasedIn(jobsById);
      counts, updatedAt := Tally(jobs);
      loaded := true;
      changed := ChangedFrom(previous, jobs);
      if |previous| != |jobs| || |changed| > 0 || version == 0 {
        version := version + 1;
      }
      SameSizeSameJobs(previous, jobs);
      assert ViewOf() == Rebuild(jobs);
      RebuildWellFormed(jobs);
      BoundsById(updatedAt, jobs);
    }
  }

  lemma BoundsById(times: Option<int>, jobs: seq<Job>)
    requires DistinctIds(jobs) && IsLatestTime(times, jobs)
    ensures BoundsAll(times, ById(jobs))
  {
    ByIdLookup(jobs);
    forall id | id in ById(jobs) ensures exists k :: 0 <= k < |jobs| && ById(jobs)[id] == jobs[k] {
      assert Lists(jobs, id);
    }
  }

  /** The index with the job left out. */
  function WithoutJob(v: View, id: JobId): View
    requires id in v.jobs ==> v.jobs[id].status in v.counts
  {
    if id in v.jobs then Removed(v, id) else v
  }

  lemma PutBack(jobs: JobMap, job: Job)
    ensures (jobs - {job.id})[job.id := job] == jobs[job.id := job]
  {
  }

  /** The views differ at most in their job maps. */
  predicate SameLists(v: View, w: View) {
    && v.recent == w.recent && v.queued == w.queued && v.leased == w.leased
    && v.sessions == w.sessions && v.counts == w.counts
  }

  lemma WithoutJobWellFormed(v: View, id: JobId)
    requires WellFormed(v)
    ensures WellFormed(WithoutJob(v, id)) && WithoutJob(v, id).jobs == v.jobs - {id}
  {
    if id in v.jobs {
      RemovedWellFormed(v, id);
    } else {
      assert v.jobs - {id} == v.jobs;
    }
  }

  /** Once withdrawn, the lists are sorted for the job map with the new job in it, and do not name the job. */
  lemma MakeRoom(v: View, job: Job)
    requires WellFormed(v)
    ensures job.status in v.counts
      && (job.id in v.jobs ==> v.jobs[job.id].status in v.counts && v.jobs[job.id].id == job.id)
    ensures Keyed(v.jobs[job.id := job])
    ensures var rest := WithoutJob(v, job.id);
      && job.id !in rest.recent && Sorted(ByRecency, rest.recent, v.jobs[job.id := job])
      && job.id !in rest.queued && Sorted(ByQueue, rest.queued, v.jobs[job.id := job])
      && job.status in rest.counts
  {
    WithoutJobWellFormed(v, job.id);
    var rest := WithoutJob(v, job.id);
    SortedElsewhere(ByRecency, rest.recent, rest.jobs, v.jobs[job.id := job]);
    SortedElsewhere(ByQueue, rest.queued, rest.jobs, v.jobs[job.id := job]);
  }

  lemma UpsertWellFormed(before: View, shown: View, job: Job, after: View)
    requires WellFormed(before) && after.jobs == before.jobs[job.id := job]
    requires SameLists(WithoutJob(before, job.id), shown)
    requires job.status in shown.counts && AddedTo(shown, job, after)
    ensures WellFormed(after)
  {
    WithoutJobWellFormed(before, job.id);
    var rest := WithoutJob(before, job.id);
    PutBack(before.jobs, job);
    assert after.jobs == rest.jobs[job.id := job];
    AddedWellFormed(rest, job, after);
  }

  lemma NextListed(jobs: seq<Job>, i: nat)
    requires DistinctIds(jobs) && i < |jobs|
    ensures jobs[i].id !in ById(jobs[..i])
    ensures ById(jobs[..i + 1]) == ById(jobs[..i])[jobs[i].id := jobs[i]]
  {
    assert jobs[..i + 1][..i] == jobs[..i];
    ByIdLookup(jobs[..i]);
  }
}
