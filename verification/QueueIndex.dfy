/** The queue's in-memory index (src/adapters/sqlite-queue.ts:201-431): two lists kept sorted by binary insertion, the
    leased set, the session map, per-status counts and a version, changed in place by Upsert and rebuilt by Reset. */
module QueueIndex {
  import opened Jobs

  type JobMap = map<JobId, Job>

  // ---------------------------------------------------------------------------------------------------------------
  // The two orders

  datatype Order = ByRecency | ByQueue

  function LanePriority(lane: Lane): int {
    match lane
    case ChatLane => 0
    case CollectLane => 1
    case SteerLane => 2
    case FollowUpLane => 3
  }

  function LocaleCompare(left: JobId, right: JobId): int {
    if left.rank < right.rank then -1 else if left.rank == right.rank then 0 else 1
  }

  /** compareRecentJobs and compareQueuedJobs. */
  function Compare(order: Order, left: Job, right: Job): int {
    match order
    case ByRecency =>
      if right.updatedAt != left.updatedAt then right.updatedAt - left.updatedAt
      else if right.createdAt != left.createdAt then right.createdAt - left.createdAt
      else LocaleCompare(right.id, left.id)
    case ByQueue =>
      if LanePriority(left.lane) != LanePriority(right.lane) then LanePriority(left.lane) - LanePriority(right.lane)
      else if left.createdAt != right.createdAt then left.createdAt - right.createdAt
      else LocaleCompare(left.id, right.id)
  }

  predicate Before(order: Order, left: Job, right: Job) {
    Compare(order, left, right) < 0
  }

  /** Both comparators are strict total orders on jobs with different ids. */
  lemma OrderIsStrictTotal(order: Order, a: Job, b: Job, c: Job)
    ensures !Before(order, a, a)
    ensures Before(order, a, b) ==> !Before(order, b, a)
    ensures a.id != b.id ==> Before(order, a, b) || Before(order, b, a)
    ensures Before(order, a, b) && Before(order, b, c) ==> Before(order, a, c)
  {
  }

  /** Chat comes before collect, collect before steer, steer before follow-up. */
  predicate LaneEarlier(a: Lane, b: Lane) {
    match a
    case ChatLane => b != ChatLane
    case CollectLane => b == SteerLane || b == FollowUpLane
    case SteerLane => b == FollowUpLane
    case FollowUpLane => false
  }

  /** The earlier lane first; in one lane the job created earlier; of jobs created together the lower id. */
  predicate QueuedEarlier(a: Job, b: Job) {
    || LaneEarlier(a.lane, b.lane)
    || (a.lane == b.lane && a.createdAt < b.createdAt)
    || (a.lane == b.lane && a.createdAt == b.createdAt && a.id.rank < b.id.rank)
  }

  /** The job updated later first; of jobs updated together the one created later; else the one with the higher id. */
  predicate UpdatedLater(a: Job, b: Job) {
    || a.updatedAt > b.updatedAt
    || (a.updatedAt == b.updatedAt && a.createdAt > b.createdAt)
    || (a.updatedAt == b.updatedAt && a.createdAt == b.createdAt && a.id.rank > b.id.rank)
  }

  /** What the two comparators compare. */
  lemma OrdersAre(a: Job, b: Job)
    ensures Before(ByQueue, a, b) <==> QueuedEarlier(a, b)
    ensures Before(ByRecency, a, b) <==> UpdatedLater(a, b)
  {
  }

  predicate Keyed(jobs: JobMap) {
    forall id :: id in jobs ==> jobs[id].id == id
  }

  ghost predicate Sorted(order: Order, ids: seq<JobId>, jobs: JobMap) {
    && (forall i :: 0 <= i < |ids| ==> ids[i] in jobs)
    && (forall i, j :: 0 <= i < j < |ids| ==> Before(order, jobs[ids[i]], jobs[ids[j]]))
  }

  /** Only one list of given ids is sorted. */
  lemma {:induction false} SortedUnique(order: Order, xs: seq<JobId>, ys: seq<JobId>, jobs: JobMap)
    requires Sorted(order, xs, jobs) && Sorted(order, ys, jobs)
    requires forall id :: id in xs <==> id in ys
    ensures xs == ys
  {
    if ys != [] {
      var y := ys[0];
      assert y in xs;
    }
    if xs != [] {
      assert xs[0] in ys;
      assert ys[0] in xs;
      var i :| 0 <= i < |ys| && ys[i] == xs[0];
      var j :| 0 <= j < |xs| && xs[j] == ys[0];
      OrderIsStrictTotal(order, jobs[xs[0]], jobs[ys[0]], jobs[xs[0]]);
      assert xs[0] == ys[0];
      forall id ensures id in xs[1..] <==> id in ys[1..] {
        SortedTail(order, xs, jobs, id);
        SortedTail(order, ys, jobs, id);
      }
      SortedUnique(order, xs[1..], ys[1..], jobs);
    }
  }

  lemma SortedTail(order: Order, ids: seq<JobId>, jobs: JobMap, id: JobId)
    requires ids != [] && Sorted(order, ids, jobs)
    ensures id in ids[1..] <==> id in ids && id != ids[0]
  {
    if id in ids[1..] {
      var i :| 0 <= i < |ids[1..]| && ids[1..][i] == id;
      OrderIsStrictTotal(order, jobs[ids[0]], jobs[id], jobs[id]);
      assert Before(order, jobs[ids[0]], jobs[ids[i + 1]]);
    }
    if id in ids && id != ids[0] {
      var i :| 0 <= i < |ids| && ids[i] == id;
      assert ids[1..][i - 1] == id;
    }
  }

  // ---------------------------------------------------------------------------------------------------------------
  // What the index must be

  datatype View = View(jobs: JobMap, recent: seq<JobId>, queued: seq<JobId>, leased: set<JobId>,
                       sessions: map<string, set<JobId>>, counts: map<Status, int>)

  function LeasedIn(jobs: JobMap): set<JobId> {
    set id | id in jobs && jobs[id].Active()
  }

  function MembersOf(jobs: JobMap, key: string): set<JobId> {
    set id | id in jobs && jobs[id].InSession(key)
  }

  predicate HasSession(job: Job) {
    job.sessionKey.Some? && job.sessionKey.value != ""
  }

  function SessionKeys(jobs: JobMap): set<string> {
    set id | id in jobs && HasSession(jobs[id]) :: jobs[id].sessionKey.value
  }

  /** One bucket per session that has a job, none empty. */
  function SessionsOf(jobs: JobMap): map<string, set<JobId>> {
    map key | key in SessionKeys(jobs) :: MembersOf(jobs, key)
  }

  function WithStatus(jobs: JobMap, status: Status): set<JobId> {
    set id | id in jobs && jobs[id].status == status
  }

  function CountsOf(jobs: JobMap): (counts: map<Status, int>)
    ensures forall status :: status in counts && counts[status] == |WithStatus(jobs, status)|
  {
    map status: Status | true :: |WithStatus(jobs, status)|
  }

  ghost predicate WellFormed(v: View) {
    && Keyed(v.jobs)
    && Sorted(ByRecency, v.recent, v.jobs) && (forall id :: id in v.recent <==> id in v.jobs)
    && Sorted(ByQueue, v.queued, v.jobs) && (forall id :: id in v.queued <==> id in v.jobs && v.jobs[id].ShouldQueue())
    && v.leased == LeasedIn(v.jobs)
    && v.sessions == SessionsOf(v.jobs)
    && v.counts == CountsOf(v.jobs)
  }

  /** The jobs determine everything else in a well-formed index. */
  lemma ViewDetermined(v: View, w: View)
    requires WellFormed(v) && WellFormed(w) && v.jobs == w.jobs
    ensures v == w
  {
    SortedUnique(ByRecency, v.recent, w.recent, v.jobs);
    SortedUnique(ByQueue, v.queued, w.queued, v.jobs);
  }

  // ---------------------------------------------------------------------------------------------------------------
  // Taking a job out and putting one in

  function RemoveFirst(ids: seq<JobId>, id: JobId): seq<JobId> {
    if ids == [] then [] else if ids[0] == id then ids[1..] else [ids[0]] + RemoveFirst(ids[1..], id)
  }

  lemma {:induction false} RemoveFirstSorted(order: Order, ids: seq<JobId>, id: JobId, jobs: JobMap)
    requires Sorted(order, ids, jobs)
    ensures var rest := RemoveFirst(ids, id);
      && Sorted(order, rest, jobs)
      && (forall other :: other in rest <==> other in ids && other != id)
  {
    if ids != [] {
      forall other ensures other in ids[1..] <==> other in ids && other != ids[0] {
        SortedTail(order, ids, jobs, other);
      }
      if ids[0] != id {
        RemoveFirstSorted(order, ids[1..], id, jobs);
        var rest := RemoveFirst(ids[1..], id);
        forall j | 0 <= j < |rest| ensures Before(order, jobs[ids[0]], jobs[rest[j]]) {
          assert rest[j] in ids[1..];
        }
      }
    }
  }

  lemma SortedElsewhere(order: Order, ids: seq<JobId>, jobs: JobMap, others: JobMap)
    requires Sorted(order, ids, jobs)
    requires forall id :: id in ids ==> id in others && others[id] == jobs[id]
    ensures Sorted(order, ids, others)
  {
    assert forall i :: 0 <= i < |ids| ==> ids[i] in ids;
  }

  lemma WithStatusUpdate(jobs: JobMap, job: Job, status: Status)
    requires job.id !in jobs
    ensures |WithStatus(jobs[job.id := job], status)|
      == |WithStatus(jobs, status)| + if job.status == status then 1 else 0
  {
    assert WithStatus(jobs[job.id := job], status)
      == WithStatus(jobs, status) + if job.status == status then {job.id} else {};
  }

  lemma CountsAdd(jobs: JobMap, job: Job)
    requires job.id !in jobs
    ensures CountsOf(jobs[job.id := job]) == CountsOf(jobs)[job.status := CountsOf(jobs)[job.status] + 1]
  {
    forall status {
      WithStatusUpdate(jobs, job, status);
    }
  }

  function AddMember(sessions: map<string, set<JobId>>, job: Job): map<string, set<JobId>> {
    if !HasSession(job) then sessions
    else
      var key := job.sessionKey.value;
      sessions[key := (if key in sessions then sessions[key] else {}) + {job.id}]
  }

  function RemoveMember(sessions: map<string, set<JobId>>, job: Job): map<string, set<JobId>> {
    if !HasSession(job) || job.sessionKey.value !in sessions then sessions
    else
      var key := job.sessionKey.value;
      var members := sessions[key] - {job.id};
      if members == {} then sessions - {key} else sessions[key := members]
  }

  lemma SessionsAdd(jobs: JobMap, job: Job)
    requires job.id !in jobs
    ensures SessionsOf(jobs[job.id := job]) == AddMember(SessionsOf(jobs), job)
  {
    var more := jobs[job.id := job];
    forall key ensures MembersOf(more, key) == MembersOf(jobs, key) + if job.InSession(key) then {job.id} else {} {
    }
    forall key ensures key in SessionKeys(more) <==> key in SessionKeys(jobs) || job.InSession(key) {
      if key in SessionKeys(jobs) {
        var id :| id in jobs && HasSession(jobs[id]) && jobs[id].sessionKey.value == key;
        assert more[id] == jobs[id];
      }
      if job.InSession(key) {
        assert more[job.id].sessionKey.value == key;
      }
    }
    forall key | key in SessionKeys(more) ensures
        key in AddMember(SessionsOf(jobs), job) && AddMember(SessionsOf(jobs), job)[key] == MembersOf(more, key) {
      forall id | id in MembersOf(jobs, key) ensures key in SessionKeys(jobs) {
        assert jobs[id].sessionKey.value == key;
      }
    }
  }

  lemma SessionsRemove(jobs: JobMap, id: JobId)
    requires Keyed(jobs) && id in jobs
    ensures RemoveMember(SessionsOf(jobs), jobs[id]) == SessionsOf(jobs - {id})
  {
    var job, rest := jobs[id], jobs - {id};
    assert rest[job.id := job] == jobs;
    SessionsAdd(rest, job);
    if HasSession(job) {
      var key := job.sessionKey.value;
      assert id !in MembersOf(rest, key);
      if key in SessionKeys(rest) {
        var other :| other in rest && HasSession(rest[other]) && rest[other].sessionKey.value == key;
        assert other in MembersOf(rest, key);
      }
    }
  }

  function Removed(v: View, id: JobId): View
    requires id in v.jobs && v.jobs[id].status in v.counts
  {
    var job := v.jobs[id];
    View(v.jobs - {id}, RemoveFirst(v.recent, id), if job.ShouldQueue() then RemoveFirst(v.queued, id) else v.queued,
         v.leased - {id}, RemoveMember(v.sessions, job), v.counts[job.status := v.counts[job.status] - 1])
  }

  lemma RemovedWellFormed(v: View, id: JobId)
    requires WellFormed(v) && id in v.jobs
    ensures WellFormed(Removed(v, id))
  {
    RemovedSets(v, id);
    ListWithout(ByRecency, v.recent, id, v.jobs);
    if v.jobs[id].ShouldQueue() {
      ListWithout(ByQueue, v.queued, id, v.jobs);
    } else {
      SortedElsewhere(ByQueue, v.queued, v.jobs, v.jobs - {id});
    }
  }

  lemma RemovedSets(v: View, id: JobId)
    requires WellFormed(v) && id in v.jobs
    ensures var w := Removed(v, id);
      w.leased == LeasedIn(w.jobs) && w.sessions == SessionsOf(w.jobs) && w.counts == CountsOf(w.jobs)
  {
    hide SessionsOf, RemoveMember, Sorted, RemoveFirst;
    var job, rest := v.jobs[id], v.jobs - {id};
    assert rest[job.id := job] == v.jobs;
    CountsAdd(rest, job);
    SessionsRemove(v.jobs, id);
  }

  lemma ListWithout(order: Order, ids: seq<JobId>, id: JobId, jobs: JobMap)
    requires Sorted(order, ids, jobs)
    ensures Sorted(order, RemoveFirst(ids, id), jobs - {id})
    ensures forall other :: other in RemoveFirst(ids, id) <==> other in ids && other != id
  {
    RemoveFirstSorted(order, ids, id, jobs);
    SortedElsewhere(order, RemoveFirst(ids, id), jobs, jobs - {id});
  }

  ghost predicate InsertedInto(order: Order, ids: seq<JobId>, jobs: JobMap, id: JobId, result: seq<JobId>) {
    && Sorted(order, result, jobs)
    && (forall other :: other in result <==> other in ids || other == id)
  }

  /** The lists, sets and counts of `after` are those of `v` with the job's places taken. */
  ghost predicate AddedTo(v: View, job: Job, after: View)
    requires job.status in v.counts
  {
    && InsertedInto(ByRecency, v.recent, after.jobs, job.id, after.recent)
    && (if job.ShouldQueue() then InsertedInto(ByQueue, v.queued, after.jobs, job.id, after.queued)
        else after.queued == v.queued)
    && after.leased == (if job.Active() then v.leased + {job.id} else v.leased)
    && after.sessions == AddMember(v.sessions, job)
    && after.counts == v.counts[job.status := v.counts[job.status] + 1]
  }

  lemma KeyedPut(jobs: JobMap, job: Job)
    requires Keyed(jobs)
    ensures Keyed(jobs[job.id := job])
  {
  }

  lemma AddedWellFormed(v: View, job: Job, after: View)
    requires WellFormed(v) && job.id !in v.jobs
    requires after.jobs == v.jobs[job.id := job] && AddedTo(v, job, after)
    ensures WellFormed(after)
  {
    hide SessionsOf, CountsOf, LeasedIn, Sorted, Keyed;
    KeyedPut(v.jobs, job);
    AddedSets(v, job, after);
    AddedLists(v, job, after);
  }

  lemma AddedSets(v: View, job: Job, after: View)
    requires WellFormed(v) && job.id !in v.jobs
    requires after.jobs == v.jobs[job.id := job] && AddedTo(v, job, after)
    ensures after.leased == LeasedIn(after.jobs) && after.sessions == SessionsOf(after.jobs)
    ensures after.counts == CountsOf(after.jobs)
  {
    hide SessionsOf, Sorted, Keyed, InsertedInto;
    CountsAdd(v.jobs, job);
    SessionsAdd(v.jobs, job);
  }

  lemma AddedLists(v: View, job: Job, after: View)
    requires WellFormed(v) && job.id !in v.jobs
    requires after.jobs == v.jobs[job.id := job] && AddedTo(v, job, after)
    ensures Sorted(ByRecency, after.recent, after.jobs) && forall id :: id in after.recent <==> id in after.jobs
    ensures Sorted(ByQueue, after.queued, after.jobs)
    ensures forall id :: id in after.queued <==> id in after.jobs && after.jobs[id].ShouldQueue()
  {
    hide SessionsOf, CountsOf, LeasedIn, AddMember, Sorted, Keyed;
    if !job.ShouldQueue() {
      SortedElsewhere(ByQueue, v.queued, v.jobs, after.jobs);
    }
  }

  // ---------------------------------------------------------------------------------------------------------------
  // Rebuilding from a list

  ghost predicate DistinctIds(jobs: seq<Job>) {
    forall i, j :: 0 <= i < j < |jobs| ==> jobs[i].id != jobs[j].id
  }

  function ById(jobs: seq<Job>): JobMap {
    if jobs == [] then map[] else ById(jobs[..|jobs| - 1])[jobs[|jobs| - 1].id := jobs[|jobs| - 1]]
  }

  ghost predicate Lists(jobs: seq<Job>, id: JobId) {
    exists i :: 0 <= i < |jobs| && jobs[i].id == id
  }

  lemma {:induction false} ByIdKeys(jobs: seq<Job>)
    ensures Keyed(ById(jobs))
    ensures forall id :: id in ById(jobs) <==> Lists(jobs, id)
  {
    if jobs != [] {
      var n := |jobs| - 1;
      ByIdKeys(jobs[..n]);
      forall id ensures Lists(jobs, id) <==> Lists(jobs[..n], id) || jobs[n].id == id {
        ListsLast(jobs, id);
      }
    }
  }

  lemma ListsLast(jobs: seq<Job>, id: JobId)
    requires jobs != []
    ensures Lists(jobs, id) <==> Lists(jobs[..|jobs| - 1], id) || jobs[|jobs| - 1].id == id
  {
    var n := |jobs| - 1;
    if Lists(jobs[..n], id) {
      var i :| 0 <= i < n && jobs[..n][i].id == id;
      assert jobs[i].id == id;
    }
    if Lists(jobs, id) {
      var i :| 0 <= i < |jobs| && jobs[i].id == id;
      assert i < n ==> jobs[..n][i].id == id;
    }
  }

  lemma {:induction false} ByIdLookup(jobs: seq<Job>)
    requires DistinctIds(jobs)
    ensures Keyed(ById(jobs)) && |ById(jobs)| == |jobs|
    ensures forall id :: id in ById(jobs) <==> Lists(jobs, id)
    ensures forall i :: 0 <= i < |jobs| ==> jobs[i].id in ById(jobs) && ById(jobs)[jobs[i].id] == jobs[i]
  {
    ByIdKeys(jobs);
    if jobs != [] {
      var n := |jobs| - 1;
      ByIdLookup(jobs[..n]);
      assert jobs[n].id !in ById(jobs[..n]);
      hide Lists, DistinctIds;
      forall i | 0 <= i < |jobs| ensures jobs[i].id in ById(jobs) && ById(jobs)[jobs[i].id] == jobs[i] {
        assert i < n ==> jobs[..n][i] == jobs[i];
      }
    }
  }

  function InsertSorted(order: Order, job: Job, jobs: seq<Job>): seq<Job> {
    if jobs == [] || Before(order, job, jobs[0]) then [job] + jobs
    else [jobs[0]] + InsertSorted(order, job, jobs[1..])
  }

  /** Array.sort with the comparator. */
  function Sort(order: Order, jobs: seq<Job>): seq<Job> {
    if jobs == [] then [] else InsertSorted(order, jobs[0], Sort(order, jobs[1..]))
  }

  ghost predicate SortedJobs(order: Order, jobs: seq<Job>) {
    forall i, j :: 0 <= i < j < |jobs| ==> Before(order, jobs[i], jobs[j])
  }

  lemma {:induction false} InsertSortedMembers(order: Order, job: Job, jobs: seq<Job>)
    ensures multiset(InsertSorted(order, job, jobs)) == multiset(jobs) + multiset{job}
  {
    if jobs != [] && !Before(order, job, jobs[0]) {
      assert jobs == [jobs[0]] + jobs[1..];
      InsertSortedMembers(order, job, jobs[1..]);
    }
  }

  lemma {:induction false} InsertSortedKeeps(order: Order, job: Job, jobs: seq<Job>)
    requires SortedJobs(order, jobs) && forall other :: other in jobs ==> other.id != job.id
    ensures SortedJobs(order, InsertSorted(order, job, jobs))
  {
    hide Before;
    if jobs == [] {
    } else if Before(order, job, jobs[0]) {
      forall j | 0 <= j < |jobs| ensures Before(order, job, jobs[j]) {
        OrderIsStrictTotal(order, job, jobs[0], jobs[j]);
      }
    } else {
      InsertSortedKeeps(order, job, jobs[1..]);
      InsertSortedMembers(order, job, jobs[1..]);
      OrderIsStrictTotal(order, job, jobs[0], job);
      var rest := InsertSorted(order, job, jobs[1..]);
      forall j | 0 <= j < |rest| ensures Before(order, jobs[0], rest[j]) {
        assert rest[j] in multiset(jobs[1..]) + multiset{job};
      }
    }
  }

  lemma {:induction false} SortSorts(order: Order, jobs: seq<Job>)
    requires DistinctIds(jobs)
    ensures SortedJobs(order, Sort(order, jobs)) && multiset(Sort(order, jobs)) == multiset(jobs)
  {
    if jobs != [] {
      SortSorts(order, jobs[1..]);
      assert jobs == [jobs[0]] + jobs[1..];
      forall other | other in Sort(order, jobs[1..]) ensures other.id != jobs[0].id {
        assert other in multiset(Sort(order, jobs[1..]));
        assert other in jobs[1..];
      }
      InsertSortedKeeps(order, jobs[0], Sort(order, jobs[1..]));
      InsertSortedMembers(order, jobs[0], Sort(order, jobs[1..]));
    }
  }

  function IdsOf(jobs: seq<Job>): seq<JobId> {
    seq(|jobs|, i requires 0 <= i < |jobs| => jobs[i].id)
  }

  function OnlyQueued(jobs: seq<Job>): seq<Job> {
    if jobs == [] then []
    else if jobs[0].ShouldQueue() then [jobs[0]] + OnlyQueued(jobs[1..]) else OnlyQueued(jobs[1..])
  }

  lemma {:induction false} OnlyQueuedFilters(jobs: seq<Job>)
    requires DistinctIds(jobs)
    ensures DistinctIds(OnlyQueued(jobs))
    ensures forall job :: job in OnlyQueued(jobs) <==> job in jobs && job.ShouldQueue()
  {
    if jobs != [] {
      assert jobs == [jobs[0]] + jobs[1..];
      OnlyQueuedFilters(jobs[1..]);
      if jobs[0].ShouldQueue() {
        forall j | 0 <= j < |OnlyQueued(jobs[1..])| ensures jobs[0].id != OnlyQueued(jobs[1..])[j].id {
          assert OnlyQueued(jobs[1..])[j] in jobs[1..];
        }
      }
    }
  }

  /** What resetIndex computes from a list of jobs. */
  function Rebuild(jobs: seq<Job>): View {
    View(ById(jobs), IdsOf(Sort(ByRecency, jobs)), IdsOf(Sort(ByQueue, OnlyQueued(jobs))),
         LeasedIn(ById(jobs)), SessionsOf(ById(jobs)), CountsOf(ById(jobs)))
  }

  lemma SortMembers(order: Order, jobs: seq<Job>)
    requires DistinctIds(jobs)
    ensures forall job :: job in Sort(order, jobs) <==> job in jobs
  {
    SortSorts(order, jobs);
    forall job ensures job in Sort(order, jobs) <==> job in jobs {
      assert job in Sort(order, jobs) <==> job in multiset(Sort(order, jobs));
    }
  }

  lemma ByIdMember(jobs: seq<Job>, job: Job)
    requires DistinctIds(jobs) && job in jobs
    ensures job.id in ById(jobs) && ById(jobs)[job.id] == job
  {
    ByIdLookup(jobs);
  }

  lemma SortedIds(order: Order, jobs: seq<Job>, chosen: seq<Job>)
    requires DistinctIds(jobs) && DistinctIds(chosen) && forall job :: job in chosen ==> job in jobs
    ensures Sorted(order, IdsOf(Sort(order, chosen)), ById(jobs))
    ensures forall id :: id in IdsOf(Sort(order, chosen)) <==> Lists(chosen, id)
  {
    SortSorts(order, chosen);
    SortMembers(order, chosen);
    var sorted := Sort(order, chosen);
    var ids := IdsOf(sorted);
    forall i | 0 <= i < |ids| ensures ids[i] in ById(jobs) && ById(jobs)[ids[i]] == sorted[i] {
      assert sorted[i] in sorted;
      ByIdMember(jobs, sorted[i]);
    }
    forall id ensures id in ids <==> Lists(chosen, id) {
      SameIds(sorted, chosen, id);
      SameIds(chosen, sorted, id);
      assert id in ids <==> Lists(sorted, id);
    }
  }

  lemma SameIds(xs: seq<Job>, ys: seq<Job>, id: JobId)
    requires forall job :: job in xs ==> job in ys
    ensures Lists(xs, id) ==> Lists(ys, id)
  {
    if Lists(xs, id) {
      var i :| 0 <= i < |xs| && xs[i].id == id;
      assert xs[i] in ys;
    }
  }

  lemma RebuildWellFormed(jobs: seq<Job>)
    requires DistinctIds(jobs)
    ensures WellFormed(Rebuild(jobs))
  {
    ByIdLookup(jobs);
    OnlyQueuedFilters(jobs);
    SortedIds(ByRecency, jobs, jobs);
    SortedIds(ByQueue, jobs, OnlyQueued(jobs));
    var queued := OnlyQueued(jobs);
    forall id ensures Lists(queued, id) <==> id in ById(jobs) && ById(jobs)[id].ShouldQueue() {
      if Lists(queued, id) {
        var i :| 0 <= i < |queued| && queued[i].id == id;
        assert queued[i] in jobs;
      }
      if id in ById(jobs) && ById(jobs)[id].ShouldQueue() {
        var i :| 0 <= i < |jobs| && jobs[i].id == id;
        assert jobs[i] in queued;
      }
    }
  }

  /** However a well-formed index came to hold these jobs, it equals the rebuild from any listing of them. */
  lemma IncrementalEqualsRebuilt(v: View, jobs: seq<Job>)
    requires WellFormed(v) && DistinctIds(jobs) && v.jobs == ById(jobs)
    ensures v == Rebuild(jobs)
  {
    RebuildWellFormed(jobs);
    ViewDetermined(v, Rebuild(jobs));
  }
}
