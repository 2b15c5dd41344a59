/** The dependency walk of src/factory-cli/investigate.ts:242-284: each task is printed once, under one of its
    dependencies where possible, for any dependency graph, cycles and dangling dependencies included. */
module DagWalk {
  import opened Basics

  datatype Task = Task(id: string, dependsOn: seq<string>, latestSummary: string, blockedReason: string)

  datatype Line =
    | TaskLine(depth: nat, id: string)
    | SummaryLine(depth: nat, text: string)
    | BlockedLine(depth: nat, text: string)

  /** Task `id` names `dep` among its dependencies. */
  predicate DependsOn(tasks: seq<Task>, id: string, dep: string) {
    exists i :: 0 <= i < |tasks| && tasks[i].id == id && dep in tasks[i].dependsOn
  }

  predicate IsRoot(tasks: seq<Task>, id: string) {
    exists i :: 0 <= i < |tasks| && tasks[i].id == id && tasks[i].dependsOn == []
  }

  /** The chain leads from a root to its last element, each task depending on the one before it. */
  ghost predicate Chain(tasks: seq<Task>, chain: seq<string>) {
    && chain != [] && IsRoot(tasks, chain[0])
    && forall k :: 0 < k < |chain| ==> DependsOn(tasks, chain[k], chain[k - 1])
  }

  ghost predicate FromRoot(tasks: seq<Task>, id: string) {
    exists chain :: Chain(tasks, chain) && chain[|chain| - 1] == id
  }

  // ---------------------------------------------------------------------------------------------------------------
  // What the printed lines look like

  /** Line j is the line that a task line at position k and the given depth is read as hanging under: the last task line
      before it that is indented less, and by one level. */
  ghost predicate IsParent(lines: seq<Line>, j: nat, k: nat, depth: nat)
    requires k <= |lines|
  {
    && j < k && lines[j].TaskLine? && lines[j].depth == depth - 1
    && forall m :: j < m < k && lines[m].TaskLine? ==> lines[m].depth >= depth
  }

  ghost predicate IsDependency(tasks: seq<Task>, lines: seq<Line>, j: nat, k: nat, id: string, depth: nat)
    requires k <= |lines|
  {
    IsParent(lines, j, k, depth) && DependsOn(tasks, id, lines[j].id)
  }

  /** The line that the task's line at position k is read as hanging under is one of its dependencies. */
  ghost predicate HangsUnder(tasks: seq<Task>, lines: seq<Line>, k: nat, id: string, depth: nat)
    requires k <= |lines|
  {
    exists j: nat :: IsDependency(tasks, lines, j, k, id, depth)
  }

  ghost predicate WellHung(tasks: seq<Task>, lines: seq<Line>) {
    forall k: nat :: k < |lines| && lines[k].TaskLine? && lines[k].depth > 0 ==>
      HangsUnder(tasks, lines, k, lines[k].id, lines[k].depth)
  }

  ghost predicate PrintedAt(lines: seq<Line>, id: string, k: nat) {
    k < |lines| && lines[k].TaskLine? && lines[k].id == id
  }

  /** The printed tasks are the visited ones, each once. */
  ghost predicate PrintsOnce(lines: seq<Line>, visited: set<string>) {
    && (forall id :: id in visited <==> exists k: nat :: PrintedAt(lines, id, k))
    && (forall id, j: nat, k: nat :: PrintedAt(lines, id, j) && PrintedAt(lines, id, k) ==> j == k)
  }

  /** What is printed of a task below its own line. */
  function Details(task: Task, clip: string -> string, depth: nat): seq<Line> {
    (if clip(task.latestSummary) != "" then [SummaryLine(depth, clip(task.latestSummary))] else [])
    + (if task.blockedReason != "" then [BlockedLine(depth, clip(task.blockedReason))] else [])
  }

  /** Position i has the first task under the id. */
  predicate FirstAt(tasks: seq<Task>, i: nat, id: string) {
    i < |tasks| && tasks[i].id == id && forall k :: 0 <= k < i ==> tasks[k].id != id
  }

  /** The task's line and its details are added. */
  ghost predicate PrintsTask(tasks: seq<Task>, clip: string -> string, before: seq<Line>, after: seq<Line>, id: string,
                             depth: nat)
  {
    exists i: nat ::
      FirstAt(tasks, i, id) && after == before + [TaskLine(depth, id)] + Details(tasks[i], clip, depth + 1)
  }

  /** Below the task line at k there are the details of its task, one level deeper, and nothing else. */
  ghost predicate DetailedAt(tasks: seq<Task>, clip: string -> string, lines: seq<Line>, k: nat, i: nat)
    requires k < |lines| && lines[k].TaskLine?
  {
    && FirstAt(tasks, i, lines[k].id)
    && var details := Details(tasks[i], clip, lines[k].depth + 1); var end := k + 1 + |details|;
      && end <= |lines| && lines[k + 1..end] == details && (end < |lines| ==> lines[end].TaskLine?)
  }

  /** Every task line is followed by the details of its task, and no other details are printed. */
  ghost predicate Detailed(tasks: seq<Task>, clip: string -> string, lines: seq<Line>) {
    && (lines != [] ==> lines[0].TaskLine?)
    && forall k: nat :: k < |lines| && lines[k].TaskLine? ==> exists i: nat :: DetailedAt(tasks, clip, lines, k, i)
  }

  lemma AppendDetailed(tasks: seq<Task>, clip: string -> string, lines: seq<Line>, id: string, depth: nat, i: nat)
    requires Detailed(tasks, clip, lines) && FirstAt(tasks, i, id)
    ensures Detailed(tasks, clip, lines + [TaskLine(depth, id)] + Details(tasks[i], clip, depth + 1))
  {
    var details := Details(tasks[i], clip, depth + 1);
    hide FirstAt, Details;
    var longer := lines + [TaskLine(depth, id)] + details;
    forall k: nat | k < |longer| && longer[k].TaskLine? ensures exists m: nat :: DetailedAt(tasks, clip, longer, k, m) {
      if k < |lines| {
        var m: nat :| DetailedAt(tasks, clip, lines, k, m);
        StaysDetailed(tasks, clip, lines, longer, k, m);
      } else {
        assert k == |lines|;
        assert longer[k + 1..] == details;
        assert DetailedAt(tasks, clip, longer, k, i);
      }
    }
  }

  lemma StaysDetailed(tasks: seq<Task>, clip: string -> string, lines: seq<Line>, longer: seq<Line>, k: nat, m: nat)
    requires k < |lines| < |longer| && lines <= longer && lines[k].TaskLine? && longer[|lines|].TaskLine?
    requires DetailedAt(tasks, clip, lines, k, m)
    ensures DetailedAt(tasks, clip, longer, k, m)
  {
    hide Details;
    var end := k + 1 + |Details(tasks[m], clip, lines[k].depth + 1)|;
    assert longer[k + 1..end] == lines[k + 1..end];
  }

  /** Every task at depth 0 that is not a root hangs under no root. */
  ghost predicate LooseOnTop(tasks: seq<Task>, lines: seq<Line>) {
    forall k: nat :: k < |lines| && lines[k].TaskLine? && lines[k].depth == 0 && FromRoot(tasks, lines[k].id) ==>
      IsRoot(tasks, lines[k].id)
  }

  /** The dependents of every task of `ids` are in `visited`. */
  ghost predicate Closed(tasks: seq<Task>, ids: set<string>, visited: set<string>) {
    forall id, child :: id in ids && DependsOn(tasks, child, id) ==> child in visited
  }

  /** A closed set with every root has everything a chain from a root leads to. */
  lemma {:induction false} ClosedReaches(tasks: seq<Task>, visited: set<string>, chain: seq<string>)
    requires Closed(tasks, visited, visited) && Chain(tasks, chain)
    requires forall id :: IsRoot(tasks, id) ==> id in visited
    ensures chain[|chain| - 1] in visited
  {
    var n := |chain| - 1;
    if n > 0 {
      ClosedReaches(tasks, visited, chain[..n]);
      assert DependsOn(tasks, chain[n], chain[n - 1]);
    }
  }

  lemma VisitedFromRoots(tasks: seq<Task>, visited: set<string>, id: string)
    requires Closed(tasks, visited, visited) && id !in visited
    requires forall id :: IsRoot(tasks, id) ==> id in visited
    ensures !FromRoot(tasks, id)
  {
    if FromRoot(tasks, id) {
      var chain :| Chain(tasks, chain) && chain[|chain| - 1] == id;
      ClosedReaches(tasks, visited, chain);
    }
  }

  lemma AddedLoose(tasks: seq<Task>, before: seq<Line>, after: seq<Line>, id: string)
    requires LooseOnTop(tasks, before) && before <= after && (FromRoot(tasks, id) ==> IsRoot(tasks, id))
    requires forall k: nat :: |before| <= k < |after| && after[k].TaskLine? && after[k].depth == 0 ==> after[k].id == id
    ensures LooseOnTop(tasks, after)
  {
    forall k: nat | k < |before| ensures after[k] == before[k] {
    }
  }

  lemma AppendLine(tasks: seq<Task>, lines: seq<Line>, visited: set<string>, line: Line)
    requires WellHung(tasks, lines) && PrintsOnce(lines, visited)
    requires line.TaskLine? ==> line.id !in visited
    requires line.TaskLine? && line.depth > 0 ==> HangsUnder(tasks, lines, |lines|, line.id, line.depth)
    ensures WellHung(tasks, lines + [line])
    ensures PrintsOnce(lines + [line], if line.TaskLine? then visited + {line.id} else visited)
  {
    AppendHung(tasks, lines, line);
    AppendOnce(lines, visited, line);
  }

  lemma AppendHung(tasks: seq<Task>, lines: seq<Line>, line: Line)
    requires WellHung(tasks, lines)
    requires line.TaskLine? && line.depth > 0 ==> HangsUnder(tasks, lines, |lines|, line.id, line.depth)
    ensures WellHung(tasks, lines + [line])
  {
    hide DependsOn, IsDependency;
    var longer := lines + [line];
    forall k: nat | k < |longer| && longer[k].TaskLine? && longer[k].depth > 0
      ensures HangsUnder(tasks, longer, k, longer[k].id, longer[k].depth)
    {
      var j: nat :| IsDependency(tasks, lines, j, k, longer[k].id, longer[k].depth);
      ParentStays(tasks, lines, line, j, k, longer[k].id, longer[k].depth);
    }
  }

  lemma ParentStays(tasks: seq<Task>, lines: seq<Line>, line: Line, j: nat, k: nat, id: string, depth: nat)
    requires k <= |lines| && IsDependency(tasks, lines, j, k, id, depth)
    ensures IsDependency(tasks, lines + [line], j, k, id, depth)
  {
  }

  lemma AppendOnce(lines: seq<Line>, visited: set<string>, line: Line)
    requires PrintsOnce(lines, visited) && (line.TaskLine? ==> line.id !in visited)
    ensures PrintsOnce(lines + [line], if line.TaskLine? then visited + {line.id} else visited)
  {
    var longer := lines + [line];
    forall id, k: nat
      ensures PrintedAt(longer, id, k) <==> PrintedAt(lines, id, k) || (k == |lines| && line.TaskLine? && line.id == id)
    {
    }
    if line.TaskLine? {
      assert PrintedAt(longer, line.id, |lines|);
    }
  }

  predicate HasNoneBefore(task: Task) {
    task.dependsOn == []
  }

  /** The ids are those of the tasks without dependencies, in their order. */
  ghost predicate RootsOf(tasks: seq<Task>, roots: seq<string>) {
    exists kept: seq<Task> :: Picks(tasks, kept, HasNoneBefore) && AreIds(kept, roots)
  }

  predicate AreIds(tasks: seq<Task>, ids: seq<string>) {
    |ids| == |tasks| && forall k :: 0 <= k < |ids| ==> ids[k] == tasks[k].id
  }

  // ---------------------------------------------------------------------------------------------------------------
  // The walk

  class DagBuilder {
    const tasks: seq<Task>
    const clip: string -> string
    const order: seq<string> -> seq<string>
    var dependents: map<string, seq<string>>
    var visited: set<string>
    var lines: seq<Line>

    constructor (tasks: seq<Task>, clip: string -> string, order: seq<string> -> seq<string>)
      ensures this.tasks == tasks && this.clip == clip && this.order == order
      ensures dependents == map[] && visited == {} && lines == []
    {
      this.tasks, this.clip, this.order := tasks, clip, order;
      dependents, visited, lines := map[], {}, [];
    }

    function Ids(): set<string> {
      set i | 0 <= i < |tasks| :: tasks[i].id
    }

    function Dependents(id: string): seq<string>
      reads this
    {
      if id in dependents then dependents[id] else []
    }

    /** Sorting the children keeps exactly the same members. */
    ghost predicate Sorts() {
      forall ids, id :: id in order(ids) <==> id in ids
    }

    ghost predicate Valid()
      reads this
    {
      && Sorts()
      && (forall id, child :: child in Dependents(id) <==> DependsOn(tasks, child, id))
      && visited <= Ids() && WellHung(tasks, lines) && PrintsOnce(lines, visited) && Detailed(tasks, clip, lines)
    }

    /** Each task is listed under each of its dependencies. */
    method FillDependents()
      requires dependents == map[]
      modifies `dependents
      ensures forall id, child :: child in Dependents(id) <==> DependsOn(tasks, child, id)
    {
      for i := 0 to |tasks|
        invariant forall id, child :: child in Dependents(id) <==>
          exists m :: 0 <= m < i && tasks[m].id == child && id in tasks[m].dependsOn
      {
        var deps := tasks[i].dependsOn;
        for j := 0 to |deps|
          invariant forall id, child :: child in Dependents(id) <==>
            || (exists m :: 0 <= m < i && tasks[m].id == child && id in tasks[m].dependsOn)
            || (child == tasks[i].id && id in deps[..j])
        {
          assert deps[..j + 1] == deps[..j] + [deps[j]];
          label L:
          dependents := dependents[deps[j] := Dependents(deps[j]) + [tasks[i].id]];
          assert forall id, child :: child in Dependents(id) <==>
            child in old@L(Dependents(id)) || (id == deps[j] && child == tasks[i].id);
        }
        assert deps[..|deps|] == deps;
      }
    }

    /** tasks.find by id. */
    method Find(taskId: string) returns (task: Task, ghost at: nat)
      requires taskId in Ids()
      ensures FirstAt(tasks, at, taskId) && task == tasks[at]
    {
      var i := 0;
      while tasks[i].id != taskId
        invariant 0 <= i < |tasks| && forall k :: 0 <= k < i ==> tasks[k].id != taskId
        decreases |tasks| - i
      {
        i := i + 1;
      }
      task, at := tasks[i], i;
    }

    /** One task's own lines. */
    method Print(taskId: string, depth: nat)
      requires Valid() && taskId in Ids() && taskId !in visited
      requires depth > 0 ==> HangsUnder(tasks, lines, |lines|, taskId, depth)
      modifies `visited, `lines
      ensures Valid() && visited == old(visited) + {taskId}
      ensures old(lines) + [TaskLine(depth, taskId)] <= lines
      ensures PrintsTask(tasks, clip, old(lines), lines, taskId, depth)
      ensures forall k: nat :: |old(lines)| < k < |lines| ==> !lines[k].TaskLine? && lines[k].depth == depth + 1
    {
      hide WellHung, PrintsOnce, DependsOn, HangsUnder, Detailed, FirstAt;
      AppendLine(tasks, lines, visited, TaskLine(depth, taskId));
      visited := visited + {taskId};
      ghost var above := lines;
      var task, at := Find(taskId);
      lines := lines + [TaskLine(depth, taskId)];
      var latestSummary := clip(task.latestSummary);
      if latestSummary != "" {
        AppendLine(tasks, lines, visited, SummaryLine(depth + 1, latestSummary));
        lines := lines + [SummaryLine(depth + 1, latestSummary)];
      }
      if task.blockedReason != "" {
        AppendLine(tasks, lines, visited, BlockedLine(depth + 1, clip(task.blockedReason)));
        lines := lines + [BlockedLine(depth + 1, clip(task.blockedReason))];
      }
      assert lines == above + [TaskLine(depth, taskId)] + Details(task, clip, depth + 1);
      AppendDetailed(tasks, clip, above, taskId, depth, at);
    }

    /** What Valid says of the tables, for callers that need only that. */
    lemma Agrees()
      requires Valid()
      ensures Sorts() && visited <= Ids()
      ensures forall id, child :: child in Dependents(id) <==> DependsOn(tasks, child, id)
    {
    }

    /** One task's lines, then its dependents one level down. */
    method Walk(taskId: string, depth: nat)
      requires Valid() && taskId in Ids()
      requires depth > 0 ==> HangsUnder(tasks, lines, |lines|, taskId, depth)
      modifies `visited, `lines
      ensures Valid() && taskId in visited && old(visited) <= visited && old(lines) <= lines
      ensures Closed(tasks, visited - old(visited), visited)
      ensures forall k: nat :: |old(lines)| <= k < |lines| && lines[k].TaskLine? ==>
        lines[k].depth >= depth && (lines[k].depth == depth ==> lines[k].id == taskId)
      decreases Ids() - visited
    {
      hide WellHung, PrintsOnce, DependsOn, HangsUnder, Closed, PrintsTask, DagBuilder.Valid;
      if taskId in visited {
        NothingClosed(tasks, visited);
        return;
      }
      ghost var seen, above := visited, lines;
      Print(taskId, depth);
      Agrees();
      assert visited - seen - {taskId} == {};
      NothingClosed(tasks, visited);
      var children := order(Dependents(taskId));
      ghost var table := dependents;
      for c := 0 to |children|
        invariant Valid() && dependents == table
        invariant seen + {taskId} <= visited && above + [TaskLine(depth, taskId)] <= lines
        invariant Closed(tasks, visited - seen - {taskId}, visited)
        invariant forall m :: 0 <= m < c ==> children[m] in visited
        invariant forall k: nat :: |above| < k < |lines| && lines[k].TaskLine? ==> lines[k].depth > depth
      {
        ghost var printed, known := lines, visited;
        Agrees();
        assert children[c] in children;
        ChildHangs(tasks, lines, |above|, children[c]);
        Walk(children[c], depth + 1);
        ClosedGrows(tasks, known - seen - {taskId}, known, visited);
        assert visited - seen - {taskId} == (known - seen - {taskId}) + (visited - known);
      }
      ChildrenClosed(tasks, taskId, children, seen, visited);
    }

    /** buildDag: the roots with everything under them, then whatever no root leads to. */
    method Build() returns (roots: seq<string>)
      requires Sorts() && dependents == map[] && visited == {} && lines == []
      modifies this
      ensures forall id :: id in roots <==> IsRoot(tasks, id)
      ensures RootsOf(tasks, roots)
      ensures PrintsOnce(lines, Ids()) && WellHung(tasks, lines) && LooseOnTop(tasks, lines)
      ensures Detailed(tasks, clip, lines)
    {
      hide WellHung, PrintsOnce, DependsOn, LooseOnTop, FromRoot, HangsUnder, Detailed, RootsOf;
      FillDependents();
      NoLines(tasks, clip);
      roots := Roots();
      for r := 0 to |roots|
        invariant Valid() && Closed(tasks, visited, visited) && LooseOnTop(tasks, lines)
        invariant forall m :: 0 <= m < r ==> roots[m] in visited
      {
        ghost var printed, known := lines, visited;
        assert roots[r] in roots;
        RootIsTask(tasks, roots[r]);
        Walk(roots[r], 0);
        AddedLoose(tasks, printed, lines, roots[r]);
        ClosedGrows(tasks, known, known, visited);
      }
      for t := 0 to |tasks|
        invariant Valid() && Closed(tasks, visited, visited) && LooseOnTop(tasks, lines)
        invariant forall id :: IsRoot(tasks, id) ==> id in visited
        invariant forall m :: 0 <= m < t ==> tasks[m].id in visited
      {
        if tasks[t].id !in visited {
          ghost var printed, known := lines, visited;
          VisitedFromRoots(tasks, visited, tasks[t].id);
          Walk(tasks[t].id, 0);
          AddedLoose(tasks, printed, lines, tasks[t].id);
          ClosedGrows(tasks, known, known, visited);
        }
      }
      assert visited == Ids();
    }

    /** The ids of the tasks without dependencies, in the order of the tasks. */
    method Roots() returns (roots: seq<string>)
      ensures forall id :: id in roots <==> IsRoot(tasks, id)
      ensures RootsOf(tasks, roots)
    {
      hide Picks, IsRoot;
      roots := [];
      ghost var kept: seq<Task> := [];
      PicksNone(HasNoneBefore);
      assert tasks[..0] == [];
      for i := 0 to |tasks|
        invariant Picks(tasks[..i], kept, HasNoneBefore) && AreIds(kept, roots)
      {
        PicksNext(tasks[..i], kept, HasNoneBefore, tasks[i]);
        assert tasks[..i + 1] == tasks[..i] + [tasks[i]];
        if tasks[i].dependsOn == [] {
          roots, kept := roots + [tasks[i].id], kept + [tasks[i]];
        }
      }
      assert tasks[..|tasks|] == tasks;
      RootsAre(tasks, kept, roots);
    }
  }

  lemma RootsAre(tasks: seq<Task>, kept: seq<Task>, roots: seq<string>)
    requires Picks(tasks, kept, HasNoneBefore) && AreIds(kept, roots)
    ensures forall id :: id in roots <==> IsRoot(tasks, id)
  {
    var places :| PicksAt(tasks, kept, HasNoneBefore, places);
    forall id | id in roots ensures IsRoot(tasks, id) {
      var k :| 0 <= k < |roots| && roots[k] == id;
      assert places[k] in places && kept[k] == tasks[places[k]] && HasNoneBefore(tasks[places[k]]);
    }
    forall id | IsRoot(tasks, id) ensures id in roots {
      var i :| 0 <= i < |tasks| && tasks[i].id == id && tasks[i].dependsOn == [];
      assert HasNoneBefore(tasks[i]) && i in places;
      var k :| 0 <= k < |places| && places[k] == i;
      assert roots[k] == id;
    }
  }

  lemma NoLines(tasks: seq<Task>, clip: string -> string)
    ensures WellHung(tasks, []) && PrintsOnce([], {}) && LooseOnTop(tasks, []) && Detailed(tasks, clip, [])
  {
  }

  lemma RootIsTask(tasks: seq<Task>, id: string)
    requires IsRoot(tasks, id)
    ensures exists i :: 0 <= i < |tasks| && tasks[i].id == id
  {
  }

  lemma ChildHangs(tasks: seq<Task>, lines: seq<Line>, at: nat, child: string)
    requires at < |lines| && lines[at].TaskLine? && DependsOn(tasks, child, lines[at].id)
    requires forall m :: at < m < |lines| && lines[m].TaskLine? ==> lines[m].depth > lines[at].depth
    ensures HangsUnder(tasks, lines, |lines|, child, lines[at].depth + 1)
    ensures exists i :: 0 <= i < |tasks| && tasks[i].id == child
  {
    assert IsDependency(tasks, lines, at, |lines|, child, lines[at].depth + 1);
  }

  lemma NothingClosed(tasks: seq<Task>, visited: set<string>)
    ensures Closed(tasks, {}, visited)
    ensures visited - visited == {}
  {
  }

  lemma ClosedGrows(tasks: seq<Task>, ids: set<string>, before: set<string>, after: set<string>)
    requires Closed(tasks, ids, before) && before <= after && Closed(tasks, after - before, after)
    ensures Closed(tasks, ids + (after - before), after)
  {
  }

  lemma ChildrenClosed(tasks: seq<Task>, id: string, children: seq<string>, seen: set<string>, visited: set<string>)
    requires forall child :: child in children <==> DependsOn(tasks, child, id)
    requires forall m :: 0 <= m < |children| ==> children[m] in visited
    requires Closed(tasks, visited - seen - {id}, visited)
    ensures Closed(tasks, visited - seen, visited)
  {
  }
}
