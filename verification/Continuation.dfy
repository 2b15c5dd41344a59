/** Runs that continue as other runs: how the chain is followed (src/agents/run-target.ts:22-61) and how the budget
    ladder builds it (src/agents/agent-continuation.ts:5-92). */
module Continuation {
  import opened Basics

  /** The body of a receipt on an agent run's stream. */
  datatype Body = Continued(nextRunId: string, nextJobId: string) | OtherBody

  type Chains = map<string, seq<Body>>

  const DEFAULT_DEPTH_LIMIT := 32

  function ChainOf(chains: Chains, run: string): seq<Body> {
    if run in chains then chains[run] else []
  }

  predicate NoneAfter(chain: seq<Body>, k: int) {
    forall m :: 0 <= k < m < |chain| ==> !chain[m].Continued?
  }

  /** The last continuation on a chain. */
  ghost predicate IsLatest(chain: seq<Body>, latest: Option<Body>) {
    match latest
    case None => forall k :: 0 <= k < |chain| ==> !chain[k].Continued?
    case Some(body) =>
      body.Continued? && exists k :: 0 <= k < |chain| && chain[k] == body && NoneAfter(chain, k)
  }

  function Latest(chain: seq<Body>): (latest: Option<Body>)
    ensures IsLatest(chain, latest)
  {
    if chain == [] then None
    else if chain[|chain| - 1].Continued? then Some(chain[|chain| - 1])
    else Latest(chain[..|chain| - 1])
  }

  /** latestContinuation: a loop from the end. */
  method LatestContinuation(chain: seq<Body>) returns (latest: Option<Body>)
    ensures latest == Latest(chain)
  {
    var index := |chain| - 1;
    while 0 <= index
      invariant -1 <= index < |chain|
      invariant Latest(chain) == Latest(chain[..index + 1])
    {
      assert chain[..index + 1][..index] == chain[..index];
      if chain[index].Continued? {
        return Some(chain[index]);
      }
      index := index - 1;
    }
    latest := None;
  }

  function Next(chains: Chains, run: string): Option<Body> {
    Latest(ChainOf(chains, run))
  }

  /** Run k, where there is one, is what the run before it continues as. */
  predicate LinkAt(chains: Chains, runs: seq<string>, k: int) {
    0 < k < |runs| ==> Next(chains, runs[k - 1]).Some? && Next(chains, runs[k - 1]).value.nextRunId == runs[k]
  }

  /** Each run continues as the following one. */
  ghost predicate Path(chains: Chains, runs: seq<string>) {
    runs != [] && forall k :: LinkAt(chains, runs, k)
  }

  ghost predicate Distinct(runs: seq<string>) {
    forall i, j :: 0 <= i < j < |runs| ==> runs[i] != runs[j]
  }

  datatype Target = Target(runId: string, jobId: Option<string>, continued: bool, depth: int)

  function Limit(maxDepth: Option<int>): int {
    Max(1, if maxDepth.Some? then maxDepth.value else DEFAULT_DEPTH_LIMIT)
  }

  /** The continuations were followed through `runs`: no run twice, no more than the limit, and no earlier end than
      the limit, the end of the chain, or a run met before. */
  ghost predicate Followed(chains: Chains, limit: int, runs: seq<string>) {
    && Path(chains, runs) && Distinct(runs) && |runs| - 1 <= limit
    && (|runs| - 1 == limit || Next(chains, runs[|runs| - 1]).None?
      || Next(chains, runs[|runs| - 1]).value.nextRunId in runs)
  }

  /** resolveContinuedRunTarget. The target is the last of the runs followed from the parent. */
  method ResolveContinuedRunTarget(chains: Chains, parent: string, maxDepth: Option<int>)
    returns (target: Target, ghost runs: seq<string>)
    ensures var limit := if maxDepth == None then 32 else if maxDepth.value < 1 then 1 else maxDepth.value;
      Followed(chains, limit, runs) && runs[0] == parent
    ensures target.runId == runs[|runs| - 1] && target.depth == |runs| - 1 && (target.continued <==> target.depth > 0)
    ensures if target.depth == 0 then target.jobId == None
            else
              Next(chains, runs[|runs| - 2]).Some?
              && target.jobId == Some(Next(chains, runs[|runs| - 2]).value.nextJobId)
  {
    hide Latest;
    var visited := {parent};
    var limit := Limit(maxDepth);
    var currentRunId, currentJobId, depth := parent, None, 0;
    runs := [parent];
    while depth < limit
      invariant 0 <= depth <= limit && depth == |runs| - 1
      invariant Path(chains, runs) && Distinct(runs) && runs[0] == parent && currentRunId == runs[depth]
      invariant forall run :: run in visited <==> run in runs
      invariant if depth == 0 then currentJobId == None
                else
                  Next(chains, runs[depth - 1]).Some?
                  && currentJobId == Some(Next(chains, runs[depth - 1]).value.nextJobId)
    {
      var continuation := LatestContinuation(ChainOf(chains, currentRunId));
      if continuation.None? || continuation.value.nextRunId in visited {
        break;
      }
      currentRunId := continuation.value.nextRunId;
      currentJobId := Some(continuation.value.nextJobId);
      visited := visited + {currentRunId};
      ghost var longer := runs + [currentRunId];
      forall k ensures LinkAt(chains, longer, k) {
        assert LinkAt(chains, runs, k);
      }
      runs := longer;
      depth := depth + 1;
    }
    target := Target(currentRunId, currentJobId, depth > 0, depth);
  }

  /** The runs followed are determined by the chains, the start and the limit. */
  lemma {:induction false} FollowedIsUnique(chains: Chains, limit: int, a: seq<string>, b: seq<string>)
    requires Followed(chains, limit, a) && Followed(chains, limit, b) && a[0] == b[0] && |a| <= |b|
    ensures a == b
  {
    PathsAgree(chains, a, b, |a|);
    assert a == a[..|a|] && LinkAt(chains, b, |a|);
    DistinctApart(b, |a|);
  }

  lemma DistinctApart(runs: seq<string>, n: nat)
    requires Distinct(runs) && n <= |runs|
    ensures forall m :: n <= m < |runs| ==> runs[m] !in runs[..n]
  {
  }

  lemma {:induction false} PathsAgree(chains: Chains, a: seq<string>, b: seq<string>, n: nat)
    requires Path(chains, a) && Path(chains, b) && a[0] == b[0] && 0 < n <= |a| <= |b|
    ensures a[..n] == b[..n]
  {
    if n > 1 {
      assert LinkAt(chains, a, n - 1) && LinkAt(chains, b, n - 1);
      PathsAgree(chains, a, b, n - 1);
      assert a[n - 2] == a[..n - 1][n - 2] == b[..n - 1][n - 2] == b[n - 2];
      assert a[..n] == a[..n - 1] + [a[n - 1]] && b[..n] == b[..n - 1] + [b[n - 1]];
    }
  }

  // ---------------------------------------------------------------------------------------------------------------
  // The budget ladder

  const LADDER := [10, 20, 40, 80]

  /** The first ladder value above the budget. */
  function NextBudget(current: int, ladder: seq<int>): (next: Option<int>)
    ensures next.Some? ==> next.value in ladder && next.value > current
    ensures next.None? ==> forall k :: 0 <= k < |ladder| ==> ladder[k] <= current
  {
    if ladder == [] then None
    else if ladder[0] > current then Some(ladder[0])
    else NextBudget(current, ladder[1..])
  }

  ghost predicate IsFirstAbove(current: int, ladder: seq<int>, k: int) {
    0 <= k < |ladder| && ladder[k] > current && forall m :: 0 <= m < k ==> ladder[m] <= current
  }

  /** The next budget is the first ladder value above the current one; there is none exactly when no value is above. */
  lemma {:induction false} NextBudgetIsFirst(current: int, ladder: seq<int>, k: int)
    ensures IsFirstAbove(current, ladder, k) ==> NextBudget(current, ladder) == Some(ladder[k])
    ensures NextBudget(current, ladder).None? <==> forall m :: 0 <= m < |ladder| ==> ladder[m] <= current
  {
    if ladder != [] && ladder[0] <= current {
      NextBudgetIsFirst(current, ladder[1..], k - 1);
      if NextBudget(current, ladder).Some? {
        var m :| 0 <= m < |ladder[1..]| && ladder[1..][m] == NextBudget(current, ladder).value;
        assert ladder[m + 1] > current;
      }
    }
  }

  /** How many ladder values lie above the budget. */
  function Above(current: int, ladder: seq<int>): nat {
    if ladder == [] then 0 else (if ladder[0] > current then 1 else 0) + Above(current, ladder[1..])
  }

  lemma {:induction false} AboveShrinks(current: int, next: int, ladder: seq<int>)
    requires current < next
    ensures Above(next, ladder) <= Above(current, ladder) <= |ladder|
    ensures next in ladder ==> Above(next, ladder) < Above(current, ladder)
  {
    if ladder != [] {
      AboveShrinks(current, next, ladder[1..]);
    }
  }

  /** How many continuations a run with the budget can have, one after the other. */
  function Links(current: int, ladder: seq<int>): nat
    decreases Above(current, ladder)
  {
    match NextBudget(current, ladder)
    case None => 0
    case Some(next) =>
      AboveShrinks(current, next, ladder);
      1 + Links(next, ladder)
  }

  ghost predicate Increasing(ladder: seq<int>) {
    forall i, j :: 0 <= i < j < |ladder| ==> ladder[i] < ladder[j]
  }

  /** A ladder allows at most as many links as it has values above the budget, and all of those if it is increasing. */
  lemma {:induction false} LinksAreAbove(current: int, ladder: seq<int>)
    ensures Links(current, ladder) <= Above(current, ladder)
    ensures Increasing(ladder) ==> Links(current, ladder) == Above(current, ladder)
    decreases Above(current, ladder)
  {
    var next := NextBudget(current, ladder);
    if next.Some? {
      AboveShrinks(current, next.value, ladder);
      LinksAreAbove(next.value, ladder);
      if Increasing(ladder) {
        AboveNext(current, ladder);
      }
    } else {
      NoneAbove(current, ladder);
    }
  }

  lemma {:induction false} NoneAbove(current: int, ladder: seq<int>)
    requires forall k :: 0 <= k < |ladder| ==> ladder[k] <= current
    ensures Above(current, ladder) == 0
  {
    if ladder != [] {
      NoneAbove(current, ladder[1..]);
    }
  }

  lemma {:induction false} AllAbove(current: int, ladder: seq<int>)
    requires forall k :: 0 <= k < |ladder| ==> ladder[k] > current
    ensures Above(current, ladder) == |ladder|
  {
    if ladder != [] {
      AllAbove(current, ladder[1..]);
    }
  }

  lemma {:induction false} AboveNext(current: int, ladder: seq<int>)
    requires Increasing(ladder) && NextBudget(current, ladder).Some?
    ensures Above(current, ladder) == 1 + Above(NextBudget(current, ladder).value, ladder)
  {
    if ladder[0] > current {
      AllAbove(ladder[0], ladder[1..]);
      AllAbove(current, ladder[1..]);
    } else {
      var next := NextBudget(current, ladder[1..]).value;
      AboveNext(current, ladder[1..]);
    }
  }

  // ---------------------------------------------------------------------------------------------------------------
  // Chains built by the ladder

  /** Every run's receipts and granted budget. */
  datatype World = World(chains: Chains, budgets: map<string, int>)

  datatype Step =
    | StartRun(run: string, budget: int)
    | Exhaust(run: string, stuck: bool, newRun: string, newJob: string)
    | Note(run: string)

  /** The budget handler emits a continuation unless the run is stuck or the ladder has nothing above its budget. */
  function After(world: World, step: Step, ladder: seq<int>): World {
    match step
    case StartRun(run, budget) => world.(budgets := world.budgets[run := budget])
    case Note(run) => world.(chains := world.chains[run := ChainOf(world.chains, run) + [OtherBody]])
    case Exhaust(run, stuck, newRun, newJob) =>
      if stuck || run !in world.budgets || NextBudget(world.budgets[run], ladder).None? then world
      else World(world.chains[run := ChainOf(world.chains, run) + [Continued(newRun, newJob)]],
                 world.budgets[newRun := NextBudget(world.budgets[run], ladder).value])
  }

  /** Run ids are never reused. */
  predicate Fresh(world: World, step: Step) {
    (step.StartRun? ==> step.run !in world.budgets) && (step.Exhaust? ==> step.newRun !in world.budgets)
  }

  function RunWorld(steps: seq<Step>, ladder: seq<int>): World {
    if steps == [] then World(map[], map[])
    else After(RunWorld(steps[..|steps| - 1], ladder), steps[|steps| - 1], ladder)
  }

  ghost predicate AllFresh(steps: seq<Step>, ladder: seq<int>) {
    forall i :: 0 <= i < |steps| ==> Fresh(RunWorld(steps[..i], ladder), steps[i])
  }

  /** A continuation leads to a run whose budget is the next one on the ladder. */
  predicate Climbs(world: World, ladder: seq<int>, run: string, body: Body) {
    body.Continued? ==>
      && run in world.budgets && body.nextRunId in world.budgets
      && NextBudget(world.budgets[run], ladder) == Some(world.budgets[body.nextRunId])
  }

  ghost predicate Climbing(world: World, ladder: seq<int>) {
    forall run, body :: body in ChainOf(world.chains, run) ==> Climbs(world, ladder, run, body)
  }

  lemma {:induction false} RunClimbs(steps: seq<Step>, ladder: seq<int>)
    requires AllFresh(steps, ladder)
    ensures Climbing(RunWorld(steps, ladder), ladder)
  {
    if steps != [] {
      var n := |steps| - 1;
      forall i | 0 <= i < n ensures Fresh(RunWorld(steps[..n][..i], ladder), steps[..n][i]) {
        assert steps[..n][..i] == steps[..i];
      }
      RunClimbs(steps[..n], ladder);
      assert Fresh(RunWorld(steps[..n], ladder), steps[n]);
      StepClimbs(RunWorld(steps[..n], ladder), steps[n], ladder);
    }
  }

  lemma StepClimbs(world: World, step: Step, ladder: seq<int>)
    requires Climbing(world, ladder) && Fresh(world, step)
    ensures Climbing(After(world, step, ladder), ladder)
  {
    hide NextBudget;
    var after := After(world, step, ladder);
    forall run, body | body in ChainOf(after.chains, run) ensures Climbs(after, ladder, run, body) {
      if body in ChainOf(world.chains, run) {
        assert Climbs(world, ladder, run, body);
      }
    }
  }

  /** An exhausted run that is not stuck continues, with the first ladder value above its budget, as the new run;
      without such a value, or when stuck, nothing happens. */
  lemma ExhaustedContinues(world: World, run: string, stuck: bool, newRun: string, newJob: string, ladder: seq<int>,
                           k: int)
    requires run in world.budgets && newRun !in world.budgets
    ensures var after := After(world, Exhaust(run, stuck, newRun, newJob), ladder);
      && (stuck || (forall m :: 0 <= m < |ladder| ==> ladder[m] <= world.budgets[run]) ==> after == world)
      && (!stuck && IsFirstAbove(world.budgets[run], ladder, k) ==>
            && Next(after.chains, run) == Some(Continued(newRun, newJob))
            && after.budgets == world.budgets[newRun := ladder[k]]
            && forall other :: other != run ==> ChainOf(after.chains, other) == ChainOf(world.chains, other))
  {
    NextBudgetIsFirst(world.budgets[run], ladder, k);
  }

  lemma LatestIsThere(chain: seq<Body>)
    ensures Latest(chain).Some? ==> Latest(chain).value in chain
  {
  }

  lemma LinkClimbs(world: World, ladder: seq<int>, run: string)
    requires Climbing(world, ladder) && Next(world.chains, run).Some?
    ensures var next := Next(world.chains, run).value.nextRunId;
      && run in world.budgets && next in world.budgets && world.budgets[run] < world.budgets[next]
      && Links(world.budgets[run], ladder) == 1 + Links(world.budgets[next], ladder)
  {
    var body := Next(world.chains, run).value;
    LatestIsThere(ChainOf(world.chains, run));
    assert Climbs(world, ladder, run, body);
  }

  /** Following a chain climbs the ladder: the links left go down by one with every run, and no run comes twice. */
  lemma {:induction false} PathClimbs(world: World, ladder: seq<int>, runs: seq<string>)
    requires Climbing(world, ladder) && Path(world.chains, runs) && runs[0] in world.budgets
    ensures forall k :: 0 <= k < |runs| ==> runs[k] in world.budgets
    ensures |runs| - 1 + Links(world.budgets[runs[|runs| - 1]], ladder) == Links(world.budgets[runs[0]], ladder)
    ensures forall k :: 0 <= k < |runs| - 1 ==> world.budgets[runs[k]] < world.budgets[runs[|runs| - 1]]
  {
    hide Links, Climbing, NextBudget, Next;
    var n := |runs| - 1;
    if n > 0 {
      var shorter := runs[..n];
      assert LinkAt(world.chains, runs, n);
      forall k ensures LinkAt(world.chains, shorter, k) {
        assert LinkAt(world.chains, runs, k);
      }
      PathClimbs(world, ladder, shorter);
      LinkClimbs(world, ladder, runs[n - 1]);
      forall k | 0 <= k < n ensures runs[k] in world.budgets && world.budgets[runs[k]] < world.budgets[runs[n]] {
        assert shorter[k] == runs[k];
      }
    }
  }

  lemma NextIsNew(world: World, ladder: seq<int>, runs: seq<string>)
    requires Climbing(world, ladder) && Path(world.chains, runs) && runs[0] in world.budgets
    requires Next(world.chains, runs[|runs| - 1]).Some?
    ensures runs[|runs| - 1] in world.budgets && Links(world.budgets[runs[|runs| - 1]], ladder) > 0
    ensures Next(world.chains, runs[|runs| - 1]).value.nextRunId !in runs
  {
    hide Climbing, NextBudget, Next;
    LinkClimbs(world, ladder, runs[|runs| - 1]);
    PathClimbs(world, ladder, runs);
  }

  /** With fresh run ids, following the continuations of any run with a limit no smaller than the ladder values above
      its budget always ends at a run that was not continued. */
  lemma ResolvesToTheEnd(steps: seq<Step>, ladder: seq<int>, limit: int, runs: seq<string>)
    requires AllFresh(steps, ladder) && Followed(RunWorld(steps, ladder).chains, limit, runs)
    requires runs[0] in RunWorld(steps, ladder).budgets
    requires Above(RunWorld(steps, ladder).budgets[runs[0]], ladder) <= limit
    ensures Next(RunWorld(steps, ladder).chains, runs[|runs| - 1]).None?
    ensures |runs| - 1 <= Above(RunWorld(steps, ladder).budgets[runs[0]], ladder)
  {
    var world := RunWorld(steps, ladder);
    RunClimbs(steps, ladder);
    PathClimbs(world, ladder, runs);
    LinksAreAbove(world.budgets[runs[0]], ladder);
    if Next(world.chains, runs[|runs| - 1]).Some? {
      NextIsNew(world, ladder, runs);
    }
  }

  lemma StockAbove(budget: int)
    ensures Above(budget, LADDER)
      == if budget < 10 then 4 else if budget < 20 then 3 else if budget < 40 then 2 else if budget < 80 then 1 else 0
  {
    assert LADDER[1..] == [20, 40, 80] && [20, 40, 80][1..] == [40, 80] && [40, 80][1..] == [80] && [80][1..] == [];
    assert Above(budget, [80]) == if budget < 80 then 1 else 0;
    assert Above(budget, [40, 80]) == (if budget < 40 then 1 else 0) + Above(budget, [80]);
    assert Above(budget, [20, 40, 80]) == (if budget < 20 then 1 else 0) + Above(budget, [40, 80]);
  }

  /** With the ladder 10, 20, 40, 80 a chain has at most four links, so the default limit always reaches its end. */
  lemma DefaultLimitSuffices(steps: seq<Step>, runs: seq<string>)
    requires AllFresh(steps, LADDER) && Followed(RunWorld(steps, LADDER).chains, Limit(None), runs)
    requires runs[0] in RunWorld(steps, LADDER).budgets
    ensures Next(RunWorld(steps, LADDER).chains, runs[|runs| - 1]).None?
    ensures var budget := RunWorld(steps, LADDER).budgets[runs[0]];
      |runs| - 1
      <= if budget < 10 then 4 else if budget < 20 then 3 else if budget < 40 then 2 else if budget < 80 then 1 else 0
  {
    hide Above, AllFresh, RunWorld, Next;
    StockAbove(RunWorld(steps, LADDER).budgets[runs[0]]);
    ResolvesToTheEnd(steps, LADDER, Limit(None), runs);
  }
}
