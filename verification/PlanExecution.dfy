/**
 A plan carried out: every planned map that is still stored is a task, the uncached part of
 each is asked for, and the whole never exceeds what the planner budgeted.
 */
module PlanExecution {
  import opened Domain
  import opened Observation
  import opened Planner
  import opened PlanContents
  import opened Prefetcher
  import opened Readahead

  // The planned bytes.
  function SumLengths(ids: seq<MapId>, maps: map<MapId, MapSegment>): nat {
    SumOver(ids, Lengths(maps))
  }

  // Whatever the strategy, the maps of a plan are together as long as the chosen items.
  lemma PlanLength(items: seq<Item>, picks: seq<bool>, maps: map<MapId, MapSegment>, strategy: SortStrategy, less: (Path, Path) -> bool)
    requires Live(items, picks, maps)
    ensures SumLengths(Ids(Ordered(Chosen(items, picks, maps, strategy), strategy, less)), maps) == Bytes(items, picks, maps)
  {
    PlanSum(items, picks, maps, strategy, less, Lengths(maps));
    BytesPicked(items, picks, maps);
  }

  /* ---------- the tasks ---------- */

  // The planned maps that are still stored, in plan order.
  function Tasks(ids: seq<MapId>, maps: map<MapId, MapSegment>): (tasks: seq<MapId>)
    ensures forall i :: 0 <= i < |tasks| ==> tasks[i] in maps
  {
    if ids == [] then [] else (if ids[0] in maps then [ids[0]] else []) + Tasks(ids[1..], maps)
  }

  lemma {:induction false} TasksLength(ids: seq<MapId>, maps: map<MapId, MapSegment>)
    ensures SumLengths(Tasks(ids, maps), maps) == SumLengths(ids, maps)
  {
    if ids != [] {
      TasksLength(ids[1..], maps);
      var head, rest := if ids[0] in maps then [ids[0]] else [], Tasks(ids[1..], maps);
      assert Tasks(ids, maps) == head + rest;
      if ids[0] in maps {
        assert (head + rest)[1..] == rest;
      } else {
        assert head + rest == rest;
      }
    }
  }

  function KeysOf(tasks: seq<MapId>, maps: map<MapId, MapSegment>): (keys: seq<MapKey>)
    requires forall i :: 0 <= i < |tasks| ==> tasks[i] in maps
    ensures |keys| == |tasks|
  {
    seq(|tasks|, i requires 0 <= i < |tasks| => maps[tasks[i]].Key())
  }

  // What the kernel says about one map: its cached pages, and which calls it takes.
  datatype World = World(answer: CacheAnswer, kernel: Kernel)

  // The page cache gives one answer for each page of a map, if it answers at all.
  predicate Answers(w: World, s: MapSegment, pageSize: nat) {
    w.answer.Bitmap? && pageSize > 0 && s.length > 0 ==> |w.answer.cached| == PageCount(s.offset, s.length, pageSize)
  }

  // The calls made for one map ask for each of its uncached bytes once if all went
  // well, and otherwise at most once; they ask for nothing else.  It goes well unless the
  // kernel refuses.
  ghost predicate AsksFor(calls: seq<Range>, ok: bool, s: MapSegment, pageSize: nat, w: World) {
    && (forall b :: Requests(calls, b) <= if Uncached(b, s.offset, s.length, pageSize, w.answer) then 1 else 0)
    && (ok ==> forall b :: Requests(calls, b) == if Uncached(b, s.offset, s.length, pageSize, w.answer) then 1 else 0)
    && (if ok then AllAccepted(calls, w.kernel.accepts) else Refused(calls, w.kernel))
  }

  function TotalVolume(calls: seq<seq<Range>>): int {
    if calls == [] then 0 else TotalVolume(calls[..|calls| - 1]) + Volume(calls[|calls| - 1])
  }

  datatype Report = Report(numMaps: nat, totalBytes: U64, failures: seq<MapKey>)

  // One task: the uncached ranges of its map, until an error.
  method RunTask(s: MapSegment, pageSize: nat, w: World) returns (ok: bool, calls: seq<Range>)
    requires Answers(w, s, pageSize)
    ensures AsksFor(calls, ok, s, pageSize, w) && Volume(calls) <= s.length
  {
    hide Uncached, PageCount;
    ok, calls := PrefetchMap(s.offset, s.length, pageSize, w.answer, w.kernel);
  }

  // What the tasks asked for, and which of them succeeded.
  ghost predicate Ran(tasks: seq<MapId>, maps: map<MapId, MapSegment>, pageSize: nat, world: MapId -> World,
                      succeeded: seq<bool>, calls: seq<seq<Range>>)
  {
    && |succeeded| == |calls| == |tasks|
    && forall i :: 0 <= i < |tasks| ==>
         tasks[i] in maps && AsksFor(calls[i], succeeded[i], maps[tasks[i]], pageSize, world(tasks[i]))
  }

  lemma RanOneMore(tasks: seq<MapId>, maps: map<MapId, MapSegment>, pageSize: nat, world: MapId -> World,
                   succeeded: seq<bool>, calls: seq<seq<Range>>, id: MapId, ok: bool, asked: seq<Range>)
    requires Ran(tasks, maps, pageSize, world, succeeded, calls) && id in maps
    requires AsksFor(asked, ok, maps[id], pageSize, world(id))
    ensures Ran(tasks + [id], maps, pageSize, world, succeeded + [ok], calls + [asked])
    ensures TotalVolume(calls + [asked]) == TotalVolume(calls) + Volume(asked)
    ensures SumLengths(tasks + [id], maps) == SumLengths(tasks, maps) + maps[id].length
  {
    SumAppend(tasks, id, Lengths(maps));
    assert (calls + [asked])[..|calls|] == calls;
    hide AsksFor, SumLengths, Volume;
  }

  // Every task in plan order, with what its calls asked for.
  method RunTasks(tasks: seq<MapId>, maps: map<MapId, MapSegment>, pageSize: nat, world: MapId -> World)
    returns (succeeded: seq<bool>, calls: seq<seq<Range>>)
    requires forall i :: 0 <= i < |tasks| ==> tasks[i] in maps && Answers(world(tasks[i]), maps[tasks[i]], pageSize)
    ensures Ran(tasks, maps, pageSize, world, succeeded, calls)
    ensures TotalVolume(calls) <= SumLengths(tasks, maps)
  {
    succeeded, calls := [], [];
    assert tasks[..0] == [];
    for i := 0 to |tasks|
      invariant Ran(tasks[..i], maps, pageSize, world, succeeded, calls)
      invariant TotalVolume(calls) <= SumLengths(tasks[..i], maps)
    {
      hide Ran, AsksFor, Answers, TotalVolume, SumLengths, Volume;
      var ok, asked := RunTask(maps[tasks[i]], pageSize, world(tasks[i]));
      RanOneMore(tasks[..i], maps, pageSize, world, succeeded, calls, tasks[i], ok, asked);
      assert tasks[..i + 1] == tasks[..i] + [tasks[i]];
      succeeded, calls := succeeded + [ok], calls + [asked];
    }
    assert tasks[..|tasks|] == tasks;
  }

  // The report speaks of those heard of, at most one of each batch, and of nobody else.
  ghost predicate Tallied(report: Report, keys: seq<MapKey>, succeeded: seq<bool>, concurrency: nat) {
    && |succeeded| == |keys|
    && exists heard: seq<nat> ::
         && (forall i :: 0 <= i < |heard| ==> heard[i] < |keys|)
         && (forall i, j :: 0 <= i < j < |heard| ==> heard[i] < heard[j])
         && |heard| == Batches(|keys|, if concurrency == 0 then 1 else concurrency)
         && report.failures == FailuresOf(keys, succeeded, heard)
         && report.numMaps + |report.failures| == |heard|
  }

  // Carry out a plan.  Each task asks for the uncached bytes of its own map, the report
  // tallies those heard of, and in all no more is asked for than the plan is long.
  method ExecutePlan(plan: Plan, maps: map<MapId, MapSegment>, pageSize: nat, concurrency: nat, world: MapId -> World)
    returns (report: Report, succeeded: seq<bool>, calls: seq<seq<Range>>)
    requires forall id :: id in maps ==> Answers(world(id), maps[id], pageSize)
    ensures var tasks := Tasks(plan.maps, maps);
            && Ran(tasks, maps, pageSize, world, succeeded, calls)
            && Tallied(report, KeysOf(tasks, maps), succeeded, concurrency)
            && (forall k :: k in report.failures ==> exists i :: 0 <= i < |tasks| && maps[tasks[i]].Key() == k && !succeeded[i])
    ensures TotalVolume(calls) <= SumLengths(plan.maps, maps)
    ensures report.totalBytes == plan.totalBytes
  {
    hide AsksFor, Answers, SumLengths;
    var tasks := Tasks(plan.maps, maps);
    TasksLength(plan.maps, maps);
    succeeded, calls := RunTasks(tasks, maps, pageSize, world);
    var keys := KeysOf(tasks, maps);
    var numMaps, failures;
    ghost var heard;
    numMaps, failures, heard := ExecuteConcurrent(keys, succeeded, concurrency);
    forall k | k in failures
      ensures exists i :: 0 <= i < |tasks| && maps[tasks[i]].Key() == k && !succeeded[i]
    {
      FailuresFailed(keys, succeeded, heard, k);
      var i :| 0 <= i < |heard| && keys[heard[i]] == k && !succeeded[heard[i]];
      assert maps[tasks[heard[i]]].Key() == k;
    }
    report := Report(numMaps, plan.totalBytes, failures);
  }

  // Plan and carry out: what serves the scores is asked for, within the memory budget.
  method PlanAndExecute(scores: map<MapId, real>, maps: map<MapId, MapSegment>, mem: MemStat, policy: MemoryPolicy,
                        strategy: SortStrategy, less: (Path, Path) -> bool,
                        pageSize: nat, concurrency: nat, world: MapId -> World)
    returns (plan: Plan, report: Report, succeeded: seq<bool>, calls: seq<seq<Range>>)
    requires StrictTotal(less) && AvailableKb(policy, mem) < KIB_MAX
    requires forall id :: id in maps ==> Answers(world(id), maps[id], pageSize)
    ensures Serves(plan, maps, scores, AvailableKb(policy, mem), strategy, less)
    ensures var tasks := Tasks(plan.maps, maps);
            tasks == plan.maps && Ran(tasks, maps, pageSize, world, succeeded, calls)
            && Tallied(report, KeysOf(tasks, maps), succeeded, concurrency)
    ensures TotalVolume(calls) <= plan.totalBytes <= plan.budgetBytes == 1024 * AvailableKb(policy, mem)
    ensures report.totalBytes == plan.totalBytes
  {
    hide StrictTotal, Answers, AvailableKb, Bytes, Greedy, Chosen, Ordered, AsksFor, Ranking, Planned, SumLengths, TotalVolume, Ran,
         Tallied, Serves;
    ghost var items, picks;
    plan, items, picks := MakePlan(scores, maps, mem, policy, strategy, less);
    PlanLength(items, picks, maps, strategy, less);
    PlanServes(plan, items, picks, maps, scores, AvailableKb(policy, mem), strategy, less);
    AllLive(plan, maps, scores, AvailableKb(policy, mem), strategy, less);
    report, succeeded, calls := ExecutePlan(plan, maps, pageSize, concurrency, world);
  }

  // Every planned map is a task.
  lemma AllLive(plan: Plan, maps: map<MapId, MapSegment>, scores: map<MapId, real>, budget: nat, strategy: SortStrategy,
                less: (Path, Path) -> bool)
    requires Serves(plan, maps, scores, budget, strategy, less)
    ensures Tasks(plan.maps, maps) == plan.maps
  {
    hide Crowded, ReadsBefore;
    TasksAreAll(plan.maps, maps);
  }

  lemma {:induction false} TasksAreAll(ids: seq<MapId>, maps: map<MapId, MapSegment>)
    requires forall i :: 0 <= i < |ids| ==> ids[i] in maps
    ensures Tasks(ids, maps) == ids
  {
    if ids != [] {
      TasksAreAll(ids[1..], maps);
    }
  }
}
