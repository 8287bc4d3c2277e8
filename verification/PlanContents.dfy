/**
 What a plan contains, told by the maps and their scores alone: everything with a score that
 the better ones leave room for, within the budget, in the order of the strategy.
 */
module PlanContents {
  import opened Domain
  import opened Planner

  /* ---------- sums over the maps of a plan ---------- */

  function SumOver(ids: seq<MapId>, size: MapId -> nat): nat {
    if ids == [] then 0 else size(ids[0]) + SumOver(ids[1..], size)
  }

  lemma {:induction false} SumAppend(ids: seq<MapId>, id: MapId, size: MapId -> nat)
    ensures SumOver(ids + [id], size) == SumOver(ids, size) + size(id)
  {
    if ids != [] {
      SumAppend(ids[1..], id, size);
      assert (ids + [id])[1..] == ids[1..] + [id];
    }
  }

  lemma {:induction false} SumInsert(xs: seq<Selected>, x: Selected, size: MapId -> nat, less: (Path, Path) -> bool)
    ensures SumOver(Ids(Insert(xs, x, less)), size) == SumOver(Ids(xs), size) + size(x.id)
  {
    hide Before;
    if xs == [] || Before(x, xs[0], less) {
      assert Ids([x] + xs)[1..] == Ids(xs);
    } else {
      SumInsert(xs[1..], x, size, less);
      assert Ids(xs)[1..] == Ids(xs[1..]);
      assert Ids([xs[0]] + Insert(xs[1..], x, less))[1..] == Ids(Insert(xs[1..], x, less));
    }
  }

  lemma {:induction false} SumSorted(xs: seq<Selected>, size: MapId -> nat, less: (Path, Path) -> bool)
    ensures SumOver(Ids(SortSelected(xs, less)), size) == SumOver(Ids(xs), size)
  {
    if xs != [] {
      var n := |xs| - 1;
      SumSorted(xs[..n], size, less);
      SumInsert(SortSelected(xs[..n], less), xs[n], size, less);
      SumAppend(Ids(xs[..n]), xs[n].id, size);
      assert Ids(xs) == Ids(xs[..n]) + [xs[n].id];
    }
  }

  // The sizes of the items that were picked.
  function PickedSum(items: seq<Item>, picks: seq<bool>, size: MapId -> nat): nat
    requires |picks| == |items|
  {
    if items == [] then 0
    else
      var n := |items| - 1;
      PickedSum(items[..n], picks[..n], size) + if picks[n] then size(items[n].id) else 0
  }

  lemma {:induction false} SumChosen(items: seq<Item>, picks: seq<bool>, maps: map<MapId, MapSegment>, strategy: SortStrategy,
                                     size: MapId -> nat)
    requires Live(items, picks, maps)
    ensures SumOver(Ids(Chosen(items, picks, maps, strategy)), size) == PickedSum(items, picks, size)
    decreases |items|
  {
    if items != [] {
      var n := |items| - 1;
      SumChosen(items[..n], picks[..n], maps, strategy, size);
      var before := Chosen(items[..n], picks[..n], maps, strategy);
      if picks[n] {
        SumAppend(Ids(before), items[n].id, size);
        assert Ids(Chosen(items, picks, maps, strategy)) == Ids(before) + [items[n].id];
      }
    }
  }

  // The maps of a plan, in whatever order.
  function PlannedIds(items: seq<Item>, picks: seq<bool>, maps: map<MapId, MapSegment>, strategy: SortStrategy,
                      less: (Path, Path) -> bool): seq<MapId>
    requires Live(items, picks, maps)
  {
    Ids(Ordered(Chosen(items, picks, maps, strategy), strategy, less))
  }

  // Sums over a plan are sums over what was picked.
  lemma PlanSum(items: seq<Item>, picks: seq<bool>, maps: map<MapId, MapSegment>, strategy: SortStrategy,
                less: (Path, Path) -> bool, size: MapId -> nat)
    requires Live(items, picks, maps)
    ensures SumOver(PlannedIds(items, picks, maps, strategy, less), size) == PickedSum(items, picks, size)
  {
    SumChosen(items, picks, maps, strategy, size);
    SumSorted(Chosen(items, picks, maps, strategy), size, less);
  }

  function LengthOf(id: MapId, maps: map<MapId, MapSegment>): nat {
    if id in maps then maps[id].length else 0
  }

  function Lengths(maps: map<MapId, MapSegment>): MapId -> nat {
    id => LengthOf(id, maps)
  }

  lemma {:induction false} BytesPicked(items: seq<Item>, picks: seq<bool>, maps: map<MapId, MapSegment>)
    requires Live(items, picks, maps)
    ensures Bytes(items, picks, maps) == PickedSum(items, picks, Lengths(maps))
    decreases |items|
  {
    if items != [] {
      BytesPicked(items[..|items| - 1], picks[..|items| - 1], maps);
    }
  }

  /* ---------- what is left of the budget ---------- */

  // What a map costs if its score is at least `least`; of the others nothing is counted.
  function Costing(maps: map<MapId, MapSegment>, scores: map<MapId, real>, least: real): MapId -> nat {
    id => if id in maps && id in scores && scores[id] >= least then Kb(maps[id].length) else 0
  }

  lemma {:induction false} CostPicked(items: seq<Item>, picks: seq<bool>, maps: map<MapId, MapSegment>,
                                      scores: map<MapId, real>, least: real)
    requires Live(items, picks, maps)
    requires forall i :: 0 <= i < |items| ==> items[i].id in scores && scores[items[i].id] >= least
    ensures CostOf(CostsOf(items, maps), picks) == PickedSum(items, picks, Costing(maps, scores, least))
    decreases |items|
  {
    if items != [] {
      var n := |items| - 1;
      CostPicked(items[..n], picks[..n], maps, scores, least);
      var costs := CostsOf(items, maps);
      assert costs[..n] == CostsOf(items[..n], maps);
      assert costs == costs[..n] + [costs[n]] && picks == picks[..n] + [picks[n]];
      CostAppend(costs[..n], picks[..n], costs[n], picks[n]);
    }
  }

  lemma {:induction false} PrefixSum(items: seq<Item>, picks: seq<bool>, size: MapId -> nat, i: nat)
    requires |picks| == |items| && i <= |items|
    ensures PickedSum(items[..i], picks[..i], size) <= PickedSum(items, picks, size)
    decreases |items|
  {
    if i == |items| {
      assert items[..i] == items && picks[..i] == picks;
    } else {
      var n := |items| - 1;
      PrefixSum(items[..n], picks[..n], size, i);
      assert items[..n][..i] == items[..i] && picks[..n][..i] == picks[..i];
    }
  }

  // What was passed over did not fit beside what had been picked before it.
  lemma {:induction false} GreedyNoRoomBefore(costs: Costs, budget: nat, i: nat)
    requires i < |costs| && costs[i].Some? && !Greedy(costs, budget)[i]
    ensures CostOf(costs[..i], Greedy(costs, budget)[..i]) + costs[i].value > budget
  {
    if i > 0 {
      var g := Greedy(costs, budget);
      var rest := if g[0] then budget - costs[0].value else budget;
      assert g[1..] == Greedy(costs[1..], rest);
      GreedyNoRoomBefore(costs[1..], rest, i - 1);
      assert costs[..i][1..] == costs[1..][..i - 1] && g[..i][1..] == g[1..][..i - 1];
    }
  }

  // Map `id` does not fit beside the planned maps that score no worse.
  ghost predicate Crowded(ids: seq<MapId>, maps: map<MapId, MapSegment>, scores: map<MapId, real>, budget: nat, id: MapId)
    requires id in maps && id in scores
  {
    SumOver(ids, Costing(maps, scores, scores[id])) + Kb(maps[id].length) > budget
  }

  lemma PassedOverCrowded(items: seq<Item>, picks: seq<bool>, maps: map<MapId, MapSegment>, scores: map<MapId, real>,
                          budget: nat, strategy: SortStrategy, less: (Path, Path) -> bool, i: nat)
    requires Ranking(items, scores) && Live(items, picks, maps) && picks == Greedy(CostsOf(items, maps), budget)
    requires i < |items| && items[i].id in maps && !picks[i]
    ensures items[i].id in scores && Crowded(PlannedIds(items, picks, maps, strategy, less), maps, scores, budget, items[i].id)
  {
    var costs := CostsOf(items, maps);
    assert items[i] in items;
    var least := scores[items[i].id];
    forall j | 0 <= j < i
      ensures items[j].id in scores && scores[items[j].id] >= least
    {
      assert items[j] in items;
    }
    hide Ranking, PlannedIds;
    GreedyNoRoomBefore(costs, budget, i);
    assert costs[..i] == CostsOf(items[..i], maps);
    CostPicked(items[..i], picks[..i], maps, scores, least);
    PrefixSum(items, picks, Costing(maps, scores, least), i);
    PlanSum(items, picks, maps, strategy, less, Costing(maps, scores, least));
  }

  /* ---------- the plan ---------- */

  // The first is read no later than the second by the order of the strategy.
  ghost predicate ReadsBefore(s: MapSegment, t: MapSegment, strategy: SortStrategy, less: (Path, Path) -> bool) {
    match strategy
    case Unsorted => true
    case ByPath => s.path == t.path || less(s.path, t.path)
    case ByBlock => Known(t) ==> Known(s) && LexLe(s.device, s.offset, t.device, t.offset)
    case ByInode => Known(t) ==> Known(s) && LexLe(s.device, s.inode, t.device, t.inode)
                                 && (s.device == t.device && s.inode == t.inode ==> s.offset <= t.offset)
  }

  // Every map at most once, best first, and equal scores as the disk likes them.
  ghost predicate WellOrdered(ids: seq<MapId>, maps: map<MapId, MapSegment>, scores: map<MapId, real>,
                              strategy: SortStrategy, less: (Path, Path) -> bool)
  {
    && (forall i :: 0 <= i < |ids| ==> ids[i] in maps && ids[i] in scores && scores[ids[i]] > 0.0)
    && (forall i, j :: 0 <= i < j < |ids| ==>
          && ids[i] != ids[j] && scores[ids[i]] >= scores[ids[j]]
          && (scores[ids[i]] == scores[ids[j]] ==> ReadsBefore(maps[ids[i]], maps[ids[j]], strategy, less)))
  }

  // The whole of a plan for `budget` KiB: it is in order, it fits, whatever scores and is not
  // in it does not fit beside the planned maps that score no worse, and its sums are right.
  ghost predicate Serves(plan: Plan, maps: map<MapId, MapSegment>, scores: map<MapId, real>, budget: nat,
                         strategy: SortStrategy, less: (Path, Path) -> bool)
  {
    && WellOrdered(plan.maps, maps, scores, strategy, less)
    && SumOver(plan.maps, Costing(maps, scores, 0.0)) <= budget
    && (forall id :: id in maps && id in scores && scores[id] > 0.0 && id !in plan.maps ==>
          Crowded(plan.maps, maps, scores, budget, id))
    && plan.totalBytes == Cap(SumOver(plan.maps, Lengths(maps)))
    && (budget < KIB_MAX ==> plan.budgetBytes == 1024 * budget)
  }

  lemma OrderedScored(items: seq<Item>, picks: seq<bool>, maps: map<MapId, MapSegment>, scores: map<MapId, real>,
                      strategy: SortStrategy, less: (Path, Path) -> bool)
    requires StrictTotal(less) && Ranking(items, scores) && Live(items, picks, maps)
    ensures Scored(Ordered(Chosen(items, picks, maps, strategy), strategy, less), scores)
  {
    assert forall i :: 0 <= i < |items| ==> items[i] in items;
    ChosenFacts(items, picks, maps, strategy, scores);
    var xs := Chosen(items, picks, maps, strategy);
    hide Chosen, Ordered, StrictTotal, Ranking, Live, Descending, Scored;
    OrderedFacts(xs, strategy, scores, less);
    ScoredAgain(xs, Ordered(xs, strategy, less), scores);
  }

  lemma PlannedPositive(ids: seq<MapId>, items: seq<Item>, picks: seq<bool>, maps: map<MapId, MapSegment>, scores: map<MapId, real>)
    requires Ranking(items, scores) && Live(items, picks, maps) && Planned(ids, items, picks, scores)
    ensures forall i :: 0 <= i < |ids| ==> ids[i] in maps && ids[i] in scores && scores[ids[i]] > 0.0
  {
    hide BestFirst, Descending;
    forall i | 0 <= i < |ids|
      ensures ids[i] in maps && ids[i] in scores && scores[ids[i]] > 0.0
    {
      assert ids[i] in ids;
      var j :| 0 <= j < |items| && picks[j] && items[j].id == ids[i];
      assert items[j] in items;
    }
  }

  lemma TiesInDiskOrder(items: seq<Item>, picks: seq<bool>, maps: map<MapId, MapSegment>, scores: map<MapId, real>,
                        strategy: SortStrategy, less: (Path, Path) -> bool, i: nat, j: nat)
    requires StrictTotal(less) && Ranking(items, scores) && Live(items, picks, maps)
    requires var ids := PlannedIds(items, picks, maps, strategy, less);
             i < j < |ids| && ids[i] in scores && ids[j] in scores && scores[ids[i]] == scores[ids[j]]
    ensures var ids := PlannedIds(items, picks, maps, strategy, less);
            ids[i] in maps && ids[j] in maps && ReadsBefore(maps[ids[i]], maps[ids[j]], strategy, less)
  {
    hide StrictTotal, Ranking, Live, Ordered, Chosen;
    OrderedScored(items, picks, maps, scores, strategy, less);
    PlanReadsInDiskOrder(items, picks, maps, scores, strategy, less, i, j);
  }

  lemma PlanOrdered(items: seq<Item>, picks: seq<bool>, maps: map<MapId, MapSegment>, scores: map<MapId, real>,
                    strategy: SortStrategy, less: (Path, Path) -> bool)
    requires StrictTotal(less) && Ranking(items, scores) && Live(items, picks, maps)
    requires Planned(PlannedIds(items, picks, maps, strategy, less), items, picks, scores)
    ensures WellOrdered(PlannedIds(items, picks, maps, strategy, less), maps, scores, strategy, less)
  {
    var ids := PlannedIds(items, picks, maps, strategy, less);
    PlannedPositive(ids, items, picks, maps, scores);
    assert Descending(ids, scores);
    hide StrictTotal, Ranking, Live, PlannedIds, ReadsBefore, Planned;
    forall i, j | 0 <= i < j < |ids|
      ensures ids[i] != ids[j] && scores[ids[i]] >= scores[ids[j]]
      ensures scores[ids[i]] == scores[ids[j]] ==> ReadsBefore(maps[ids[i]], maps[ids[j]], strategy, less)
    {
      if scores[ids[i]] == scores[ids[j]] {
        TiesInDiskOrder(items, picks, maps, scores, strategy, less, i, j);
      }
    }
  }

  lemma PlanFits(items: seq<Item>, picks: seq<bool>, maps: map<MapId, MapSegment>, scores: map<MapId, real>,
                 budget: nat, strategy: SortStrategy, less: (Path, Path) -> bool)
    requires Ranking(items, scores) && Live(items, picks, maps) && picks == Greedy(CostsOf(items, maps), budget)
    ensures var ids := PlannedIds(items, picks, maps, strategy, less);
            SumOver(ids, Costing(maps, scores, 0.0)) <= budget && SumOver(ids, Lengths(maps)) == Bytes(items, picks, maps)
  {
    assert forall i :: 0 <= i < |items| ==> items[i] in items;
    CostPicked(items, picks, maps, scores, 0.0);
    GreedyFeasible(CostsOf(items, maps), budget);
    hide PlannedIds, Ranking;
    PlanSum(items, picks, maps, strategy, less, Costing(maps, scores, 0.0));
    PlanSum(items, picks, maps, strategy, less, Lengths(maps));
    BytesPicked(items, picks, maps);
  }

  // What the planner makes serves its purpose.
  lemma PlanServes(plan: Plan, items: seq<Item>, picks: seq<bool>, maps: map<MapId, MapSegment>, scores: map<MapId, real>,
                   budget: nat, strategy: SortStrategy, less: (Path, Path) -> bool)
    requires StrictTotal(less) && Ranking(items, scores) && Live(items, picks, maps)
    requires picks == Greedy(CostsOf(items, maps), budget)
    requires plan.maps == PlannedIds(items, picks, maps, strategy, less) && Planned(plan.maps, items, picks, scores)
    requires plan.totalBytes == Cap(Bytes(items, picks, maps))
    requires budget < KIB_MAX ==> plan.budgetBytes == 1024 * budget
    ensures Serves(plan, maps, scores, budget, strategy, less)
  {
    PlanOrdered(items, picks, maps, scores, strategy, less);
    forall id | id in maps && id in scores && scores[id] > 0.0 && id !in plan.maps
      ensures Crowded(plan.maps, maps, scores, budget, id)
    {
      var i :| 0 <= i < |items| && items[i] == Item(id, scores[id]);
      PassedOverCrowded(items, picks, maps, scores, budget, strategy, less, i);
    }
    hide PlannedIds, Ranking, StrictTotal, Crowded, WellOrdered, Planned;
    PlanFits(items, picks, maps, scores, budget, strategy, less);
  }
}
