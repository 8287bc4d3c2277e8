/**
 The prefetch plan: a greedy choice of maps by score under a memory budget, then a sort
 that breaks ties for the sake of the disk.
 */
module Planner {
  import opened Domain
  import opened Observation
  import opened Model
  import opened Predictor

  /* ---------- the budget ---------- */

  // Division as the source performs it on signed numbers: toward zero.
  function TruncDiv(x: int, y: int): (r: int)
    requires y > 0
    ensures x >= 0 ==> r * y <= x < r * y + y
    ensures x <= 0 ==> r * y - y < x <= r * y
  {
    if x >= 0 then x / y else -((-x) / y)
  }

  // A size in KiB of something measured in bytes by a 64-bit counter.
  const KIB_MAX: int := 0x40_0000_0000_0000

  datatype MemoryPolicy = MemoryPolicy(memtotal: int, memavailable: int)

  function ClampPercent(x: int): (r: int)
    ensures -100 <= r <= 100
    ensures -100 <= x <= 100 ==> r == x
  {
    if x < -100 then -100 else if x > 100 then 100 else x
  }

  function AvailableKb(policy: MemoryPolicy, mem: MemStat): nat {
    var budget := TruncDiv(ClampPercent(policy.memtotal) * mem.total, 100)
                  + TruncDiv(ClampPercent(policy.memavailable) * mem.available, 100);
    if budget < 0 then 0 else budget
  }

  lemma PercentBounded(p: int, x: int)
    requires -100 <= p <= 100 && 0 <= x
    ensures -100 * x <= p * x <= 100 * x
    ensures -x <= TruncDiv(p * x, 100) <= x
  {
    assert 0 <= (100 - p) * x && 0 <= (100 + p) * x;
  }

  // The budget never exceeds the memory there is, and the signed products fit in 64 bits.
  lemma BudgetBounded(policy: MemoryPolicy, mem: MemStat)
    requires mem.total < KIB_MAX && mem.available < KIB_MAX
    ensures AvailableKb(policy, mem) <= mem.total + mem.available
    ensures -0x8000_0000_0000_0000 <= ClampPercent(policy.memtotal) * mem.total < 0x8000_0000_0000_0000
    ensures -0x8000_0000_0000_0000 <= ClampPercent(policy.memavailable) * mem.available < 0x8000_0000_0000_0000
  {
    hide TruncDiv, ClampPercent;
    PercentBounded(ClampPercent(policy.memtotal), mem.total);
    PercentBounded(ClampPercent(policy.memavailable), mem.available);
  }

  // The budget is the policy's percentages of total and available memory, in whole KiB.
  lemma BudgetTracksPolicy(policy: MemoryPolicy, mem: MemStat)
    ensures var exact := ClampPercent(policy.memtotal) * mem.total + ClampPercent(policy.memavailable) * mem.available;
            var budget := AvailableKb(policy, mem);
            && (budget > 0 ==> -200 < 100 * budget - exact < 200)
            && (exact >= 200 ==> budget > 0)
            && (exact <= -200 ==> budget == 0)
  {
    hide ClampPercent;
  }

  // Rounding towards zero gives a negative share one unit more than rounding down would.
  lemma TruncationIsNotFloor()
    ensures AvailableKb(MemoryPolicy(-5, 100), MemStat(10, 1)) == 1
    ensures (-5 * 10) / 100 + (100 * 1) / 100 == 0
  {
  }

  // The number of whole KiB that hold `bytes`.
  function Kb(bytes: nat): (r: nat)
    ensures bytes <= 1024 * r < bytes + 1024
  {
    (bytes + 1023) / 1024
  }

  /* ---------- the greedy choice ---------- */

  // The cost of each candidate in score order; no cost means that the map is gone.
  type Costs = seq<Option<nat>>

  function Greedy(costs: Costs, budget: nat): (picks: seq<bool>)
    ensures |picks| == |costs|
  {
    if costs == [] then []
    else if costs[0].Some? && costs[0].value <= budget then [true] + Greedy(costs[1..], budget - costs[0].value)
    else [false] + Greedy(costs[1..], budget)
  }

  function CostOf(costs: Costs, picks: seq<bool>): nat
    requires |picks| == |costs|
  {
    if costs == [] then 0
    else (if picks[0] && costs[0].Some? then costs[0].value else 0) + CostOf(costs[1..], picks[1..])
  }

  // A choice of live candidates that fits the budget.
  ghost predicate Feasible(costs: Costs, picks: seq<bool>, budget: nat) {
    && |picks| == |costs|
    && (forall i :: 0 <= i < |picks| && picks[i] ==> costs[i].Some?)
    && CostOf(costs, picks) <= budget
  }

  // At the first candidate where the two choices differ, `a` takes it and `b` does not.
  ghost predicate PrefersTo(a: seq<bool>, b: seq<bool>) {
    exists i :: 0 <= i < |a| && |a| == |b| && a[..i] == b[..i] && a[i] && !b[i]
  }

  lemma {:induction false} GreedyFeasible(costs: Costs, budget: nat)
    ensures Feasible(costs, Greedy(costs, budget), budget)
  {
    if costs != [] {
      var rest := if Greedy(costs, budget)[0] then budget - costs[0].value else budget;
      GreedyFeasible(costs[1..], rest);
      assert Greedy(costs, budget)[1..] == Greedy(costs[1..], rest);
    }
  }

  // Among all choices that fit, the greedy one is lexicographically best in score order.
  lemma {:induction false} GreedyLexBest(costs: Costs, budget: nat, picks: seq<bool>)
    requires Feasible(costs, picks, budget)
    ensures picks == Greedy(costs, budget) || PrefersTo(Greedy(costs, budget), picks)
  {
    var g := Greedy(costs, budget);
    if costs != [] {
      if g[0] == picks[0] {
        var rest := if g[0] then budget - costs[0].value else budget;
        assert g[1..] == Greedy(costs[1..], rest);
        GreedyLexBest(costs[1..], rest, picks[1..]);
        assert g == [g[0]] + g[1..] && picks == [picks[0]] + picks[1..];
        if picks[1..] != g[1..] {
          var i :| 0 <= i < |g[1..]| && g[1..][..i] == picks[1..][..i] && g[1..][i] && !picks[1..][i];
          assert g[..i + 1] == [g[0]] + g[1..][..i];
          assert picks[..i + 1] == [picks[0]] + picks[1..][..i];
          assert g[i + 1] && !picks[i + 1];
        }
      } else {
        assert g[..0] == picks[..0];
      }
    }
  }

  // No live candidate that was passed over fits into what is left of the budget.
  lemma {:induction false} GreedyLeavesNoRoom(costs: Costs, budget: nat, i: nat)
    requires i < |costs| && costs[i].Some? && !Greedy(costs, budget)[i]
    ensures CostOf(costs, Greedy(costs, budget)) + costs[i].value > budget
  {
    var g := Greedy(costs, budget);
    var rest := if g[0] then budget - costs[0].value else budget;
    assert g[1..] == Greedy(costs[1..], rest);
    if i == 0 {
      GreedyFeasible(costs[1..], rest);
    } else {
      GreedyLeavesNoRoom(costs[1..], rest, i - 1);
    }
  }

  /* ---------- the tie-breaking sort ---------- */

  datatype SortStrategy = Unsorted | ByPath | ByBlock | ByInode

  datatype SortKey = PathKey(path: Path) | DiskKey(device: nat, middle: nat, offset: nat)

  datatype Selected = Selected(id: MapId, score: real, index: nat, key: Option<SortKey>)

  // Without file metadata there is no disk key.
  function KeyOf(strategy: SortStrategy, s: MapSegment): Option<SortKey> {
    match strategy
    case Unsorted => None
    case ByPath => Some(PathKey(s.path))
    case ByBlock => if s.device == 0 && s.inode == 0 then None else Some(DiskKey(s.device, s.offset / 4096, s.offset))
    case ByInode => if s.device == 0 && s.inode == 0 then None else Some(DiskKey(s.device, s.inode, s.offset))
  }

  // The order on paths is the library's; all that is used is that it is a strict total order.
  ghost predicate StrictTotal(less: (Path, Path) -> bool) {
    && (forall a :: !less(a, a))
    && (forall a, b, c :: less(a, b) && less(b, c) ==> less(a, c))
    && (forall a, b :: a == b || less(a, b) || less(b, a))
  }

  predicate KeyLess(a: SortKey, b: SortKey, less: (Path, Path) -> bool) {
    match (a, b)
    case (PathKey(p), PathKey(q)) => less(p, q)
    case (PathKey(_), DiskKey(_, _, _)) => true
    case (DiskKey(_, _, _), PathKey(_)) => false
    case (DiskKey(d, m, o), DiskKey(d', m', o')) => d < d' || (d == d' && (m < m' || (m == m' && o < o')))
  }

  // The comparator: higher score, then the key with absent keys last, then the position chosen.
  predicate Before(x: Selected, y: Selected, less: (Path, Path) -> bool) {
    if x.score != y.score then x.score > y.score
    else
      match (x.key, y.key)
      case (Some(a), Some(b)) => KeyLess(a, b, less) || (a == b && x.index < y.index)
      case (Some(_), None) => true
      case (None, Some(_)) => false
      case (None, None) => x.index < y.index
  }

  lemma BeforeIsStrictTotal(x: Selected, y: Selected, z: Selected, less: (Path, Path) -> bool)
    requires StrictTotal(less)
    ensures !Before(x, x, less)
    ensures Before(x, y, less) && Before(y, z, less) ==> Before(x, z, less)
    ensures x.index != y.index ==> Before(x, y, less) || Before(y, x, less)
    ensures !(Before(x, y, less) && Before(y, x, less))
  {
  }

  ghost predicate Sorted(xs: seq<Selected>, less: (Path, Path) -> bool) {
    forall i, j :: 0 <= i < j < |xs| ==> Before(xs[i], xs[j], less)
  }

  lemma SortedHead(xs: seq<Selected>, ys: seq<Selected>, less: (Path, Path) -> bool)
    requires StrictTotal(less) && Sorted(xs, less) && Sorted(ys, less)
    requires xs != [] && ys != [] && xs[0] in ys && ys[0] in xs
    ensures xs[0] == ys[0]
  {
    var i :| 0 <= i < |ys| && ys[i] == xs[0];
    var j :| 0 <= j < |xs| && xs[j] == ys[0];
    BeforeIsStrictTotal(xs[0], ys[0], xs[0], less);
    hide Before, StrictTotal;
  }

  lemma SortedTail(xs: seq<Selected>, less: (Path, Path) -> bool)
    requires Sorted(xs, less) && xs != []
    ensures Sorted(xs[1..], less)
  {
  }

  lemma SameMembers<T>(xs: seq<T>, ys: seq<T>)
    requires multiset(xs) == multiset(ys)
    ensures |xs| == |ys| && forall y :: y in ys <==> y in xs
  {
    assert |xs| == |multiset(xs)| == |multiset(ys)| == |ys|;
    forall y
      ensures y in ys <==> y in xs
    {
      assert y in multiset(ys) <==> y in multiset(xs);
    }
  }

  lemma SameTails<T>(xs: seq<T>, ys: seq<T>)
    requires xs != [] && ys != [] && xs[0] == ys[0] && multiset(xs) == multiset(ys)
    ensures multiset(xs[1..]) == multiset(ys[1..])
  {
    assert xs == [xs[0]] + xs[1..] && ys == [ys[0]] + ys[1..];
    assert multiset(xs[1..]) == multiset(xs) - multiset{xs[0]};
  }

  // Sorting has one result only: whatever algorithm the library uses, the plan is the same.
  lemma {:induction false} SortedIsUnique(xs: seq<Selected>, ys: seq<Selected>, less: (Path, Path) -> bool)
    requires StrictTotal(less) && Sorted(xs, less) && Sorted(ys, less)
    requires multiset(xs) == multiset(ys)
    ensures xs == ys
    decreases |xs|
  {
    SameMembers(xs, ys);
    if xs != [] {
      SortedHead(xs, ys, less);
      SortedTail(xs, less);
      SortedTail(ys, less);
      hide Before, StrictTotal, Sorted;
      SameTails(xs, ys);
      SortedIsUnique(xs[1..], ys[1..], less);
      assert xs == [xs[0]] + xs[1..] && ys == [ys[0]] + ys[1..];
    }
  }

  /* ---------- the plan ---------- */

  datatype Item = Item(id: MapId, score: real)

  ghost predicate BestFirst(items: seq<Item>) {
    forall i, j :: 0 <= i < j < |items| ==> items[i].id != items[j].id && items[i].score >= items[j].score
  }

  // The candidates found in `done` are those with a positive score.
  ghost predicate Candidates(items: seq<Item>, scores: map<MapId, real>, done: set<MapId>) {
    forall x: Item :: x in items <==> x.id in done && x.id in scores && x.score == scores[x.id] && x.score > 0.0
  }

  // Candidates with a positive score, best first; equal scores come in any order.
  ghost predicate Ranking(items: seq<Item>, scores: map<MapId, real>) {
    Candidates(items, scores, scores.Keys) && BestFirst(items)
  }

  function CostsOf(items: seq<Item>, maps: map<MapId, MapSegment>): (r: Costs)
    ensures |r| == |items|
  {
    seq(|items|, i requires 0 <= i < |items| =>
      if items[i].id in maps then Some(Kb(maps[items[i].id].length)) else None)
  }

  // The chosen items, numbered in the order of choice, with their sort keys.
  function Chosen(items: seq<Item>, picks: seq<bool>, maps: map<MapId, MapSegment>, strategy: SortStrategy): seq<Selected>
    requires |picks| == |items| && forall i :: 0 <= i < |picks| && picks[i] ==> items[i].id in maps
  {
    if items == [] then []
    else
      var n := |items| - 1;
      var before := Chosen(items[..n], picks[..n], maps, strategy);
      if picks[n] then before + [Selected(items[n].id, items[n].score, |before|, KeyOf(strategy, maps[items[n].id]))]
      else before
  }

  function Bytes(items: seq<Item>, picks: seq<bool>, maps: map<MapId, MapSegment>): nat
    requires |picks| == |items| && forall i :: 0 <= i < |picks| && picks[i] ==> items[i].id in maps
  {
    if items == [] then 0
    else
      var n := |items| - 1;
      Bytes(items[..n], picks[..n], maps) + if picks[n] then maps[items[n].id].length else 0
  }

  datatype Plan = Plan(maps: seq<MapId>, totalBytes: U64, budgetBytes: nat)

  lemma {:induction false} CostAppend(costs: Costs, picks: seq<bool>, c: Option<nat>, pick: bool)
    requires |picks| == |costs|
    ensures CostOf(costs + [c], picks + [pick]) == CostOf(costs, picks) + if pick && c.Some? then c.value else 0
  {
    if costs != [] {
      CostAppend(costs[1..], picks[1..], c, pick);
      assert (costs + [c])[1..] == costs[1..] + [c];
      assert (picks + [pick])[1..] == picks[1..] + [pick];
    }
  }

  /* ---------- sorting ---------- */

  function Insert(xs: seq<Selected>, x: Selected, less: (Path, Path) -> bool): seq<Selected> {
    if xs == [] || Before(x, xs[0], less) then [x] + xs else [xs[0]] + Insert(xs[1..], x, less)
  }

  function SortSelected(xs: seq<Selected>, less: (Path, Path) -> bool): seq<Selected> {
    if xs == [] then [] else Insert(SortSelected(xs[..|xs| - 1], less), xs[|xs| - 1], less)
  }

  lemma {:induction false} InsertSorted(xs: seq<Selected>, x: Selected, less: (Path, Path) -> bool)
    requires StrictTotal(less) && Sorted(xs, less)
    requires forall i :: 0 <= i < |xs| ==> xs[i].index != x.index
    ensures multiset(Insert(xs, x, less)) == multiset(xs) + multiset{x}
    ensures Sorted(Insert(xs, x, less), less)
  {
    if xs == [] {
    } else if Before(x, xs[0], less) {
      forall j | 0 <= j < |xs|
        ensures Before(x, xs[j], less)
      {
        BeforeIsStrictTotal(x, xs[0], xs[j], less);
      }
    } else {
      InsertSorted(xs[1..], x, less);
      var rest := Insert(xs[1..], x, less);
      assert xs == [xs[0]] + xs[1..];
      BeforeIsStrictTotal(xs[0], x, x, less);
      forall j | 0 <= j < |rest|
        ensures Before(xs[0], rest[j], less)
      {
        assert rest[j] in multiset(rest);
        assert rest[j] == x || rest[j] in xs[1..];
      }
      hide Before;
    }
  }

  ghost predicate Numbered(xs: seq<Selected>) {
    forall i :: 0 <= i < |xs| ==> xs[i].index == i
  }

  // Sorting permutes the selection and leaves it in the comparator's order.
  lemma {:induction false} SortSelectedSorts(xs: seq<Selected>, less: (Path, Path) -> bool)
    requires StrictTotal(less) && Numbered(xs)
    ensures multiset(SortSelected(xs, less)) == multiset(xs)
    ensures Sorted(SortSelected(xs, less), less)
  {
    if xs != [] {
      var n := |xs| - 1;
      var before := SortSelected(xs[..n], less);
      SortSelectedSorts(xs[..n], less);
      assert xs == xs[..n] + [xs[n]];
      forall i | 0 <= i < |before|
        ensures before[i].index != xs[n].index
      {
        assert before[i] in multiset(xs[..n]);
      }
      InsertSorted(before, xs[n], less);
    }
  }

  // In comparator order scores never increase.
  lemma SortedScores(xs: seq<Selected>, less: (Path, Path) -> bool)
    requires Sorted(xs, less)
    ensures forall i, j :: 0 <= i < j < |xs| ==> xs[i].score >= xs[j].score
  {
  }

  /* ---------- the planner as the daemon runs it ---------- */

  function Cap(x: nat): U64 {
    if x <= U64_MAX then x else U64_MAX
  }

  ghost predicate Live(items: seq<Item>, picks: seq<bool>, maps: map<MapId, MapSegment>) {
    |picks| == |items| && forall i :: 0 <= i < |picks| && picks[i] ==> items[i].id in maps
  }

  // The selection loop after `i` items, with `left` KiB to spend.
  ghost predicate Selecting(items: seq<Item>, maps: map<MapId, MapSegment>, budget: nat, strategy: SortStrategy, i: nat,
                            left: nat, picks: seq<bool>, selected: seq<Selected>, totalBytes: U64)
    requires i <= |items|
  {
    && Live(items[..i], picks, maps) && left <= budget
    && Greedy(CostsOf(items, maps), budget) == picks + Greedy(CostsOf(items, maps)[i..], left)
    && selected == Chosen(items[..i], picks, maps, strategy) && Numbered(selected)
    && totalBytes == Cap(Bytes(items[..i], picks, maps))
    && Bytes(items[..i], picks, maps) <= 1024 * (budget - left)
  }

  predicate Fits(item: Item, maps: map<MapId, MapSegment>, left: nat) {
    item.id in maps && Kb(maps[item.id].length) <= left
  }

  lemma GreedyStep(items: seq<Item>, maps: map<MapId, MapSegment>, i: nat, left: nat)
    requires i < |items|
    ensures var costs := CostsOf(items, maps);
            Greedy(costs[i..], left)
            == [Fits(items[i], maps, left)]
               + Greedy(costs[i + 1..], if Fits(items[i], maps, left) then left - Kb(maps[items[i].id].length) else left)
  {
  }

  lemma PrefixStep(items: seq<Item>, maps: map<MapId, MapSegment>, strategy: SortStrategy, i: nat, picks: seq<bool>, fits: bool)
    requires i < |items| && Live(items[..i], picks, maps) && (fits ==> items[i].id in maps)
    ensures Live(items[..i + 1], picks + [fits], maps)
    ensures var chosen := Chosen(items[..i], picks, maps, strategy);
            Chosen(items[..i + 1], picks + [fits], maps, strategy)
            == if fits then chosen + [Selected(items[i].id, items[i].score, |chosen|, KeyOf(strategy, maps[items[i].id]))] else chosen
    ensures Bytes(items[..i + 1], picks + [fits], maps)
            == Bytes(items[..i], picks, maps) + if fits then maps[items[i].id].length else 0
  {
    assert items[..i + 1][..i] == items[..i];
    assert (picks + [fits])[..i] == picks;
  }

  lemma SelectStep(items: seq<Item>, maps: map<MapId, MapSegment>, budget: nat, strategy: SortStrategy, i: nat,
                   left: nat, picks: seq<bool>, selected: seq<Selected>, totalBytes: U64)
    requires i < |items| && Selecting(items, maps, budget, strategy, i, left, picks, selected, totalBytes)
    ensures var item := items[i];
            if Fits(item, maps, left) then
              Selecting(items, maps, budget, strategy, i + 1, left - Kb(maps[item.id].length), picks + [true],
                        selected + [Selected(item.id, item.score, |selected|, KeyOf(strategy, maps[item.id]))],
                        SatAdd(totalBytes, maps[item.id].length))
            else Selecting(items, maps, budget, strategy, i + 1, left, picks + [false], selected, totalBytes)
  {
    hide Greedy, Chosen, Bytes, KeyOf, CostsOf;
    var fits := Fits(items[i], maps, left);
    GreedyStep(items, maps, i, left);
    PrefixStep(items, maps, strategy, i, picks, fits);
    var rest := Greedy(CostsOf(items, maps)[i + 1..], if fits then left - Kb(maps[items[i].id].length) else left);
    assert picks + ([fits] + rest) == (picks + [fits]) + rest;
  }

  method Select(items: seq<Item>, maps: map<MapId, MapSegment>, budget: nat, strategy: SortStrategy)
    returns (selected: seq<Selected>, totalBytes: U64, ghost picks: seq<bool>)
    ensures picks == Greedy(CostsOf(items, maps), budget) && Live(items, picks, maps)
    ensures selected == Chosen(items, picks, maps, strategy) && Numbered(selected)
    ensures totalBytes == Cap(Bytes(items, picks, maps)) && Bytes(items, picks, maps) <= 1024 * budget
  {
    var left: nat := budget;
    selected, totalBytes, picks := [], 0, [];
    assert CostsOf(items, maps)[0..] == CostsOf(items, maps);
    for i := 0 to |items|
      invariant Selecting(items, maps, budget, strategy, i, left, picks, selected, totalBytes)
    {
      hide Selecting;
      SelectStep(items, maps, budget, strategy, i, left, picks, selected, totalBytes);
      var id, score := items[i].id, items[i].score;
      if id !in maps {
        picks := picks + [false];
        continue;
      }
      var kb := Kb(maps[id].length);
      if kb > left {
        picks := picks + [false];
        continue;
      }
      left := left - kb;
      totalBytes := SatAdd(totalBytes, maps[id].length);
      selected := selected + [Selected(id, score, |selected|, KeyOf(strategy, maps[id]))];
      picks := picks + [true];
    }
    assert items[..|items|] == items && CostsOf(items, maps)[|items|..] == [];
  }

  function Ordered(selected: seq<Selected>, strategy: SortStrategy, less: (Path, Path) -> bool): seq<Selected> {
    if strategy.Unsorted? then selected else SortSelected(selected, less)
  }

  function Ids(selected: seq<Selected>): (ids: seq<MapId>)
    ensures |ids| == |selected|
  {
    seq(|selected|, i requires 0 <= i < |selected| => selected[i].id)
  }

  // The ids of the items that were picked.
  function Picked(items: seq<Item>, picks: seq<bool>): set<MapId>
    requires |picks| == |items|
  {
    set i | 0 <= i < |items| && picks[i] :: items[i].id
  }

  // Best first, every map once.
  ghost predicate Descending(ids: seq<MapId>, scores: map<MapId, real>) {
    && (forall i :: 0 <= i < |ids| ==> ids[i] in scores)
    && forall i, j :: 0 <= i < j < |ids| ==> ids[i] != ids[j] && scores[ids[i]] >= scores[ids[j]]
  }

  ghost predicate Scored(xs: seq<Selected>, scores: map<MapId, real>) {
    forall i :: 0 <= i < |xs| ==> xs[i].id in scores && xs[i].score == scores[xs[i].id]
  }

  // What is known of the selection after some of the items.
  ghost predicate Represents(xs: seq<Selected>, ids: set<MapId>, scores: map<MapId, real>) {
    && Numbered(xs) && Scored(xs, scores) && Descending(Ids(xs), scores)
    && (forall i :: 0 <= i < |xs| ==> xs[i].id in ids)
    && (forall id :: id in ids ==> exists i :: 0 <= i < |xs| && xs[i].id == id)
  }

  lemma RepresentsOneMore(xs: seq<Selected>, ids: set<MapId>, scores: map<MapId, real>, x: Selected)
    requires Represents(xs, ids, scores) && x.index == |xs|
    requires x.id in scores && x.score == scores[x.id] && x.id !in ids
    requires forall id :: id in ids ==> id in scores && scores[id] >= x.score
    ensures Represents(xs + [x], ids + {x.id}, scores)
  {
    var ys := xs + [x];
    assert Ids(ys) == Ids(xs) + [x.id];
    assert forall i :: 0 <= i < |xs| ==> Ids(xs)[i] in ids;
    assert Descending(Ids(ys), scores);
    forall id | id in ids + {x.id}
      ensures exists i :: 0 <= i < |ys| && ys[i].id == id
    {
      if id in ids {
        var i :| 0 <= i < |xs| && xs[i].id == id;
        assert ys[i].id == id;
      } else {
        assert ys[|xs|].id == id;
      }
    }
  }

  lemma {:induction false} ChosenFacts(items: seq<Item>, picks: seq<bool>, maps: map<MapId, MapSegment>,
                                       strategy: SortStrategy, scores: map<MapId, real>)
    requires Live(items, picks, maps)
    requires BestFirst(items) && forall i :: 0 <= i < |items| ==> items[i].id in scores && items[i].score == scores[items[i].id]
    ensures Represents(Chosen(items, picks, maps, strategy), Picked(items, picks), scores)
    decreases |items|
  {
    if items != [] {
      hide Represents;
      var n := |items| - 1;
      ChosenFacts(items[..n], picks[..n], maps, strategy, scores);
      var before := Picked(items[..n], picks[..n]);
      assert Picked(items, picks) == before + if picks[n] then {items[n].id} else {};
      if picks[n] {
        var chosen := Chosen(items[..n], picks[..n], maps, strategy);
        RepresentsOneMore(chosen, before, scores, Selected(items[n].id, items[n].score, |chosen|, KeyOf(strategy, maps[items[n].id])));
      }
    } else {
      assert Picked(items, picks) == {};
    }
  }

  // Distinct entries of the sorted selection come from distinct places in the selection.
  lemma SortedDistinct(xs: seq<Selected>, ys: seq<Selected>, less: (Path, Path) -> bool, i: nat, j: nat)
    requires StrictTotal(less) && Sorted(ys, less) && i < j < |ys|
    requires ys[i] in xs && ys[j] in xs
    requires forall a, b :: 0 <= a < b < |xs| ==> xs[a].id != xs[b].id
    ensures ys[i].id != ys[j].id
  {
  }

  lemma DescendingOf(ys: seq<Selected>, scores: map<MapId, real>)
    requires Scored(ys, scores)
    requires forall i, j :: 0 <= i < j < |ys| ==> ys[i].id != ys[j].id && ys[i].score >= ys[j].score
    ensures Descending(Ids(ys), scores)
  {
  }

  lemma ScoredAgain(xs: seq<Selected>, ys: seq<Selected>, scores: map<MapId, real>)
    requires Scored(xs, scores) && forall y :: y in ys <==> y in xs
    ensures Scored(ys, scores)
  {
    forall i | 0 <= i < |ys|
      ensures ys[i].id in scores && ys[i].score == scores[ys[i].id]
    {
      assert ys[i] in xs;
    }
  }

  // Reordering keeps what was chosen and the order of the scores; unless the strategy asks
  // for no sorting, the result is in the comparator's order, the only such arrangement.
  lemma OrderedFacts(xs: seq<Selected>, strategy: SortStrategy, scores: map<MapId, real>, less: (Path, Path) -> bool)
    requires StrictTotal(less) && Numbered(xs) && Scored(xs, scores) && Descending(Ids(xs), scores)
    ensures var ys := Ordered(xs, strategy, less);
            && multiset(ys) == multiset(xs) && Descending(Ids(ys), scores)
            && (strategy.Unsorted? || Sorted(ys, less))
            && (forall y :: y in ys <==> y in xs)
  {
    if !strategy.Unsorted? {
      var ys := SortSelected(xs, less);
      SortSelectedSorts(xs, less);
      SameMembers(xs, ys);
      SortedScores(ys, less);
      ScoredAgain(xs, ys, scores);
      assert forall a :: 0 <= a < |xs| ==> Ids(xs)[a] == xs[a].id;
      hide SortSelected, Before, StrictTotal, Sorted, Ids, Scored, Numbered;
      forall i, j | 0 <= i < j < |ys|
        ensures ys[i].id != ys[j].id
      {
        assert ys[i] in ys && ys[j] in ys;
        SortedDistinct(xs, ys, less, i, j);
      }
      DescendingOf(ys, scores);
    }
  }

  // Every selected entry carries the key of its map.
  ghost predicate KeyedBy(xs: seq<Selected>, maps: map<MapId, MapSegment>, strategy: SortStrategy) {
    forall x :: x in xs ==> x.id in maps && x.key == KeyOf(strategy, maps[x.id])
  }

  lemma {:induction false} ChosenKeyed(items: seq<Item>, picks: seq<bool>, maps: map<MapId, MapSegment>, strategy: SortStrategy)
    requires Live(items, picks, maps)
    ensures KeyedBy(Chosen(items, picks, maps, strategy), maps, strategy)
    decreases |items|
  {
    if items != [] {
      ChosenKeyed(items[..|items| - 1], picks[..|items| - 1], maps, strategy);
    }
  }

  predicate Known(s: MapSegment) {
    s.device != 0 || s.inode != 0
  }

  predicate LexLe(a: nat, b: nat, a': nat, b': nat) {
    a < a' || (a == a' && b <= b')
  }

  // The first is read no later than the second by the order of the strategy.
  ghost predicate InDiskOrder(x: Selected, y: Selected, maps: map<MapId, MapSegment>, strategy: SortStrategy, less: (Path, Path) -> bool)
    requires x.id in maps && y.id in maps
  {
    var s, t := maps[x.id], maps[y.id];
    match strategy
    case Unsorted => x.index < y.index
    case ByPath => s.path == t.path || less(s.path, t.path)
    case ByBlock => Known(t) ==> Known(s) && LexLe(s.device, s.offset, t.device, t.offset)
    case ByInode => Known(t) ==> Known(s) && LexLe(s.device, s.inode, t.device, t.inode)
                                 && (s.device == t.device && s.inode == t.inode ==> s.offset <= t.offset)
  }

  lemma SortedInDiskOrder(x: Selected, y: Selected, maps: map<MapId, MapSegment>, strategy: SortStrategy, less: (Path, Path) -> bool)
    requires x.id in maps && x.key == KeyOf(strategy, maps[x.id]) && y.id in maps && y.key == KeyOf(strategy, maps[y.id])
    requires Before(x, y, less) && x.score == y.score
    ensures InDiskOrder(x, y, maps, strategy, less)
  {
  }

  /* ---------- ranking the candidates ---------- */

  function InsertItem(items: seq<Item>, x: Item): seq<Item> {
    if items == [] || x.score > items[0].score then [x] + items else [items[0]] + InsertItem(items[1..], x)
  }

  lemma {:induction false} InsertItemRanks(items: seq<Item>, x: Item)
    requires BestFirst(items) && forall i :: 0 <= i < |items| ==> items[i].id != x.id
    ensures forall y :: y in InsertItem(items, x) <==> y in items || y == x
    ensures BestFirst(InsertItem(items, x))
  {
    if items != [] && x.score <= items[0].score {
      InsertItemRanks(items[1..], x);
      var rest := InsertItem(items[1..], x);
      assert items == [items[0]] + items[1..];
      forall j | 0 <= j < |rest|
        ensures items[0].id != rest[j].id && items[0].score >= rest[j].score
      {
        if rest[j] in items[1..] {
          var k :| 0 <= k < |items| - 1 && items[1..][k] == rest[j];
          assert items[k + 1] == rest[j];
        }
      }
    }
  }

  lemma RankingStep(items: seq<Item>, scores: map<MapId, real>, done: set<MapId>, id: MapId)
    requires Candidates(items, scores, done) && BestFirst(items) && id in scores && id !in done
    ensures var more := if scores[id] > 0.0 then InsertItem(items, Item(id, scores[id])) else items;
            Candidates(more, scores, done + {id}) && BestFirst(more)
  {
    if scores[id] > 0.0 {
      assert forall i :: 0 <= i < |items| ==> items[i] in items;
      InsertItemRanks(items, Item(id, scores[id]));
    }
  }

  method Rank(scores: map<MapId, real>) returns (items: seq<Item>)
    ensures Ranking(items, scores)
  {
    items := [];
    var todo := scores.Keys;
    while todo != {}
      invariant todo <= scores.Keys && Candidates(items, scores, scores.Keys - todo) && BestFirst(items)
      decreases todo
    {
      hide Candidates, BestFirst;
      var id :| id in todo;
      RankingStep(items, scores, scores.Keys - todo, id);
      assert (scores.Keys - todo) + {id} == scores.Keys - (todo - {id});
      todo := todo - {id};
      if scores[id] > 0.0 {
        items := InsertItem(items, Item(id, scores[id]));
      }
    }
    assert scores.Keys - {} == scores.Keys;
  }

  lemma SameIds(xs: seq<Selected>, ys: seq<Selected>, ids: set<MapId>)
    requires forall y :: y in ys <==> y in xs
    requires forall i :: 0 <= i < |xs| ==> xs[i].id in ids
    requires forall id :: id in ids ==> exists i :: 0 <= i < |xs| && xs[i].id == id
    ensures forall id :: id in Ids(ys) <==> id in ids
  {
    forall id
      ensures id in Ids(ys) <==> id in ids
    {
      if id in Ids(ys) {
        var i :| 0 <= i < |ys| && Ids(ys)[i] == id;
        assert ys[i] in xs;
      }
      if id in ids {
        var i :| 0 <= i < |xs| && xs[i].id == id;
        assert xs[i] in ys;
        var j :| 0 <= j < |ys| && ys[j] == xs[i];
        assert Ids(ys)[j] == id;
      }
    }
  }

  // What a plan consists of, whatever the sort strategy.
  ghost predicate Planned(maps: seq<MapId>, items: seq<Item>, picks: seq<bool>, scores: map<MapId, real>)
    requires |picks| == |items|
  {
    (forall id :: id in maps <==> id in Picked(items, picks)) && Descending(maps, scores)
  }

  lemma PlanFacts(items: seq<Item>, picks: seq<bool>, maps: map<MapId, MapSegment>, scores: map<MapId, real>,
                  strategy: SortStrategy, less: (Path, Path) -> bool)
    requires StrictTotal(less) && Ranking(items, scores) && Live(items, picks, maps)
    ensures var ordered := Ordered(Chosen(items, picks, maps, strategy), strategy, less);
            Planned(Ids(ordered), items, picks, scores) && (strategy.Unsorted? || Sorted(ordered, less))
  {
    assert forall i :: 0 <= i < |items| ==> items[i] in items;
    ChosenFacts(items, picks, maps, strategy, scores);
    hide Chosen, Picked, Ordered, StrictTotal, Sorted, Ranking, Live, Numbered, Scored, Descending;
    var selected := Chosen(items, picks, maps, strategy);
    OrderedFacts(selected, strategy, scores, less);
    SameIds(selected, Ordered(selected, strategy, less), Picked(items, picks));
  }

  // Among equal scores a plan is read by path; by device and offset; or file by file and,
  // within each, by offset.  Maps whose file is unknown come last.
  lemma PlanReadsInDiskOrder(items: seq<Item>, picks: seq<bool>, maps: map<MapId, MapSegment>, scores: map<MapId, real>,
                             strategy: SortStrategy, less: (Path, Path) -> bool, i: nat, j: nat)
    requires StrictTotal(less) && Ranking(items, scores) && Live(items, picks, maps)
    requires var xs := Ordered(Chosen(items, picks, maps, strategy), strategy, less);
             i < j < |xs| && xs[i].score == xs[j].score
    ensures var xs := Ordered(Chosen(items, picks, maps, strategy), strategy, less);
            && xs[i].id in maps && xs[j].id in maps
            && InDiskOrder(xs[i], xs[j], maps, strategy, less)
  {
    var chosen := Chosen(items, picks, maps, strategy);
    var xs := Ordered(chosen, strategy, less);
    assert forall k :: 0 <= k < |items| ==> items[k] in items;
    ChosenFacts(items, picks, maps, strategy, scores);
    ChosenKeyed(items, picks, maps, strategy);
    hide Chosen, Ordered, StrictTotal, Ranking, Live, Before, InDiskOrder, KeyOf;
    OrderedFacts(chosen, strategy, scores, less);
    assert xs[i] in xs && xs[j] in xs;
    if strategy.Unsorted? {
      UnsortedInDiskOrder(chosen, maps, less, i, j);
    } else {
      SortedInDiskOrder(xs[i], xs[j], maps, strategy, less);
    }
  }

  lemma UnsortedInDiskOrder(xs: seq<Selected>, maps: map<MapId, MapSegment>, less: (Path, Path) -> bool, i: nat, j: nat)
    requires Numbered(xs) && i < j < |xs| && xs[i].id in maps && xs[j].id in maps
    ensures InDiskOrder(Ordered(xs, Unsorted, less)[i], Ordered(xs, Unsorted, less)[j], maps, Unsorted, less)
  {
  }

  method MakePlan(scores: map<MapId, real>, maps: map<MapId, MapSegment>, mem: MemStat, policy: MemoryPolicy,
                  strategy: SortStrategy, less: (Path, Path) -> bool)
    returns (plan: Plan, ghost items: seq<Item>, ghost picks: seq<bool>)
    requires StrictTotal(less)
    ensures Ranking(items, scores)
    ensures picks == Greedy(CostsOf(items, maps), AvailableKb(policy, mem)) && Live(items, picks, maps)
    ensures plan.maps == Ids(Ordered(Chosen(items, picks, maps, strategy), strategy, less))
    ensures Planned(plan.maps, items, picks, scores)
    ensures plan.totalBytes == Cap(Bytes(items, picks, maps))
    ensures AvailableKb(policy, mem) < KIB_MAX ==> plan.totalBytes <= plan.budgetBytes == 1024 * AvailableKb(policy, mem)
  {
    hide Chosen, Greedy, Bytes, Ordered, AvailableKb, StrictTotal, Ranking, Planned;
    var ranked := Rank(scores);
    var selected, totalBytes;
    selected, totalBytes, picks := Select(ranked, maps, AvailableKb(policy, mem), strategy);
    items := ranked;
    PlanFacts(items, picks, maps, scores, strategy, less);
    var ordered := Ordered(selected, strategy, less);
    plan := Plan(Ids(ordered), totalBytes, AvailableKb(policy, mem) * 1024 % (U64_MAX + 1));
  }

  // A map is a candidate exactly when some executable linked to it is not running, so
  // whatever is planned is wanted by one, and nothing wanted is overlooked.
  lemma CandidatesAreWanted(m: State, maps: map<MapId, MapSegment>, setup: Setup, scores: map<MapId, real>,
                            items: seq<Item>, id: MapId)
    requires Ranking(items, scores) && id in maps && scores.Keys == maps.Keys
    requires forall i :: i in maps ==> scores[i] == MapScore(m, maps[i].Key(), setup)
    requires forall l :: l in m.links ==> l.0 < |m.exes|
    ensures (exists i :: 0 <= i < |items| && items[i].id == id)
            <==> exists exe :: (exe, maps[id].Key()) in m.links && !IsRunning(m.exes, exe)
  {
    MapScorePositiveIffWanted(m, maps[id].Key(), setup);
    hide MapScore;
    if scores[id] > 0.0 {
      var i :| 0 <= i < |items| && items[i] == Item(id, scores[id]);
      assert items[i].id == id;
    }
  }
}
