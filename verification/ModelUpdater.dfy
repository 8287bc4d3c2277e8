/** The update step as the daemon performs it: loops over events, candidates, executables and edges. */
module ModelUpdater {
  import opened Domain
  import opened Enumeration
  import opened MarkovEdge
  import opened MarkovGraphStore
  import opened Observation
  import opened Model
  import opened KeyStores
  import opened ActiveSetStore
  import opened StoresModule

  datatype ModelDelta = ModelDelta(
    newExes: seq<Path>,
    newMaps: seq<MapKey>,
    newEdges: seq<(Path, Path)>,
    runningNow: seq<Path>,
    stoppedNow: seq<Path>,
    rejected: seq<(Path, RejectReason)>,
    partialExes: seq<Path>)

  const NO_DELTA: ModelDelta := ModelDelta([], [], [], [], [], [], [])

  // The parts of the report that admission does not write.
  ghost predicate SameRest(d: ModelDelta, d': ModelDelta) {
    d'.newEdges == d.newEdges && d'.runningNow == d.runningNow && d'.stoppedNow == d.stoppedNow
  }

  // Pairs are canonical and only known executables are active.
  ghost predicate WellKeyed(m: State) {
    && (forall k :: k in m.edges ==> k.a < k.b)
    && (forall i :: i in m.active ==> i < |m.exes|)
  }

  // `newMaps` names, once each, the maps that linking these segments added.
  ghost predicate Linking(m: State, m': State, id: ExeId, segments: seq<MapSegment>, newMaps: seq<MapKey>) {
    m' == LinkMaps(m, id, segments) && Enumerates(newMaps, m'.maps.Keys - m.maps.Keys)
  }

  lemma LinkingStep(m: State, m': State, id: ExeId, segments: seq<MapSegment>, i: nat, newMaps: seq<MapKey>)
    requires i < |segments| && m.maps.Keys <= m'.maps.Keys && Linking(m, m', id, segments[..i], newMaps)
    ensures var key := segments[i].Key();
            Linking(m, LinkMap(m', id, segments[i]), id, segments[..i + 1], if key in m'.maps then newMaps else newMaps + [key])
    ensures m.maps.Keys <= LinkMap(m', id, segments[i]).maps.Keys
  {
    assert segments[..i + 1][..i] == segments[..i];
    var m'' := LinkMap(m', id, segments[i]);
    assert m''.maps.Keys == m'.maps.Keys + {segments[i].Key()};
    if segments[i].Key() in m'.maps {
      assert m''.maps.Keys - m.maps.Keys == m'.maps.Keys - m.maps.Keys;
    } else {
      assert m''.maps.Keys - m.maps.Keys == (m'.maps.Keys - m.maps.Keys) + {segments[i].Key()};
    }
  }

  // The rejections reported for these candidates, in order, and the partial admissions.
  function Rejections(order: seq<Path>, batch: Batch, policy: Policy): seq<(Path, RejectReason)>
    requires forall p :: p in order ==> p in batch.candidates
  {
    if order == [] then []
    else
      var p := order[|order| - 1];
      var d := policy.decide(batch.candidates[p]);
      Rejections(order[..|order| - 1], batch, policy) + if d.Reject? then [(p, d.reason)] else []
  }

  function Partials(order: seq<Path>, batch: Batch, policy: Policy): seq<Path>
    requires forall p :: p in order ==> p in batch.candidates
  {
    if order == [] then []
    else
      var p := order[|order| - 1];
      var d := policy.decide(batch.candidates[p]);
      Partials(order[..|order| - 1], batch, policy) + if d == Accept(Partial) then [p] else []
  }

  // `names` lists the executables added on the way from `exes` to `exes'`, in id order.
  ghost predicate NamesAdded(exes: seq<Exe>, exes': seq<Exe>, names: seq<Path>) {
    && |exes'| == |exes| + |names|
    && (forall i :: 0 <= i < |exes| ==> exes'[i].path == exes[i].path)
    && (forall i :: 0 <= i < |names| ==> exes'[|exes| + i].path == names[i])
  }

  ghost predicate AllSeenRunning(exes: seq<Exe>, running: set<Path>, ids: set<ExeId>) {
    forall id :: id in ids ==> id < |exes| && exes[id].path in running
  }

  // The state and the report after deciding on the candidates in `order`; `ids` are
  // executables whose paths were seen running.
  ghost predicate Admitting(m: State, m': State, batch: Batch, policy: Policy, order: seq<Path>, delta: ModelDelta, ids: set<ExeId>)
    requires forall p :: p in order ==> p in batch.candidates
  {
    && m' == AdmitAll(m, order, batch, policy)
    && NamesAdded(m.exes, m'.exes, delta.newExes)
    && m.maps.Keys <= m'.maps.Keys
    && Enumerates(delta.newMaps, m'.maps.Keys - m.maps.Keys)
    && delta.rejected == Rejections(order, batch, policy)
    && delta.partialExes == Partials(order, batch, policy)
    && AllSeenRunning(m'.exes, batch.running, ids)
  }

  lemma {:induction false} LinkMapsKeeps(m: State, id: ExeId, segments: seq<MapSegment>)
    ensures LinkMaps(m, id, segments).exes == m.exes && m.maps.Keys <= LinkMaps(m, id, segments).maps.Keys
    decreases |segments|
  {
    if segments != [] {
      LinkMapsKeeps(m, id, segments[..|segments| - 1]);
    }
  }

  // Admission leaves every known path in its place and adds at most its own.
  lemma AdmitPaths(m: State, c: Candidate, now: U64)
    ensures var m' := Admit(m, c, now);
            && NamesAdded(m.exes, m'.exes, if Slot(m.exes, c.path) < |m.exes| then [] else [c.path])
            && Slot(m.exes, c.path) < |m'.exes| && m'.exes[Slot(m.exes, c.path)].path == c.path
            && m.maps.Keys <= m'.maps.Keys
  {
    LinkMapsKeeps(SeeExe(m, c.path, now), Slot(m.exes, c.path), c.maps);
  }

  lemma NamesAddedJoin(a: seq<Exe>, b: seq<Exe>, c: seq<Exe>, xs: seq<Path>, ys: seq<Path>)
    requires NamesAdded(a, b, xs) && NamesAdded(b, c, ys)
    ensures NamesAdded(a, c, xs + ys)
  {
    forall i | 0 <= i < |xs + ys|
      ensures c[|a| + i].path == (xs + ys)[i]
    {
      if i < |xs| {
        assert c[|a| + i].path == b[|a| + i].path;
      } else {
        assert c[|b| + (i - |xs|)].path == ys[i - |xs|];
      }
    }
  }

  lemma NewMapsJoin(a: set<MapKey>, b: set<MapKey>, c: set<MapKey>, xs: seq<MapKey>, ys: seq<MapKey>)
    requires a <= b <= c && Enumerates(xs, b - a) && Enumerates(ys, c - b)
    ensures Enumerates(xs + ys, c - a)
  {
    EnumeratesJoin(xs, ys, b - a, c - b);
    assert (b - a) + (c - b) == c - a;
  }

  lemma SeenRunningMore(a: seq<Exe>, b: seq<Exe>, names: seq<Path>, running: set<Path>, ids: set<ExeId>, more: set<ExeId>)
    requires NamesAdded(a, b, names) && AllSeenRunning(a, running, ids)
    requires forall id :: id in more ==> id < |b| && b[id].path in running
    ensures AllSeenRunning(b, running, ids + more)
  {
  }

  // One more candidate decided on.
  lemma DecideOne(m: State, order: seq<Path>, batch: Batch, policy: Policy, path: Path)
    requires path in batch.candidates
    requires forall p :: p in order ==> p in batch.candidates
    ensures var all := order + [path];
            var c := batch.candidates[path];
            var d := policy.decide(c);
            var m' := AdmitAll(m, order, batch, policy);
            && AdmitAll(m, all, batch, policy) == (if d.Accept? then Admit(m', c, batch.now) else m')
            && Rejections(all, batch, policy) == Rejections(order, batch, policy) + (if d.Reject? then [(path, d.reason)] else [])
            && Partials(all, batch, policy) == Partials(order, batch, policy) + (if d == Accept(Partial) then [path] else [])
  {
    assert (order + [path])[..|order|] == order;
  }

  lemma AdmittingAccept(m: State, m': State, batch: Batch, policy: Policy, order: seq<Path>, delta: ModelDelta, ids: set<ExeId>,
                        path: Path, newMaps: seq<MapKey>)
    requires path in batch.candidates && batch.candidates[path].path == path
    requires forall p :: p in order ==> p in batch.candidates
    requires Admitting(m, m', batch, policy, order, delta, ids)
    requires policy.decide(batch.candidates[path]).Accept?
    requires var c := batch.candidates[path];
             Linking(SeeExe(m', path, batch.now), Admit(m', c, batch.now), Slot(m'.exes, path), c.maps, newMaps)
    ensures var c := batch.candidates[path];
            var id := Slot(m'.exes, path);
            var delta' := delta.(newExes := if id < |m'.exes| then delta.newExes else delta.newExes + [path],
                                 newMaps := delta.newMaps + newMaps,
                                 partialExes := delta.partialExes + if policy.decide(c) == Accept(Partial) then [path] else []);
            Admitting(m, Admit(m', c, batch.now), batch, policy, order + [path], delta', ids + if path in batch.running then {id} else {})
  {
    hide LinkMaps, Enumerates, Admit, AdmitAll, Rejections, Partials, NamesAdded, AllSeenRunning, Slot;
    var c := batch.candidates[path];
    var m'' := Admit(m', c, batch.now);
    var id := Slot(m'.exes, path);
    assert SeeExe(m', path, batch.now).maps == m'.maps;
    hide SeeExe;
    AdmitPaths(m', c, batch.now);
    DecideOne(m, order, batch, policy, path);
    assert Enumerates(newMaps, m''.maps.Keys - m'.maps.Keys);
    hide Linking;
    var added := if id < |m'.exes| then [] else [path];
    NamesAddedJoin(m.exes, m'.exes, m''.exes, delta.newExes, added);
    assert delta.newExes + added == if id < |m'.exes| then delta.newExes else delta.newExes + [path];
    NewMapsJoin(m.maps.Keys, m'.maps.Keys, m''.maps.Keys, delta.newMaps, newMaps);
    SeenRunningMore(m'.exes, m''.exes, added, batch.running, ids, if path in batch.running then {id} else {});
  }

  lemma AdmittingOther(m: State, m': State, batch: Batch, policy: Policy, order: seq<Path>, delta: ModelDelta, ids: set<ExeId>, path: Path)
    requires path in batch.candidates
    requires forall p :: p in order ==> p in batch.candidates
    requires Admitting(m, m', batch, policy, order, delta, ids)
    requires !policy.decide(batch.candidates[path]).Accept?
    ensures var d := policy.decide(batch.candidates[path]);
            var delta' := delta.(rejected := delta.rejected + if d.Reject? then [(path, d.reason)] else []);
            Admitting(m, m', batch, policy, order + [path], delta', ids)
  {
    hide Enumerates, Admit, AdmitAll, Rejections, Partials, NamesAdded, AllSeenRunning;
    DecideOne(m, order, batch, policy, path);
  }

  // The paths whose flag moved to `running`, in id order.
  function Flipped(exes: seq<Exe>, exes': seq<Exe>, running: bool): seq<Path>
    requires |exes| == |exes'|
  {
    if exes == [] then []
    else
      var n := |exes| - 1;
      Flipped(exes[..n], exes'[..n], running)
      + if exes[n].running != exes'[n].running && exes'[n].running == running then [exes'[n].path] else []
  }

  // Every flag is set, and the three results say who changed which way and who runs.
  ghost predicate FlagsSet(exes: seq<Exe>, exes': seq<Exe>, batch: Batch,
                           runningNow: seq<Path>, stoppedNow: seq<Path>, running: set<ExeId>) {
    && exes' == SetRunning(exes, batch.running, batch.now)
    && running == RunningIds(exes')
    && runningNow == Flipped(exes, exes', true)
    && stoppedNow == Flipped(exes, exes', false)
  }

  // A loop over the executables has rewritten those before position `id`.
  ghost predicate Halfway(exes0: seq<Exe>, target: seq<Exe>, exes: seq<Exe>, id: nat) {
    && id <= |exes| == |exes0| == |target|
    && (forall i :: 0 <= i < id ==> exes[i] == target[i])
    && (forall i :: id <= i < |exes| ==> exes[i] == exes0[i])
  }

  lemma HalfwayStep(exes0: seq<Exe>, target: seq<Exe>, exes: seq<Exe>, id: nat)
    requires id < |exes| && Halfway(exes0, target, exes, id)
    ensures |target| == |exes0| == |exes| && exes[id] == exes0[id]
    ensures Halfway(exes0, target, exes[id := target[id]], id + 1)
    ensures target[id] == exes0[id] ==> Halfway(exes0, target, exes, id + 1)
  {
  }

  // The flag loop has dealt with the executables before position `id`.
  ghost predicate Flagging(exes0: seq<Exe>, exes: seq<Exe>, batch: Batch, id: nat, ids: set<ExeId>,
                           runningNow: seq<Path>, stoppedNow: seq<Path>, running: set<ExeId>)
  {
    var target := SetRunning(exes0, batch.running, batch.now);
    && Halfway(exes0, target, exes, id)
    && running == ids + RunningIds(target[..id])
    && runningNow == Flipped(exes0[..id], target[..id], true)
    && stoppedNow == Flipped(exes0[..id], target[..id], false)
  }

  lemma FlaggingStart(exes: seq<Exe>, batch: Batch, ids: set<ExeId>)
    ensures Flagging(exes, exes, batch, 0, ids, [], [], ids)
  {
  }

  lemma FlaggingStep(exes0: seq<Exe>, exes: seq<Exe>, batch: Batch, id: nat, ids: set<ExeId>,
                     runningNow: seq<Path>, stoppedNow: seq<Path>, running: set<ExeId>)
    requires id < |exes| && Flagging(exes0, exes, batch, id, ids, runningNow, stoppedNow, running)
    ensures var runs := exes[id].path in batch.running;
            var flipped := exes[id].running != runs;
            Flagging(exes0, exes[id := SetFlag(exes[id], runs, batch.now)], batch, id + 1, ids,
                     if flipped && runs then runningNow + [exes[id].path] else runningNow,
                     if flipped && !runs then stoppedNow + [exes[id].path] else stoppedNow,
                     if runs then running + {id} else running)
  {
    var target := SetRunning(exes0, batch.running, batch.now);
    HalfwayStep(exes0, target, exes, id);
    assert exes0[..id + 1][..id] == exes0[..id] && target[..id + 1][..id] == target[..id];
    assert RunningIds(target[..id + 1]) == RunningIds(target[..id]) + if target[id].running then {id} else {};
  }

  lemma FlaggingDone(exes0: seq<Exe>, exes: seq<Exe>, batch: Batch, ids: set<ExeId>,
                     runningNow: seq<Path>, stoppedNow: seq<Path>, running: set<ExeId>)
    requires AllSeenRunning(exes0, batch.running, ids)
    requires Flagging(exes0, exes, batch, |exes|, ids, runningNow, stoppedNow, running)
    ensures FlagsSet(exes0, exes, batch, runningNow, stoppedNow, running)
  {
    var target := SetRunning(exes0, batch.running, batch.now);
    assert exes == target && target[..|exes0|] == target && exes0[..|exes0|] == exes0;
    assert ids <= RunningIds(target);
  }

  /* ---------- completing the graph ---------- */

  // `edges` is `edges0` with the pairs in `done` added, each new one born now in some state.
  ghost predicate Ensured(edges0: map<EdgeKey, Edge>, edges: map<EdgeKey, Edge>, done: set<EdgeKey>, now: U64) {
    && edges.Keys == edges0.Keys + done
    && (forall k :: k in edges0 ==> edges[k] == edges0[k])
    && (forall k :: k in edges && k !in edges0 ==> exists s :: edges[k] == Fresh(s, now))
  }

  lemma EnsuredStep(edges0: map<EdgeKey, Edge>, edges: map<EdgeKey, Edge>, done: set<EdgeKey>, now: U64, k: EdgeKey, s: MarkovState)
    requires Ensured(edges0, edges, done, now)
    ensures Ensured(edges0, if k in edges then edges else edges[k := Fresh(s, now)], done + {k}, now)
  {
  }

  // The pairs met by the double loop: whole rows before `i`, and row `i` up to `j`.
  ghost function RowKeys(order: seq<ExeId>, i: nat, j: nat): set<EdgeKey>
    requires i < j <= |order|
  {
    set y | i < y < j :: PairKey(order[i], order[y])
  }

  ghost function RowsBefore(order: seq<ExeId>, i: nat): set<EdgeKey>
    requires i <= |order|
  {
    set x, y | 0 <= x < i && x < y < |order| :: PairKey(order[x], order[y])
  }

  lemma RowGrows(order: seq<ExeId>, i: nat, j: nat)
    requires i < j < |order|
    ensures RowKeys(order, i, j + 1) == RowKeys(order, i, j) + {PairKey(order[i], order[j])}
  {
  }

  lemma RowsGrow(order: seq<ExeId>, i: nat)
    requires i < |order|
    ensures RowsBefore(order, i + 1) == RowsBefore(order, i) + RowKeys(order, i, |order|)
  {
  }

  // The double loop meets every pair of distinct active executables.
  lemma RowsAreAllPairs(order: seq<ExeId>, active: set<ExeId>)
    requires Enumerates(order, active)
    ensures RowsBefore(order, |order|) == Pairs(active)
  {
    forall k | k in Pairs(active)
      ensures k in RowsBefore(order, |order|)
    {
      var x :| 0 <= x < |order| && order[x] == k.a;
      var y :| 0 <= y < |order| && order[y] == k.b;
      if x < y {
        assert k == PairKey(order[x], order[y]);
      } else {
        assert k == PairKey(order[y], order[x]);
      }
    }
  }

  function NamedPair(exes: seq<Exe>, names: (Path, Path)): EdgeKey {
    PairKey(Slot(exes, names.0), Slot(exes, names.1))
  }

  // The key vector grew from `keys0`, and `newEdges` names the appended keys in order.
  ghost predicate NamesAppended(exes: seq<Exe>, keys0: seq<EdgeKey>, keys: seq<EdgeKey>, newEdges: seq<(Path, Path)>) {
    && |keys| == |keys0| + |newEdges| && keys[..|keys0|] == keys0
    && (forall i :: 0 <= i < |newEdges| ==> NamedPair(exes, newEdges[i]) == keys[|keys0| + i])
  }

  method EnsureOne(markov: MarkovGraph, exes: seq<Exe>, a: ExeId, b: ExeId, now: U64, newEdges: seq<(Path, Path)>,
                   ghost edges0: map<EdgeKey, Edge>, ghost done: set<EdgeKey>, ghost keys0: seq<EdgeKey>)
    returns (newEdges': seq<(Path, Path)>)
    requires Distinct(exes) && a < |exes| && b < |exes|
    requires markov.Valid() && Ensured(edges0, markov.View(), done, now) && NamesAppended(exes, keys0, markov.keys, newEdges)
    modifies markov
    ensures markov.Valid() && Ensured(edges0, markov.View(), done + {PairKey(a, b)}, now)
    ensures NamesAppended(exes, keys0, markov.keys, newEdges')
  {
    hide Ensured, MarkovGraph.View, MarkovGraph.Valid, Distinct;
    var state := FromRunning(IsRunning(exes, a), IsRunning(exes, b));
    EnsuredStep(edges0, markov.View(), done, now, PairKey(a, b), state);
    SlotOfDistinct(exes, a);
    SlotOfDistinct(exes, b);
    hide Slot;
    var isNew := markov.EnsureEdge(a, b, now, state);
    newEdges' := if isNew then newEdges + [(exes[a].path, exes[b].path)] else newEdges;
  }

  // One row of the double loop: pair the executable at `i` with all listed after it.
  method EnsureRow(markov: MarkovGraph, exes: seq<Exe>, order: seq<ExeId>, i: nat, now: U64, newEdges: seq<(Path, Path)>,
                   ghost edges0: map<EdgeKey, Edge>, ghost done: set<EdgeKey>, ghost keys0: seq<EdgeKey>)
    returns (newEdges': seq<(Path, Path)>)
    requires Distinct(exes) && i < |order| && forall x :: 0 <= x < |order| ==> order[x] < |exes|
    requires markov.Valid() && Ensured(edges0, markov.View(), done, now) && NamesAppended(exes, keys0, markov.keys, newEdges)
    modifies markov
    ensures markov.Valid() && Ensured(edges0, markov.View(), done + RowKeys(order, i, |order|), now)
    ensures NamesAppended(exes, keys0, markov.keys, newEdges')
  {
    hide Ensured, NamesAppended, MarkovGraph.View, MarkovGraph.Valid, Distinct, RowKeys;
    newEdges' := newEdges;
    EmptyRow(order, i);
    assert done + {} == done;
    for j := i + 1 to |order|
      invariant markov.Valid() && Ensured(edges0, markov.View(), done + RowKeys(order, i, j), now)
      invariant NamesAppended(exes, keys0, markov.keys, newEdges')
    {
      RowGrows(order, i, j);
      assert done + RowKeys(order, i, j) + {PairKey(order[i], order[j])} == done + RowKeys(order, i, j + 1);
      newEdges' := EnsureOne(markov, exes, order[i], order[j], now, newEdges', edges0, done + RowKeys(order, i, j), keys0);
    }
  }

  // Ensure an edge between every two active executables, in whatever order they are listed.
  method EnsureEdges(markov: MarkovGraph, exes: seq<Exe>, order: seq<ExeId>, now: U64)
    returns (newEdges: seq<(Path, Path)>)
    requires Distinct(exes) && forall x :: 0 <= x < |order| ==> order[x] < |exes|
    requires markov.Valid()
    modifies markov
    ensures markov.Valid() && Ensured(old(markov.View()), markov.View(), RowsBefore(order, |order|), now)
    ensures NamesAppended(exes, old(markov.keys), markov.keys, newEdges)
  {
    newEdges := [];
    ghost var edges0, keys0 := markov.View(), markov.keys;
    NoRows(order);
    hide Distinct, RowsBefore, RowKeys;
    for i := 0 to |order|
      invariant markov.Valid() && Ensured(edges0, markov.View(), RowsBefore(order, i), now)
      invariant NamesAppended(exes, keys0, markov.keys, newEdges)
    {
      hide Ensured, NamesAppended, MarkovGraph.View, MarkovGraph.Valid;
      RowsGrow(order, i);
      newEdges := EnsureRow(markov, exes, order, i, now, newEdges, edges0, RowsBefore(order, i), keys0);
    }
  }

  lemma NoRows(order: seq<ExeId>)
    ensures RowsBefore(order, 0) == {}
  {
  }

  lemma EmptyRow(order: seq<ExeId>, i: nat)
    requires i < |order|
    ensures RowKeys(order, i, i + 1) == {}
  {
  }

  /* ---------- advancing every edge ---------- */

  function AdvanceAll(edges: map<EdgeKey, Edge>, exes: seq<Exe>, period: U64, now: U64, decay: real): map<EdgeKey, Edge>
    requires 0.0 <= decay
  {
    map k | k in edges :: AdvanceEdge(edges[k], PairState(exes, k), period, now, decay)
  }

  // The loop has advanced the edges of the first `i` columns.
  ghost predicate Advancing(keys: seq<EdgeKey>, edges0: map<EdgeKey, Edge>, edges: map<EdgeKey, Edge>, i: nat,
                            exes: seq<Exe>, period: U64, now: U64, decay: real)
    requires 0.0 <= decay
  {
    && Listed(keys, edges0) && i <= |keys|
    && edges.Keys == edges0.Keys
    && (forall j :: 0 <= j < i ==> edges[keys[j]] == AdvanceEdge(edges0[keys[j]], PairState(exes, keys[j]), period, now, decay))
    && (forall j :: i <= j < |keys| ==> edges[keys[j]] == edges0[keys[j]])
  }

  lemma AdvancingStart(keys: seq<EdgeKey>, edges0: map<EdgeKey, Edge>, exes: seq<Exe>, period: U64, now: U64, decay: real)
    requires 0.0 <= decay && Listed(keys, edges0)
    ensures Advancing(keys, edges0, edges0, 0, exes, period, now, decay)
  {
  }

  lemma AdvancingStep(keys: seq<EdgeKey>, edges0: map<EdgeKey, Edge>, edges: map<EdgeKey, Edge>, i: nat,
                      exes: seq<Exe>, period: U64, now: U64, decay: real)
    requires 0.0 <= decay && i < |keys| && Advancing(keys, edges0, edges, i, exes, period, now, decay)
    ensures keys[i] in edges
    ensures Advancing(keys, edges0, edges[keys[i] := AdvanceEdge(edges[keys[i]], PairState(exes, keys[i]), period, now, decay)],
                      i + 1, exes, period, now, decay)
  {
    hide AdvanceEdge;
  }

  lemma AdvancingDone(keys: seq<EdgeKey>, edges0: map<EdgeKey, Edge>, edges: map<EdgeKey, Edge>,
                      exes: seq<Exe>, period: U64, now: U64, decay: real)
    requires 0.0 <= decay && Advancing(keys, edges0, edges, |keys|, exes, period, now, decay)
    ensures edges == AdvanceAll(edges0, exes, period, now, decay)
  {
    hide AdvanceEdge;
    forall k | k in edges0
      ensures edges[k] == AdvanceEdge(edges0[k], PairState(exes, k), period, now, decay)
    {
      var j :| 0 <= j < |keys| && keys[j] == k;
    }
  }

  /* ---------- the whole report ---------- */

  // `newEdges` names each edge of the new state that the old one lacked exactly once.
  ghost predicate NamesNewEdges(m: State, m': State, newEdges: seq<(Path, Path)>) {
    && (forall i :: 0 <= i < |newEdges| ==>
          NamedPair(m'.exes, newEdges[i]) in m'.edges && NamedPair(m'.exes, newEdges[i]) !in m.edges)
    && (forall k :: k in m'.edges && k !in m.edges ==> exists i :: 0 <= i < |newEdges| && NamedPair(m'.exes, newEdges[i]) == k)
    && (forall i, j :: 0 <= i < j < |newEdges| ==> NamedPair(m'.exes, newEdges[i]) != NamedPair(m'.exes, newEdges[j]))
  }

  ghost predicate Reported(m: State, m': State, batch: Batch, policy: Policy, order: seq<Path>, delta: ModelDelta)
    requires forall p :: p in order ==> p in batch.candidates
  {
    var admitted := AdmitAll(m, order, batch, policy);
    && NamesAdded(m.exes, m'.exes, delta.newExes)
    && Enumerates(delta.newMaps, m'.maps.Keys - m.maps.Keys)
    && delta.rejected == Rejections(order, batch, policy)
    && delta.partialExes == Partials(order, batch, policy)
    && delta.runningNow == Flipped(admitted.exes, SetRunning(admitted.exes, batch.running, batch.now), true)
    && delta.stoppedNow == Flipped(admitted.exes, SetRunning(admitted.exes, batch.running, batch.now), false)
    && NamesNewEdges(m, m', delta.newEdges)
  }

  // Slots do not depend on anything but the paths.
  lemma {:induction false} SlotByPaths(a: seq<Exe>, b: seq<Exe>, path: Path)
    requires |a| == |b| && forall i :: 0 <= i < |a| ==> a[i].path == b[i].path
    ensures Slot(a, path) == Slot(b, path)
  {
    if a != [] {
      SlotByPaths(a[1..], b[1..], path);
    }
  }

  lemma AppendedAreNew(m: State, m': State, pruned: map<EdgeKey, Edge>, exes: seq<Exe>,
                       keys0: seq<EdgeKey>, keys: seq<EdgeKey>, newEdges: seq<(Path, Path)>)
    requires Listed(keys0, pruned) && Listed(keys, m'.edges) && NamesAppended(exes, keys0, keys, newEdges)
    requires forall k :: k in m'.edges ==> (k in m.edges <==> k in pruned)
    requires |exes| == |m'.exes| && forall i :: 0 <= i < |exes| ==> exes[i].path == m'.exes[i].path
    ensures NamesNewEdges(m, m', newEdges)
  {
    var n := |keys0|;
    forall i | 0 <= i < |newEdges|
      ensures NamedPair(m'.exes, newEdges[i]) == keys[n + i]
      ensures keys[n + i] in m'.edges && keys[n + i] !in pruned
    {
      SlotByPaths(exes, m'.exes, newEdges[i].0);
      SlotByPaths(exes, m'.exes, newEdges[i].1);
      assert forall x :: 0 <= x < n ==> keys[..n][x] == keys[x];
    }
    forall k | k in m'.edges && k !in m.edges
      ensures exists i :: 0 <= i < |newEdges| && NamedPair(m'.exes, newEdges[i]) == k
    {
      var x :| 0 <= x < |keys| && keys[x] == k;
      assert forall y :: 0 <= y < n ==> keys[y] == keys0[y];
      assert n <= x;
      assert NamedPair(m'.exes, newEdges[x - n]) == k;
    }
  }

  // Pruning, completing and advancing yield the complete graph on the active executables,
  // whatever state the missing edges were born in.
  lemma CompletedIsAdvanced(edges: map<EdgeKey, Edge>, pruned: map<EdgeKey, Edge>, ensured: map<EdgeKey, Edge>,
                            exes: seq<Exe>, exes': seq<Exe>, active: set<ExeId>, period: U64, now: U64, decay: real)
    requires 0.0 <= decay && forall k :: k in edges ==> k.a < k.b
    requires pruned == map k | k in edges && BothIn(k, active) :: edges[k]
    requires Ensured(pruned, ensured, Pairs(active), now)
    requires |exes'| == |exes| && forall i :: 0 <= i < |exes| ==> exes'[i].running == exes[i].running
    ensures AdvanceAll(ensured, exes', period, now, decay) == Advance(edges, exes, active, period, now, decay)
    ensures forall k :: k in ensured ==> (k in edges <==> k in pruned)
  {
    hide AdvanceEdge;
    assert pruned.Keys <= Pairs(active);
    forall k | k in Pairs(active)
      ensures PairState(exes', k) == PairState(exes, k)
      ensures AdvanceEdge(ensured[k], PairState(exes, k), period, now, decay)
           == AdvanceEdge(Source(edges, exes, k, now), PairState(exes, k), period, now, decay)
    {
      if k !in pruned {
        var s :| ensured[k] == Fresh(s, now);
        BirthStateIrrelevant(s, PairState(exes, k), period, now, decay);
      }
    }
  }

  // Everything after admission: flags, active set, graph and accounting, from `m1` to `m'`.
  // The ghost values are the intermediate results of the phases.
  datatype Trail = Trail(exes: seq<Exe>, running: set<ExeId>, pruned: map<EdgeKey, Edge>, ensured: map<EdgeKey, Edge>,
                         keys0: seq<EdgeKey>, keys: seq<EdgeKey>)

  ghost predicate Flags(m1: State, batch: Batch, delta: ModelDelta, t: Trail) {
    FlagsSet(m1.exes, t.exes, batch, delta.runningNow, delta.stoppedNow, t.running)
  }

  ghost predicate Rewired(edges: map<EdgeKey, Edge>, active: map<ExeId, U64>, active': map<ExeId, U64>, now: U64, window: U64,
                          newEdges: seq<(Path, Path)>, t: Trail)
  {
    && active' == Expire(Touch(active, t.running, now), now, window)
    && t.pruned == (map k | k in edges && BothIn(k, active'.Keys) :: edges[k])
    && Ensured(t.pruned, t.ensured, Pairs(active'.Keys), now)
    && Listed(t.keys0, t.pruned) && NamesAppended(t.exes, t.keys0, t.keys, newEdges)
  }

  ghost predicate Settled(m1: State, m': State, batch: Batch, delta: ModelDelta, t: Trail, tuning: Tuning)
    requires 0.0 <= tuning.decay
  {
    var period := SatSub(batch.now, m1.lastAccounting);
    && Flags(m1, batch, delta, t)
    && Rewired(m1.edges, m1.active, m'.active, batch.now, tuning.window, delta.newEdges, t)
    && Listed(t.keys, m'.edges)
    && m' == State(Account(t.exes, period), m1.maps, m1.links,
                   AdvanceAll(t.ensured, Account(t.exes, period), period, batch.now, tuning.decay),
                   m'.active, batch.now, batch.now)
  }

  // The phases of the update, put together.
  lemma PhasesMakeUpdate(m: State, m1: State, m': State, batch: Batch, policy: Policy, order: seq<Path>, admitted: ModelDelta,
                         delta: ModelDelta, ids: set<ExeId>, t: Trail, tuning: Tuning)
    requires forall p :: p in order ==> p in batch.candidates
    requires 0.0 <= tuning.decay && WellKeyed(m) && m1.edges == m.edges && m1.active == m.active
    requires Admitting(m, m1, batch, policy, order, admitted, ids)
    requires delta == admitted.(newEdges := delta.newEdges, runningNow := delta.runningNow, stoppedNow := delta.stoppedNow)
    requires Settled(m1, m', batch, delta, t, tuning)
    ensures m' == Model.Update(m, batch, policy, order, tuning)
    ensures Reported(m, m', batch, policy, order, delta)
  {
    hide Advance, AdvanceAll, Pairs, Expire, Touch, Ensured, AdmitAll, NamedPair, Rejections, Partials, NamesNewEdges, Enumerates;
    var period := SatSub(batch.now, m1.lastAccounting);
    CompletedIsAdvanced(m.edges, t.pruned, t.ensured, t.exes, Account(t.exes, period), m'.active.Keys, period, batch.now, tuning.decay);
    AdvanceAllKeys(t.ensured, m'.exes, period, batch.now, tuning.decay);
    AppendedAreNew(m, m', t.pruned, t.exes, t.keys0, t.keys, delta.newEdges);
    hide Listed, NamesAppended;
  }

  // Admission never shortens the executable table, and the ids it returns are in it.
  lemma AdmittingBounds(m: State, m1: State, batch: Batch, policy: Policy, order: seq<Path>, delta: ModelDelta, ids: set<ExeId>)
    requires forall p :: p in order ==> p in batch.candidates
    requires Admitting(m, m1, batch, policy, order, delta, ids)
    ensures |m.exes| <= |m1.exes| && AllSeenRunning(m1.exes, batch.running, ids)
  {
    hide AdmitAll, Enumerates;
  }

  lemma FlagsBounds(m1: State, batch: Batch, delta: ModelDelta, t: Trail)
    requires Flags(m1, batch, delta, t)
    ensures |t.exes| == |m1.exes| && forall i :: i in t.running ==> i < |t.exes|
  {
  }

  lemma AdvanceAllKeys(edges: map<EdgeKey, Edge>, exes: seq<Exe>, period: U64, now: U64, decay: real)
    requires 0.0 <= decay
    ensures AdvanceAll(edges, exes, period, now, decay).Keys == edges.Keys
  {
  }

  method CollectEvents(modelTime: U64, events: seq<Event>, policy: Policy) returns (batch: Batch)
    ensures batch == Collect(modelTime, events, policy)
  {
    var now := modelTime;
    var candidates: map<Path, Candidate> := map[];
    var running: set<Path> := {};
    for i := 0 to |events|
      invariant Batch(now, candidates, running) == Collect(modelTime, events[..i], policy)
    {
      assert events[..i + 1][..i] == events[..i];
      match events[i] {
        case ObsBegin(time, _) =>
          now := time;
        case ExeSeen(path, pid) =>
          running := running + {path};
          if path !in candidates {
            candidates := candidates[path := NewCandidate(path, pid)];
          }
          assert candidates[path := candidates[path]] == candidates;
        case MapSeen(exePath, segment) =>
          if exePath !in candidates {
            candidates := candidates[exePath := NewCandidate(exePath, 0)];
          }
          var c := candidates[exePath];
          if policy.allowMap(segment.path) {
            c := c.(totalSize := SatAdd(c.totalSize, segment.length), maps := c.maps + [segment]);
          } else {
            c := c.(rejectedMaps := c.rejectedMaps + [segment.path]);
          }
          candidates := candidates[exePath := c];
        case MemSeen(_) =>
        case ObsEnd(_, _) =>
      }
    }
    assert events[..|events|] == events;
    batch := Batch(now, candidates, running);
  }

  class DefaultModelUpdater {
    const activeWindow: U64
    const decay: real

    ghost predicate Valid() {
      0.0 <= decay
    }

    ghost function Tuned(): Tuning {
      Tuning(activeWindow, decay)
    }

    constructor (activeWindow: U64, decay: real)
      requires 0.0 <= decay
      ensures Valid() && Tuned() == Tuning(activeWindow, decay)
    {
      this.activeWindow := activeWindow;
      this.decay := decay;
    }

    method LinkOne(stores: Stores, exeId: ExeId, segment: MapSegment) returns (isNew: bool)
      requires stores.Valid() && exeId < |stores.exes.exes|
      modifies stores.maps, stores.exeMaps
      ensures stores.Valid() && stores.View() == LinkMap(old(stores.View()), exeId, segment)
      ensures isNew <==> segment.Key() !in old(stores.View()).maps
    {
      var mapId;
      mapId, isNew := stores.EnsureMapWithFlag(segment);
      stores.AttachMap(exeId, mapId);
    }

    method LinkAll(stores: Stores, exeId: ExeId, segments: seq<MapSegment>) returns (newMaps: seq<MapKey>)
      requires stores.Valid() && exeId < |stores.exes.exes|
      modifies stores.maps, stores.exeMaps
      ensures stores.Valid() && Linking(old(stores.View()), stores.View(), exeId, segments, newMaps)
    {
      newMaps := [];
      ghost var m := stores.View();
      for i := 0 to |segments|
        invariant stores.Valid() && m.maps.Keys <= stores.View().maps.Keys
        invariant Linking(m, stores.View(), exeId, segments[..i], newMaps)
      {
        hide Linking, LinkMap, Stores.View, Stores.Valid;
        LinkingStep(m, stores.View(), exeId, segments, i, newMaps);
        var isNew := LinkOne(stores, exeId, segments[i]);
        if isNew {
          newMaps := newMaps + [segments[i].Key()];
        }
      }
      assert segments[..|segments|] == segments;
    }

    // See the executable of an accepted candidate: known or new, it was last seen now.
    method SeeOne(stores: Stores, path: Path, now: U64) returns (exeId: ExeId, isNew: bool)
      requires stores.Valid()
      modifies stores.exes
      ensures stores.Valid() && stores.View() == SeeExe(old(stores.View()), path, now)
      ensures exeId == Slot(old(stores.View()).exes, path) && exeId < |stores.exes.exes|
      ensures isNew <==> exeId == |old(stores.View()).exes|
    {
      var known := stores.exes.IdByKey(path);
      isNew := known.None?;
      exeId := stores.EnsureExe(path);
      stores.exes.Put(exeId, stores.exes.exes[exeId].(lastSeen := Some(now)));
    }

    method AdmitOne(stores: Stores, c: Candidate, now: U64) returns (exeId: ExeId, isNew: bool, newMaps: seq<MapKey>)
      requires stores.Valid()
      modifies stores.exes, stores.maps, stores.exeMaps
      ensures stores.Valid() && stores.View() == Admit(old(stores.View()), c, now)
      ensures Linking(SeeExe(old(stores.View()), c.path, now), stores.View(), Slot(old(stores.View()).exes, c.path), c.maps, newMaps)
      ensures exeId == Slot(old(stores.View()).exes, c.path) && (isNew <==> exeId == |old(stores.View()).exes|)
    {
      exeId, isNew := SeeOne(stores, c.path, now);
      newMaps := LinkAll(stores, exeId, c.maps);
    }

    // Decide on one candidate; `m` is the state before the first, `order` those decided so far.
    method AdmitNext(stores: Stores, batch: Batch, policy: Policy, path: Path, delta: ModelDelta, ids: set<ExeId>,
                     ghost m: State, ghost order: seq<Path>)
      returns (delta': ModelDelta, ids': set<ExeId>)
      requires path in batch.candidates && batch.candidates[path].path == path
      requires forall p :: p in order ==> p in batch.candidates
      requires stores.Valid() && Admitting(m, stores.View(), batch, policy, order, delta, ids)
      modifies stores.exes, stores.maps, stores.exeMaps
      ensures stores.Valid() && Admitting(m, stores.View(), batch, policy, order + [path], delta', ids')
      ensures SameRest(delta, delta')
    {
      hide Admitting, Linking, Admit, SeeExe, Stores.View, Stores.Valid;
      var c := batch.candidates[path];
      var decision := policy.decide(c);
      ghost var m' := stores.View();
      match decision {
        case Reject(reason) =>
          AdmittingOther(m, m', batch, policy, order, delta, ids, path);
          delta', ids' := delta.(rejected := delta.rejected + [(path, reason)]), ids;
        case Defer =>
          AdmittingOther(m, m', batch, policy, order, delta, ids, path);
          assert delta.(rejected := delta.rejected + []) == delta;
          delta', ids' := delta, ids;
        case Accept(completeness) =>
          var exeId, isNew, newMaps := AdmitOne(stores, c, batch.now);
          AdmittingAccept(m, m', batch, policy, order, delta, ids, path, newMaps);
          delta' := delta.(newExes := if isNew then delta.newExes + [path] else delta.newExes,
                           newMaps := delta.newMaps + newMaps,
                           partialExes := delta.partialExes + if completeness == Partial then [path] else []);
          ids' := ids + if path in batch.running then {exeId} else {};
      }
    }

    method AdmitCandidates(stores: Stores, batch: Batch, policy: Policy)
      returns (delta: ModelDelta, ids: set<ExeId>, ghost order: seq<Path>)
      requires stores.Valid()
      requires forall p :: p in batch.candidates ==> batch.candidates[p].path == p
      modifies stores.exes, stores.maps, stores.exeMaps
      ensures stores.Valid() && Enumerates(order, batch.candidates.Keys)
      ensures Admitting(old(stores.View()), stores.View(), batch, policy, order, delta, ids)
      ensures SameRest(NO_DELTA, delta)
    {
      delta := NO_DELTA;
      ids := {};
      order := [];
      ghost var m := stores.View();
      var todo := batch.candidates.Keys;
      assert batch.candidates.Keys - todo == {};
      while todo != {}
        invariant stores.Valid() && todo <= batch.candidates.Keys
        invariant Enumerates(order, batch.candidates.Keys - todo)
        invariant Admitting(m, stores.View(), batch, policy, order, delta, ids)
        invariant SameRest(NO_DELTA, delta)
        decreases todo
      {
        hide Admitting, Stores.View, Stores.Valid;
        var path :| path in todo;
        assert (batch.candidates.Keys - todo) + {path} == batch.candidates.Keys - (todo - {path});
        EnumeratesMore(order, batch.candidates.Keys - todo, path);
        delta, ids := AdmitNext(stores, batch, policy, path, delta, ids, m, order);
        todo, order := todo - {path}, order + [path];
      }
      assert batch.candidates.Keys - {} == batch.candidates.Keys;
    }

    // Set every running flag from the paths seen running, and report who changed.
    method UpdateFlags(exes: ExeStore, batch: Batch, ids: set<ExeId>)
      returns (runningNow: seq<Path>, stoppedNow: seq<Path>, running: set<ExeId>)
      requires exes.Valid()
      requires AllSeenRunning(exes.exes, batch.running, ids)
      modifies exes
      ensures exes.Valid() && FlagsSet(old(exes.exes), exes.exes, batch, runningNow, stoppedNow, running)
    {
      hide Flagging, FlagsSet, ExeStore.Valid, SetFlag;
      runningNow, stoppedNow, running := [], [], ids;
      ghost var exes0 := exes.exes;
      FlaggingStart(exes0, batch, ids);
      var id := 0;
      while id < |exes.exes|
        invariant exes.Valid() && id <= |exes.exes|
        invariant Flagging(exes0, exes.exes, batch, id, ids, runningNow, stoppedNow, running)
        decreases |exes.exes| - id
      {
        FlaggingStep(exes0, exes.exes, batch, id, ids, runningNow, stoppedNow, running);
        var exe := exes.exes[id];
        var isRunning := exe.path in batch.running;
        if exe.running != isRunning {
          if isRunning {
            runningNow := runningNow + [exe.path];
          } else {
            stoppedNow := stoppedNow + [exe.path];
          }
        }
        exes.Put(id, SetFlag(exe, isRunning, batch.now));
        if isRunning {
          running := running + {id};
        }
        id := id + 1;
      }
      FlaggingDone(exes0, exes.exes, batch, ids, runningNow, stoppedNow, running);
    }

    // Charge the elapsed period to every running executable.
    method AccountTotals(exes: ExeStore, period: U64)
      requires exes.Valid()
      modifies exes
      ensures exes.Valid() && exes.exes == Account(old(exes.exes), period)
    {
      ghost var exes0 := exes.exes;
      ghost var target := Account(exes0, period);
      if period > 0 {
        var count := |exes.exes|;
        for id := 0 to count
          invariant |exes.exes| == count && exes.Valid() && Halfway(exes0, target, exes.exes, id)
        {
          HalfwayStep(exes0, target, exes.exes, id);
          hide Halfway, ExeStore.Valid;
          var exe := exes.exes[id];
          if exe.running {
            exes.Put(id, exe.(total := SatAdd(exe.total, period)));
          }
        }
      }
      assert exes.exes == target;
    }

    // Charge simultaneous running time and fire the transition of every edge.
    method AdvanceEdges(markov: MarkovGraph, exes: seq<Exe>, period: U64, now: U64)
      requires Valid() && markov.Valid()
      modifies markov
      ensures markov.Valid() && markov.keys == old(markov.keys)
      ensures markov.View() == AdvanceAll(old(markov.View()), exes, period, now, decay)
    {
      ghost var edges0 := markov.View();
      ghost var keys := markov.keys;
      KeysListed(markov);
      hide MarkovGraph.View, MarkovGraph.Valid, AdvanceEdge, Listed, Advancing, AdvanceAll;
      AdvancingStart(keys, edges0, exes, period, now, decay);
      var i := 0;
      while i < |markov.keys|
        invariant markov.Valid() && markov.keys == keys && i <= |keys|
        invariant Advancing(keys, edges0, markov.View(), i, exes, period, now, decay)
        decreases |markov.keys| - i
      {
        AdvancingStep(keys, edges0, markov.View(), i, exes, period, now, decay);
        AdvanceOne(markov, i, exes, period, now);
        i := i + 1;
      }
      AdvancingDone(keys, edges0, markov.View(), exes, period, now, decay);
    }

    method AdvanceOne(markov: MarkovGraph, i: nat, exes: seq<Exe>, period: U64, now: U64)
      requires Valid() && markov.Valid() && i < |markov.keys|
      modifies markov
      ensures markov.Valid() && markov.keys == old(markov.keys) && markov.keys[i] in old(markov.View())
      ensures var k := markov.keys[i];
              markov.View() == old(markov.View())[k := AdvanceEdge(old(markov.View())[k], PairState(exes, k), period, now, decay)]
    {
      hide MarkovGraph.View, MarkovGraph.Valid, Transition;
      var key := markov.keys[i];
      var aRunning, bRunning := IsRunning(exes, key.a), IsRunning(exes, key.b);
      if period > 0 && aRunning && bRunning {
        markov.AddBoth(i, period);
      }
      markov.UpdateState(i, FromRunning(aRunning, bRunning), now, decay);
    }

    // Refresh the active set, prune the graph to it and complete it; `running` are the
    // executables seen running now.
    method Rewire(markov: MarkovGraph, activeSet: ActiveSet, exes: seq<Exe>, running: set<ExeId>, now: U64)
      returns (newEdges: seq<(Path, Path)>, ghost t: Trail)
      requires markov.Valid() && Distinct(exes)
      requires forall i :: i in running || i in activeSet.lastSeen ==> i < |exes|
      modifies markov, activeSet
      ensures markov.Valid() && t.exes == exes && t.running == running && t.keys == markov.keys && t.ensured == markov.View()
      ensures Rewired(old(markov.View()), old(activeSet.lastSeen), activeSet.lastSeen, now, activeWindow, newEdges, t)
    {
      hide MarkovGraph.View, MarkovGraph.Valid, Listed, NamesAppended, Ensured, Distinct;
      activeSet.Update(running, now);
      var _ := activeSet.Prune(now, activeWindow);
      var active := activeSet.Exes();
      assert forall i :: i in active ==> i < |exes|;
      hide Expire, Touch;
      markov.PruneInactive(active);
      ghost var pruned, keys0 := markov.View(), markov.keys;
      KeysListed(markov);
      var order := Enumerate(active);
      assert forall x :: 0 <= x < |order| ==> order[x] in active;
      newEdges := EnsureEdges(markov, exes, order, now);
      RowsAreAllPairs(order, active);
      t := Trail(exes, running, pruned, markov.View(), keys0, markov.keys);
    }

    // Charge the executables and the edges, and set the clocks.
    method AccountAndAdvance(stores: Stores, now: U64)
      requires Valid() && stores.Valid()
      modifies stores, stores.exes, stores.markov
      ensures stores.Valid() && stores.markov.keys == old(stores.markov.keys)
      ensures var m := old(stores.View());
              var period := SatSub(now, m.lastAccounting);
              var exes := Account(m.exes, period);
              stores.View() == m.(exes := exes, edges := AdvanceAll(m.edges, exes, period, now, decay),
                                  lastAccounting := now, modelTime := now)
    {
      hide Account, AdvanceAll, MarkovGraph.View, MarkovGraph.Valid;
      ghost var links := stores.Links();
      var period := SatSub(now, stores.lastAccounting);
      AccountTotals(stores.exes, period);
      AdvanceEdges(stores.markov, stores.exes.exes, period, now);
      stores.lastAccounting := now;
      stores.modelTime := now;
      assert stores.Links() == links;
    }

    // Everything after admission.
    method Settle(stores: Stores, batch: Batch, ids: set<ExeId>, admitted: ModelDelta) returns (delta: ModelDelta, ghost t: Trail)
      requires Valid() && stores.Valid()
      requires AllSeenRunning(stores.exes.exes, batch.running, ids)
      requires forall i :: i in stores.active.lastSeen ==> i < |stores.exes.exes|
      modifies stores, stores.exes, stores.markov, stores.active
      ensures stores.Valid() && Settled(old(stores.View()), stores.View(), batch, delta, t, Tuned())
      ensures delta == admitted.(newEdges := delta.newEdges, runningNow := delta.runningNow, stoppedNow := delta.stoppedNow)
    {
      hide FlagsSet, Rewired, Listed, Account, AdvanceAll, MarkovGraph.View, MarkovGraph.Valid;
      ghost var m1 := stores.View();
      var runningNow, stoppedNow, running := UpdateFlags(stores.exes, batch, ids);
      FlagsBounds(m1, batch, NO_DELTA.(runningNow := runningNow, stoppedNow := stoppedNow),
                  Trail(stores.exes.exes, running, map[], map[], [], []));
      var newEdges;
      newEdges, t := Rewire(stores.markov, stores.active, stores.exes.exes, running, batch.now);
      AccountAndAdvance(stores, batch.now);
      KeysListed(stores.markov);
      delta := admitted.(newEdges := newEdges, runningNow := runningNow, stoppedNow := stoppedNow);
    }

    method Apply(stores: Stores, events: seq<Event>, policy: Policy) returns (delta: ModelDelta, ghost batch: Batch, ghost order: seq<Path>)
      requires Valid() && stores.Valid() && WellKeyed(stores.View())
      modifies stores, stores.exes, stores.maps, stores.exeMaps, stores.markov, stores.active
      ensures stores.Valid()
      ensures batch == Collect(old(stores.modelTime), events, policy)
      ensures Enumerates(order, batch.candidates.Keys)
      ensures stores.View() == Model.Update(old(stores.View()), batch, policy, order, Tuned())
      ensures Reported(old(stores.View()), stores.View(), batch, policy, order, delta)
    {
      hide Collect, Admitting, AllSeenRunning, Settled, Reported, Update;
      ghost var m := stores.View();
      var seen := CollectEvents(stores.modelTime, events, policy);
      batch := seen;
      CollectFacts(stores.modelTime, events, policy);
      var admitted, ids;
      admitted, ids, order := AdmitCandidates(stores, seen, policy);
      ghost var m1 := stores.View();
      AdmittingBounds(m, m1, seen, policy, order, admitted, ids);
      ghost var t;
      delta, t := Settle(stores, seen, ids, admitted);
      PhasesMakeUpdate(m, m1, stores.View(), seen, policy, order, admitted, delta, ids, t, Tuned());
    }
  }
}