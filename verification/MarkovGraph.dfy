/**
 The Markov graph as a structure of arrays: seven parallel vectors and a hash
 index, which together must behave as one map from pairs to edges.
 */
module MarkovGraphStore {
  import opened Domain
  import opened MarkovEdge

  // Both ends of the pair are active.
  predicate BothIn(k: EdgeKey, active: set<ExeId>) {
    k.a in active && k.b in active
  }

  // The index and the key vector are inverse to each other.
  ghost predicate Inverse(keys: seq<EdgeKey>, index: map<EdgeKey, nat>) {
    && (forall i :: 0 <= i < |keys| ==> keys[i] in index && index[keys[i]] == i)
    && (forall k :: k in index ==> index[k] < |keys| && keys[index[k]] == k)
  }

  // One edge per column of the parallel vectors.
  ghost function Columns(states: seq<MarkovState>, lastChanges: seq<U64>, lastLefts: seq<Stamps>,
                         ttls: seq<Row>, tps: seq<Matrix>, boths: seq<U64>): (r: seq<Edge>)
    requires |states| == |lastChanges| == |lastLefts| == |ttls| == |tps| == |boths|
    ensures |r| == |states|
  {
    seq(|states|, i requires 0 <= i < |states| =>
      Edge(states[i], lastChanges[i], lastLefts[i], ttls[i], tps[i], boths[i]))
  }

  ghost function Table(index: map<EdgeKey, nat>, edges: seq<Edge>): (r: map<EdgeKey, Edge>)
    requires forall k :: k in index ==> index[k] < |edges|
    ensures r.Keys == index.Keys
  {
    map k | k in index :: edges[index[k]]
  }

  lemma TableSet(keys: seq<EdgeKey>, index: map<EdgeKey, nat>, edges: seq<Edge>, i: nat, e: Edge)
    requires Inverse(keys, index) && |edges| == |keys| && i < |keys|
    ensures Table(index, edges[i := e]) == Table(index, edges)[keys[i] := e]
  {
  }

  lemma TableAppend(keys: seq<EdgeKey>, index: map<EdgeKey, nat>, edges: seq<Edge>, k: EdgeKey, e: Edge)
    requires Inverse(keys, index) && |edges| == |keys| && k !in index
    ensures Inverse(keys + [k], index[k := |keys|])
    ensures Table(index[k := |keys|], edges + [e]) == Table(index, edges)[k := e]
  {
  }

  lemma TableSwapRemove(keys: seq<EdgeKey>, index: map<EdgeKey, nat>, edges: seq<Edge>, i: nat)
    requires Inverse(keys, index) && |edges| == |keys| && i < |keys|
    ensures var last := |keys| - 1;
            var index' := (if i != last then index[keys[last] := i] else index) - {keys[i]};
            && Inverse(DropSwap(keys, i), index')
            && Table(index', DropSwap(edges, i)) == Table(index, edges) - {keys[i]}
  {
  }

  lemma ColumnsSet(states: seq<MarkovState>, lastChanges: seq<U64>, lastLefts: seq<Stamps>,
                   ttls: seq<Row>, tps: seq<Matrix>, boths: seq<U64>, i: nat, e: Edge)
    requires i < |states| == |lastChanges| == |lastLefts| == |ttls| == |tps| == |boths|
    ensures Columns(states[i := e.state], lastChanges[i := e.lastChange], lastLefts[i := e.lastLeft],
                    ttls[i := e.ttl], tps[i := e.tp], boths[i := e.both])
            == Columns(states, lastChanges, lastLefts, ttls, tps, boths)[i := e]
  {
  }

  lemma ColumnsDropSwap(states: seq<MarkovState>, lastChanges: seq<U64>, lastLefts: seq<Stamps>,
                        ttls: seq<Row>, tps: seq<Matrix>, boths: seq<U64>, i: nat)
    requires i < |states| == |lastChanges| == |lastLefts| == |ttls| == |tps| == |boths|
    ensures Columns(DropSwap(states, i), DropSwap(lastChanges, i), DropSwap(lastLefts, i),
                    DropSwap(ttls, i), DropSwap(tps, i), DropSwap(boths, i))
            == DropSwap(Columns(states, lastChanges, lastLefts, ttls, tps, boths), i)
  {
    hide DropSwap;
  }

  class MarkovGraph {
    var keys: seq<EdgeKey>
    var states: seq<MarkovState>
    var lastChanges: seq<U64>
    var lastLefts: seq<Stamps>
    var ttls: seq<Row>
    var tps: seq<Matrix>
    var boths: seq<U64>
    var keyToIndex: map<EdgeKey, nat>

    ghost predicate Valid()
      reads this
    {
      && |keys| == |states| == |lastChanges| == |lastLefts| == |ttls| == |tps| == |boths|
      && Inverse(keys, keyToIndex)
    }

    ghost function Edges(): (r: seq<Edge>)
      requires Valid()
      reads this
      ensures |r| == |keys|
    {
      Columns(states, lastChanges, lastLefts, ttls, tps, boths)
    }

    ghost function View(): map<EdgeKey, Edge>
      requires Valid()
      reads this
    {
      Table(keyToIndex, Edges())
    }

    constructor ()
      ensures Valid() && View() == map[] && keys == []
    {
      keys, states, lastChanges, lastLefts, ttls, tps, boths := [], [], [], [], [], [], [];
      keyToIndex := map[];
    }

    method EnsureEdge(a: ExeId, b: ExeId, now: U64, state: MarkovState) returns (isNew: bool)
      requires Valid()
      modifies this
      ensures Valid()
      ensures isNew <==> PairKey(a, b) !in old(View())
      ensures isNew ==> View() == old(View())[PairKey(a, b) := Fresh(state, now)] && keys == old(keys) + [PairKey(a, b)]
      ensures !isNew ==> View() == old(View()) && keys == old(keys)
    {
      var key := PairKey(a, b);
      if key in keyToIndex {
        return false;
      }
      TableAppend(keys, keyToIndex, Edges(), key, Fresh(state, now));
      var idx := |keys|;
      keys := keys + [key];
      states := states + [state];
      lastChanges := lastChanges + [now];
      lastLefts := lastLefts + [[now, now, now, now]];
      ttls := ttls + [ZERO_ROW];
      tps := tps + [[ZERO_ROW, ZERO_ROW, ZERO_ROW, ZERO_ROW]];
      boths := boths + [0];
      keyToIndex := keyToIndex[key := idx];
      assert Edges() == old(Edges()) + [Fresh(state, now)];
      isNew := true;
    }

    // Reading one column, as iteration does.
    method GetAt(idx: nat) returns (key: EdgeKey, e: Edge)
      requires Valid() && idx < |keys|
      ensures key == keys[idx] && key in View() && e == View()[key]
    {
      key := keys[idx];
      e := Edge(states[idx], lastChanges[idx], lastLefts[idx], ttls[idx], tps[idx], boths[idx]);
    }

    // Writing restored statistics through a mutable view of one edge.
    method SetStats(key: EdgeKey, ttl: Row, tp: Matrix, both: U64)
      requires Valid() && key in View()
      modifies this
      ensures Valid() && keys == old(keys)
      ensures View() == old(View())[key := old(View())[key].(ttl := ttl, tp := tp, both := both)]
    {
      var idx := keyToIndex[key];
      ghost var e := Edges()[idx].(ttl := ttl, tp := tp, both := both);
      TableSet(keys, keyToIndex, Edges(), idx, e);
      ttls := ttls[idx := ttl];
      tps := tps[idx := tp];
      boths := boths[idx := both];
      assert Edges() == old(Edges())[idx := e];
    }

    // Charging simultaneous running time to the edge in column `idx`.
    method AddBoth(idx: nat, period: U64)
      requires Valid() && idx < |keys|
      modifies this
      ensures Valid() && keys == old(keys) && keys[idx] in old(View())
      ensures var e := old(View())[keys[idx]];
              View() == old(View())[keys[idx] := e.(both := SatAdd(e.both, period))]
    {
      ghost var e := Edges()[idx].(both := SatAdd(boths[idx], period));
      TableSet(keys, keyToIndex, Edges(), idx, e);
      boths := boths[idx := SatAdd(boths[idx], period)];
      assert Edges() == old(Edges())[idx := e];
    }

    method UpdateState(idx: nat, next: MarkovState, now: U64, decay: real)
      requires Valid() && idx < |keys| && 0.0 <= decay
      modifies this
      ensures Valid() && keys == old(keys) && keys[idx] in old(View())
      ensures View() == old(View())[keys[idx] := Transition(old(View())[keys[idx]], next, now, decay)]
    {
      ghost var e, edges := Edges()[idx], Edges();
      ghost var e' := Transition(e, next, now, decay);
      TableSet(keys, keyToIndex, edges, idx, e');
      assert e == Edge(states[idx], lastChanges[idx], lastLefts[idx], ttls[idx], tps[idx], boths[idx]);
      assert keys[idx] in View() && View()[keys[idx]] == e;
      hide Columns, Table, Transition, Inverse;
      if next == states[idx] {
        TransitionToSelf(e, now, decay);
        assert edges == edges[idx := e];
        return;
      }
      var lefts, ttl, tp := LeaveState(e.both, states[idx], lastChanges[idx], lastLefts[idx], ttls[idx], tps[idx], next, now, decay);
      WriteColumn(idx, ttl, tp, lefts, now, next);
    }

    // The writes that end an update, through the five references it holds.
    method WriteColumn(idx: nat, ttl: Row, tp: Matrix, lastLeft: Stamps, lastChange: U64, state: MarkovState)
      requires Valid() && idx < |keys|
      modifies this
      ensures Valid() && keys == old(keys) && keyToIndex == old(keyToIndex)
      ensures Edges() == old(Edges())[idx := Edge(state, lastChange, lastLeft, ttl, tp, old(boths[idx]))]
    {
      ColumnsSet(states, lastChanges, lastLefts, ttls, tps, boths, idx, Edge(state, lastChange, lastLeft, ttl, tp, boths[idx]));
      assert boths == boths[idx := boths[idx]];
      hide Columns, Inverse;
      ttls := ttls[idx := ttl];
      tps := tps[idx := tp];
      lastLefts := lastLefts[idx := lastLeft];
      lastChanges := lastChanges[idx := lastChange];
      states := states[idx := state];
    }

    // Keep the edges whose two ends are active; the last column fills each gap.
    method PruneInactive(active: set<ExeId>)
      requires Valid()
      modifies this
      ensures Valid()
      ensures View() == map k | k in old(View()) && BothIn(k, active) :: old(View())[k]
    {
      hide Table, Columns, DropSwap;
      var i := 0;
      ghost var gone: set<EdgeKey> := {};
      while i < |keys|
        invariant Valid() && i <= |keys|
        invariant forall j :: 0 <= j < i ==> BothIn(keys[j], active)
        invariant forall k :: k in gone ==> !BothIn(k, active)
        invariant View() == old(View()) - gone
        decreases |keys| - i
      {
        var key := keys[i];
        if key.a in active && key.b in active {
          i := i + 1;
        } else {
          gone := gone + {key};
          SwapRemove(i);
        }
      }
      assert forall k :: k in View() ==> BothIn(keys[keyToIndex[k]], active);
    }

    method SwapRemove(idx: nat)
      requires Valid() && idx < |keys|
      modifies this
      ensures Valid()
      ensures View() == old(View()) - {old(keys)[idx]}
      ensures keys == DropSwap(old(keys), idx)
    {
      hide DropSwap, Columns, Table, Inverse;
      TableSwapRemove(keys, keyToIndex, Edges(), idx);
      ColumnsDropSwap(states, lastChanges, lastLefts, ttls, tps, boths, idx);
      var last := |keys| - 1;
      if idx != last {
        var moved := keys[last];
        keyToIndex := keyToIndex[moved := idx];
      }
      var removed := keys[idx];
      keyToIndex := keyToIndex - {removed};
      keys := DropSwap(keys, idx);
      states := DropSwap(states, idx);
      lastChanges := DropSwap(lastChanges, idx);
      lastLefts := DropSwap(lastLefts, idx);
      ttls := DropSwap(ttls, idx);
      tps := DropSwap(tps, idx);
      boths := DropSwap(boths, idx);
    }
  }

  // The key vector lists the domain of the edge map, each key once.
  ghost predicate Listed(keys: seq<EdgeKey>, edges: map<EdgeKey, Edge>) {
    && (forall i :: 0 <= i < |keys| ==> keys[i] in edges)
    && (forall k :: k in edges ==> k in keys)
    && (forall i, j :: 0 <= i < j < |keys| ==> keys[i] != keys[j])
  }

  lemma KeysListed(markov: MarkovGraph)
    requires markov.Valid()
    ensures Listed(markov.keys, markov.View())
  {
    forall k | k in markov.View()
      ensures k in markov.keys
    {
      assert markov.keys[markov.keyToIndex[k]] == k;
    }
  }

  // `Vec::swap_remove`: the last element takes the place of the removed one.
  function DropSwap<T>(s: seq<T>, idx: nat): (r: seq<T>)
    requires idx < |s|
    ensures |r| == |s| - 1
    ensures forall j :: 0 <= j < |r| ==> r[j] == if j == idx then s[|s| - 1] else s[j]
  {
    s[idx := s[|s| - 1]][..|s| - 1]
  }

  function Indicator(b: bool): real {
    if b then 1.0 else 0.0
  }

  function RewriteCell(p: real, active: bool, hit: bool, mixTp: real): real {
    var mix := Indicator(active) * mixTp + (1.0 - Indicator(active));
    mix * p + (1.0 - mix) * (Indicator(active) * Indicator(hit))
  }

  lemma RewriteCellMeaning(p: real, active: bool, hit: bool, mixTp: real)
    ensures RewriteCell(p, active, hit, mixTp) == if active then BlendEntry(mixTp, p, hit) else p
  {
    var mix := Indicator(active) * mixTp + (1.0 - Indicator(active));
    assert mix == if active then mixTp else 1.0;
  }

  lemma TransitionToSelf(e: Edge, now: U64, decay: real)
    requires 0.0 <= decay
    ensures Transition(e, e.state, now, decay) == e
  {
  }

  // The statistics written when an edge leaves its state for `next`.
  method LeaveState(ghost both: U64, state: MarkovState, lastChange: U64, lastLeft: Stamps, ttl: Row, tp: Matrix,
                    next: MarkovState, now: U64, decay: real)
    returns (lastLeft': Stamps, ttl': Row, tp': Matrix)
    requires 0.0 <= decay && next != state
    ensures Transition(Edge(state, lastChange, lastLeft, ttl, tp, both), next, now, decay)
            == Edge(next, now, lastLeft', ttl', tp', both)
  {
    hide Weight, Blend, BlendRow;
    var oldIx := state.Index();
    var newIx := next.Index();
    var sinceLeft := SatSub(now, lastLeft[oldIx]);
    var sinceChange := SatSub(now, lastChange);
    var mixTt := Weight(decay, sinceLeft);
    var mixTp := Weight(decay, sinceChange);
    ttl' := ttl[oldIx := Blend(mixTt, ttl[oldIx], sinceChange as real)];
    tp' := RewriteMatrix(tp, oldIx, newIx, mixTp);
    lastLeft' := lastLeft[oldIx := now];
  }

  // The branch-free update rewrites every row, giving weight one to those that must not
  // change; it amounts to blending the row of the state being left.
  method RewriteMatrix(matrix: Matrix, oldIx: nat, newIx: nat, mixTp: real) returns (out: Matrix)
    requires oldIx < 4 && newIx < 4
    ensures out == matrix[oldIx := BlendRow(matrix[oldIx], newIx, mixTp)]
  {
    out := matrix;
    for i := 0 to 4
      invariant forall r :: i <= r < 4 ==> out[r] == matrix[r]
      invariant forall r :: 0 <= r < i ==> out[r] == if r == oldIx then BlendRow(matrix[r], newIx, mixTp) else matrix[r]
    {
      var row := RewriteRow(out[i], i == oldIx, newIx, mixTp);
      out := out[i := row];
    }
  }

  method RewriteRow(row: Row, active: bool, newIx: nat, mixTp: real) returns (out: Row)
    ensures out == if active then BlendRow(row, newIx, mixTp) else row
  {
    hide RewriteCell, BlendEntry;
    out := row;
    for j := 0 to 4
      invariant forall c :: j <= c < 4 ==> out[c] == row[c]
      invariant forall c :: 0 <= c < j ==> out[c] == if active then BlendEntry(mixTp, row[c], newIx == c) else row[c]
    {
      out := out[j := RewriteCell(out[j], active, newIx == j, mixTp)];
      RewriteCellMeaning(row[j], active, newIx == j, mixTp);
    }
  }
}
