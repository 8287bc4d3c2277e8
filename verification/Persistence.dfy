/** Saving the stores to a snapshot and rebuilding them, as the engine's loops do it. */
module Persistence {
  import opened Domain
  import opened Enumeration
  import opened MarkovEdge
  import opened MarkovGraphStore
  import opened Model
  import opened Snapshot
  import opened KeyStores
  import opened ActiveSetStore
  import opened StoresModule

  /* ---------- saving ---------- */

  method ListExes(exes: ExeStore) returns (rs: seq<ExeRecord>)
    ensures |rs| == |exes.exes| && forall i :: 0 <= i < |rs| ==> rs[i] == ExeRecordOf(exes.exes[i])
  {
    rs := [];
    for i := 0 to |exes.exes|
      invariant |rs| == i && forall j :: 0 <= j < i ==> rs[j] == ExeRecordOf(exes.exes[j])
    {
      var e := exes.exes[i];
      rs := rs + [ExeRecord(e.path, e.total, e.lastSeen)];
    }
  }

  method ListMaps(maps: MapStore) returns (rs: seq<MapRecord>)
    requires maps.Valid()
    ensures forall i :: 0 <= i < |rs| ==> rs[i].key in maps.View() && rs[i] == MapRecordOf(maps.View()[rs[i].key])
    ensures forall k :: k in maps.View() ==> MapRecordOf(maps.View()[k]) in rs
  {
    var order := Enumerate(maps.maps.Keys);
    rs := [];
    for i := 0 to |order|
      invariant |rs| == i
      invariant forall j :: 0 <= j < i ==> order[j] in maps.maps && rs[j] == MapRecordOf(maps.maps[order[j]])
    {
      assert order[i] in order;
      var s := maps.maps[order[i]];
      rs := rs + [MapRecord(MapKey(s.path, s.offset, s.length), s.updateTime)];
    }
    forall k | k in maps.View()
      ensures MapRecordOf(maps.View()[k]) in rs
    {
      var id := maps.byKey[k];
      var j :| 0 <= j < |order| && order[j] == id;
      assert rs[j] == MapRecordOf(maps.maps[id]);
    }
  }

  ghost predicate ListsLinksOf(rs: seq<LinkRecord>, links: set<(ExeId, MapKey)>, exeId: ExeId, path: Path) {
    && (forall i :: 0 <= i < |rs| ==> rs[i].exePath == path && (exeId, rs[i].mapKey) in links)
    && (forall k :: (exeId, k) in links ==> LinkRecord(path, k) in rs)
  }

  method ListLinksOf(stores: Stores, exeId: ExeId) returns (rs: seq<LinkRecord>)
    requires stores.Valid() && exeId < |stores.exes.exes|
    ensures ListsLinksOf(rs, stores.Links(), exeId, stores.exes.exes[exeId].path)
  {
    var path := stores.exes.exes[exeId].path;
    var ids := stores.exeMaps.MapsForExe(exeId);
    var order := Enumerate(ids);
    rs := [];
    for i := 0 to |order|
      invariant forall j :: 0 <= j < |rs| ==> rs[j].exePath == path && (exeId, rs[j].mapKey) in stores.Links()
      invariant forall j :: 0 <= j < i && order[j] in stores.maps.maps
                            ==> LinkRecord(path, stores.maps.maps[order[j]].Key()) in rs
    {
      assert order[i] in order;
      if order[i] in stores.maps.maps {
        var s := stores.maps.maps[order[i]];
        assert stores.exeMaps.Related(exeId, order[i]);
        rs := rs + [LinkRecord(path, MapKey(s.path, s.offset, s.length))];
      }
    }
    forall k | (exeId, k) in stores.Links()
      ensures LinkRecord(path, k) in rs
    {
      var m :| m in stores.exeMaps.exeToMaps[exeId] && m in stores.maps.maps && stores.maps.maps[m].Key() == k;
      assert stores.exeMaps.Related(exeId, m);
      var j :| 0 <= j < |order| && order[j] == m;
    }
  }

  ghost predicate ListsLinksBelow(rs: seq<LinkRecord>, m: State, n: nat)
    requires Keyed(m)
  {
    && (forall i :: 0 <= i < |rs| ==> IsLinkRecord(m, rs[i]))
    && (forall l :: l in m.links && l.0 < n ==> LinkRecordOf(m, l) in rs)
  }

  lemma MoreLinks(rs: seq<LinkRecord>, more: seq<LinkRecord>, m: State, n: nat)
    requires Keyed(m) && n < |m.exes| && ListsLinksBelow(rs, m, n) && ListsLinksOf(more, m.links, n, m.exes[n].path)
    ensures ListsLinksBelow(rs + more, m, n + 1)
  {
  }

  method ListLinks(stores: Stores) returns (rs: seq<LinkRecord>)
    requires stores.Valid() && Keyed(stores.View())
    ensures ListsLinks(rs, stores.View())
  {
    ghost var m := stores.View();
    rs := [];
    for i := 0 to |stores.exes.exes|
      invariant ListsLinksBelow(rs, m, i)
    {
      hide Stores.Valid, Keyed, ListsLinksBelow, ListsLinksOf;
      var more := ListLinksOf(stores, i);
      MoreLinks(rs, more, m, i);
      rs := rs + more;
    }
  }

  // What is read of one column is the record of its edge.
  lemma ColumnRecord(m: State, key: EdgeKey, e: Edge)
    requires Keyed(m) && key in m.edges && e == m.edges[key]
    ensures key.a < |m.exes| && key.b < |m.exes|
    ensures EdgeRecordOf(m, key) == EdgeRecord(m.exes[key.a].path, m.exes[key.b].path, e.ttl, e.tp, e.both)
  {
  }

  // The records of the first `n` columns.
  ghost predicate RecordsUpTo(rs: seq<EdgeRecord>, keys: seq<EdgeKey>, m: State, n: nat)
    requires Keyed(m) && n <= |keys|
  {
    |rs| == n && forall j :: 0 <= j < n ==> keys[j] in m.edges && rs[j] == EdgeRecordOf(m, keys[j])
  }

  lemma RecordsStart(keys: seq<EdgeKey>, m: State)
    requires Keyed(m)
    ensures RecordsUpTo([], keys, m, 0)
  {
  }

  lemma RecordsMore(rs: seq<EdgeRecord>, keys: seq<EdgeKey>, m: State, n: nat)
    requires Keyed(m) && n < |keys| && RecordsUpTo(rs, keys, m, n) && keys[n] in m.edges
    ensures RecordsUpTo(rs + [EdgeRecordOf(m, keys[n])], keys, m, n + 1)
  {
    hide EdgeRecordOf;
  }

  lemma AllEdgesListed(rs: seq<EdgeRecord>, keys: seq<EdgeKey>, m: State)
    requires Keyed(m) && Listed(keys, m.edges) && RecordsUpTo(rs, keys, m, |keys|)
    ensures ListsEdges(rs, m)
  {
  }

  method ListEdges(markov: MarkovGraph, exes: seq<Exe>, ghost m: State) returns (rs: seq<EdgeRecord>)
    requires markov.Valid() && m.edges == markov.View() && m.exes == exes && Keyed(m)
    ensures ListsEdges(rs, m)
  {
    KeysListed(markov);
    ghost var keys := markov.keys;
    RecordsStart(keys, m);
    hide MarkovGraph.Valid, MarkovGraph.View, Keyed, Listed, EdgeRecordOf, RecordsUpTo, ListsEdges;
    rs := [];
    for i := 0 to |markov.keys|
      invariant RecordsUpTo(rs, keys, m, i)
    {
      var key, e := markov.GetAt(i);
      ColumnRecord(m, key, e);
      RecordsMore(rs, keys, m, i);
      if key.a < |exes| && key.b < |exes| {
        rs := rs + [EdgeRecord(exes[key.a].path, exes[key.b].path, e.ttl, e.tp, e.both)];
      }
    }
    AllEdgesListed(rs, keys, m);
  }

  method SnapshotFromStores(stores: Stores) returns (s: Snap)
    requires stores.Valid() && Keyed(stores.View())
    ensures Lists(s, stores.View())
  {
    var exes := ListExes(stores.exes);
    var maps := ListMaps(stores.maps);
    var links := ListLinks(stores);
    var edges := ListEdges(stores.markov, stores.exes.exes, stores.View());
    hide ListsLinks, ListsEdges;
    s := Snap(stores.modelTime, stores.lastAccounting, exes, maps, links, edges);
  }

  /* ---------- loading ---------- */

  method LoadMaps(stores: Stores, rs: seq<MapRecord>)
    requires stores.Valid() && stores.View().maps == map[]
    modifies stores.maps
    ensures stores.Valid() && stores.View() == old(stores.View()).(maps := RestoreMaps(rs))
  {
    ghost var m := stores.View();
    for i := 0 to |rs|
      invariant stores.Valid() && stores.View() == m.(maps := RestoreMaps(rs[..i]))
    {
      hide Stores.Valid, Stores.View;
      assert rs[..i + 1][..i] == rs[..i];
      var r := rs[i];
      var _, _ := stores.EnsureMapWithFlag(MapSegment(r.key.path, r.key.offset, r.key.length, r.updateTime, 0, 0));
    }
    assert rs[..|rs|] == rs;
  }

  method LoadExe(stores: Stores, r: ExeRecord)
    requires stores.Valid()
    modifies stores.exes
    ensures stores.Valid() && stores.View() == old(stores.View()).(exes := RestoreExe(old(stores.View()).exes, r))
  {
    var id := stores.EnsureExe(r.path);
    var exe := stores.exes.exes[id];
    stores.exes.Put(id, exe.(total := r.total, lastSeen := r.lastSeen));
    assert stores.Links() == old(stores.Links());
  }

  method LoadExes(stores: Stores, rs: seq<ExeRecord>)
    requires stores.Valid() && stores.View().exes == []
    modifies stores.exes
    ensures stores.Valid() && stores.View() == old(stores.View()).(exes := RestoreExes(rs))
  {
    ghost var m := stores.View();
    for i := 0 to |rs|
      invariant stores.Valid() && stores.View() == m.(exes := RestoreExes(rs[..i]))
    {
      hide Stores.Valid, Stores.View, RestoreExe;
      assert rs[..i + 1][..i] == rs[..i];
      LoadExe(stores, rs[i]);
    }
    assert rs[..|rs|] == rs;
  }

  // Everyone seen within the window becomes active, dated at the model time.
  method LoadActive(active: ActiveSet, exes: seq<Exe>, now: U64, window: U64)
    requires active.lastSeen == map[]
    modifies active
    ensures active.lastSeen == RebuildActive(exes, now, window)
  {
    for i := 0 to |exes|
      invariant active.lastSeen == RebuildActive(exes[..i], now, window)
    {
      ghost var before := active.lastSeen;
      if exes[i].lastSeen.Some? && SatSub(now, exes[i].lastSeen.value) <= window {
        active.Update({i}, now);
      }
      assert active.lastSeen == if SeenWithin(exes[i], now, window) then before[i := now] else before;
    }
    assert exes[..|exes|] == exes;
  }

  ghost predicate Attempted<T>(want: Result<T>, got: Result<bool>) {
    match want
    case Success(_) => got.Success?
    case ExeMissing(path) => got == ExeMissing(path)
    case MapMissing(path) => got == MapMissing(path)
  }

  method LoadLink(stores: Stores, r: LinkRecord) returns (done: Result<bool>)
    requires stores.Valid()
    modifies stores.exeMaps
    ensures stores.Valid()
    ensures var m := old(stores.View());
            var want := AddLink(m.exes, m.maps, m.links, r);
            Attempted(want, done) && stores.View() == if want.Success? then m.(links := want.value) else m
  {
    var exeId := stores.exes.IdByKey(r.exePath);
    if exeId.None? {
      return ExeMissing(r.exePath);
    }
    var mapId := stores.maps.IdByKey(r.mapKey);
    if mapId.None? {
      return MapMissing(r.mapKey.path);
    }
    stores.AttachMap(exeId.value, mapId.value);
    done := Success(true);
  }

  method LoadLinks(stores: Stores, rs: seq<LinkRecord>) returns (done: Result<bool>)
    requires stores.Valid() && stores.View().links == {}
    modifies stores.exeMaps
    ensures stores.Valid()
    ensures var m := old(stores.View());
            var want := RestoreLinks(m.exes, m.maps, rs);
            Attempted(want, done) && (want.Success? ==> stores.View() == m.(links := want.value))
  {
    ghost var m := stores.View();
    done := Success(true);
    for i := 0 to |rs|
      invariant stores.Valid() && done.Success?
      invariant var want := RestoreLinks(m.exes, m.maps, rs[..i]); want.Success? && stores.View() == m.(links := want.value)
    {
      hide Stores.Valid, Stores.View, AddLink;
      assert rs[..i + 1][..i] == rs[..i];
      done := LoadLink(stores, rs[i]);
      if !done.Success? {
        LinksStayFailed(m.exes, m.maps, rs, i + 1);
        return;
      }
    }
    assert rs[..|rs|] == rs;
  }

  lemma {:induction false} LinksStayFailed(exes: seq<Exe>, maps: map<MapKey, MapSegment>, rs: seq<LinkRecord>, n: nat)
    requires n <= |rs| && !RestoreLinks(exes, maps, rs[..n]).Success?
    ensures RestoreLinks(exes, maps, rs) == RestoreLinks(exes, maps, rs[..n])
    decreases |rs|
  {
    if n < |rs| {
      var shorter := rs[..|rs| - 1];
      assert shorter[..n] == rs[..n];
      LinksStayFailed(exes, maps, shorter, n);
    } else {
      assert rs[..n] == rs;
    }
  }

  method WriteEdge(markov: MarkovGraph, a: ExeId, b: ExeId, r: EdgeRecord, now: U64)
    requires markov.Valid()
    modifies markov
    ensures markov.Valid()
    ensures var edges := old(markov.View());
            markov.View() == if PairKey(a, b) in edges then edges else edges[PairKey(a, b) := RestoredEdge(r, now)]
  {
    hide MarkovGraph.Valid, MarkovGraph.View;
    var isNew := markov.EnsureEdge(a, b, now, Neither);
    if isNew {
      markov.SetStats(PairKey(a, b), r.ttl, r.tp, r.both);
    }
  }

  method LoadEdge(stores: Stores, r: EdgeRecord) returns (done: Result<bool>)
    requires stores.Valid()
    modifies stores.markov
    ensures stores.Valid()
    ensures var m := old(stores.View());
            var want := AddEdge(m.exes, m.edges, r, m.modelTime);
            Attempted(want, done) && stores.View() == if want.Success? then m.(edges := want.value) else m
  {
    var a := stores.exes.IdByKey(r.exeA);
    if a.None? {
      return ExeMissing(r.exeA);
    }
    var b := stores.exes.IdByKey(r.exeB);
    if b.None? {
      return ExeMissing(r.exeB);
    }
    WriteEdge(stores.markov, a.value, b.value, r, stores.modelTime);
    done := Success(true);
  }

  method LoadEdges(stores: Stores, rs: seq<EdgeRecord>) returns (done: Result<bool>)
    requires stores.Valid() && stores.View().edges == map[]
    modifies stores.markov
    ensures stores.Valid()
    ensures var m := old(stores.View());
            var want := RestoreEdges(m.exes, rs, m.modelTime);
            Attempted(want, done) && (want.Success? ==> stores.View() == m.(edges := want.value))
  {
    ghost var m := stores.View();
    done := Success(true);
    for i := 0 to |rs|
      invariant stores.Valid() && done.Success?
      invariant var want := RestoreEdges(m.exes, rs[..i], m.modelTime); want.Success? && stores.View() == m.(edges := want.value)
    {
      hide Stores.Valid, Stores.View, AddEdge;
      assert rs[..i + 1][..i] == rs[..i];
      done := LoadEdge(stores, rs[i]);
      if !done.Success? {
        EdgesStayFailed(m.exes, rs, m.modelTime, i + 1);
        return;
      }
    }
    assert rs[..|rs|] == rs;
  }

  lemma {:induction false} EdgesStayFailed(exes: seq<Exe>, rs: seq<EdgeRecord>, now: U64, n: nat)
    requires n <= |rs| && !RestoreEdges(exes, rs[..n], now).Success?
    ensures RestoreEdges(exes, rs, now) == RestoreEdges(exes, rs[..n], now)
    decreases |rs|
  {
    if n < |rs| {
      var shorter := rs[..|rs| - 1];
      assert shorter[..n] == rs[..n];
      EdgesStayFailed(exes, shorter, now, n);
    } else {
      assert rs[..n] == rs;
    }
  }

  // The stores after the maps, executables and active set have been read back.
  function Nodes(s: Snap, window: U64): State {
    var exes := RestoreExes(s.exes);
    State(exes, RestoreMaps(s.maps), {}, map[], RebuildActive(exes, s.modelTime, window), s.modelTime, s.lastAccounting)
  }

  method LoadNodes(stores: Stores, s: Snap, window: U64)
    requires stores.Valid() && stores.View() == EMPTY
    modifies stores, stores.exes, stores.maps, stores.active
    ensures stores.Valid() && stores.View() == Nodes(s, window)
  {
    stores.modelTime, stores.lastAccounting := s.modelTime, s.lastAccounting;
    assert stores.View() == EMPTY.(modelTime := s.modelTime, lastAccounting := s.lastAccounting);
    hide RestoreExes, RestoreMaps, RebuildActive;
    LoadMaps(stores, s.maps);
    LoadExes(stores, s.exes);
    LoadActive(stores.active, stores.exes.exes, s.modelTime, window);
  }

  method Load(stores: Stores, s: Snap, window: U64) returns (done: Result<bool>)
    requires stores.Valid() && stores.View() == EMPTY
    modifies stores, stores.exes, stores.maps, stores.exeMaps, stores.markov, stores.active
    ensures stores.Valid()
    ensures var want := Restore(s, window); Attempted(want, done) && (want.Success? ==> stores.View() == want.value)
  {
    hide RestoreExes, RestoreMaps, RebuildActive, RestoreLinks, RestoreEdges, MarkovGraph.Valid, MarkovGraph.View, MapStore.View, MapStore.Valid;
    LoadNodes(stores, s, window);
    done := LoadLinks(stores, s.links);
    if !done.Success? {
      return;
    }
    done := LoadEdges(stores, s.edges);
    if !done.Success? {
      return;
    }
    var active := stores.active.Exes();
    stores.markov.PruneInactive(active);
  }

  method StoresFromSnapshot(s: Snap, window: U64) returns (stores: Stores, done: Result<bool>)
    ensures fresh(stores) && fresh(stores.exes) && fresh(stores.maps) && fresh(stores.exeMaps)
            && fresh(stores.markov) && fresh(stores.active)
    ensures stores.Valid()
    ensures var want := Restore(s, window); Attempted(want, done) && (want.Success? ==> stores.View() == want.value)
  {
    stores := new Stores();
    done := Load(stores, s, window);
  }
}
