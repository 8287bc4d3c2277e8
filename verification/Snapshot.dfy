/**
 Persisting the model by path and rebuilding it with fresh ids.  A snapshot lists the
 executables in id order; maps, links and edges may come in any order.
 */
module Snapshot {
  import opened Domain
  import opened MarkovEdge
  import opened MarkovGraphStore
  import opened Model

  datatype ExeRecord = ExeRecord(path: Path, total: U64, lastSeen: Option<U64>)
  datatype MapRecord = MapRecord(key: MapKey, updateTime: U64)
  datatype LinkRecord = LinkRecord(exePath: Path, mapKey: MapKey)
  datatype EdgeRecord = EdgeRecord(exeA: Path, exeB: Path, ttl: Row, tp: Matrix, both: U64)

  datatype Snap = Snap(
    modelTime: U64,
    lastAccounting: U64,
    exes: seq<ExeRecord>,
    maps: seq<MapRecord>,
    links: seq<LinkRecord>,
    edges: seq<EdgeRecord>)

  datatype Result<+T> = Success(value: T) | ExeMissing(path: Path) | MapMissing(path: Path) {
    predicate IsFailure() { !Success? }

    function PropagateFailure<U>(): Result<U>
      requires IsFailure()
    {
      if ExeMissing? then ExeMissing(path) else MapMissing(path)
    }

    function Extract(): T
      requires Success?
    {
      value
    }
  }

  /* ---------- saving ---------- */

  function ExeRecordOf(e: Exe): ExeRecord {
    ExeRecord(e.path, e.total, e.lastSeen)
  }

  function MapRecordOf(s: MapSegment): MapRecord {
    MapRecord(s.Key(), s.updateTime)
  }

  function LinkRecordOf(m: State, l: (ExeId, MapKey)): LinkRecord
    requires l.0 < |m.exes|
  {
    LinkRecord(m.exes[l.0].path, l.1)
  }

  function EdgeRecordOf(m: State, k: EdgeKey): EdgeRecord
    requires k in m.edges && k.a < |m.exes| && k.b < |m.exes|
  {
    EdgeRecord(m.exes[k.a].path, m.exes[k.b].path, m.edges[k].ttl, m.edges[k].tp, m.edges[k].both)
  }

  ghost predicate Keyed(m: State) {
    && (forall l :: l in m.links ==> l.0 < |m.exes|)
    && (forall k :: k in m.edges ==> k.a < k.b < |m.exes|)
  }

  ghost predicate IsLinkRecord(m: State, r: LinkRecord)
    requires Keyed(m)
  {
    exists l :: l in m.links && r == LinkRecordOf(m, l)
  }

  ghost predicate IsEdgeRecord(m: State, r: EdgeRecord)
    requires Keyed(m)
  {
    exists k :: k in m.edges && r == EdgeRecordOf(m, k)
  }

  ghost predicate ListsExes(rs: seq<ExeRecord>, m: State) {
    |rs| == |m.exes| && (forall i :: 0 <= i < |m.exes| ==> rs[i] == ExeRecordOf(m.exes[i]))
  }

  ghost predicate ListsMaps(rs: seq<MapRecord>, m: State) {
    && (forall i :: 0 <= i < |rs| ==> rs[i].key in m.maps && rs[i] == MapRecordOf(m.maps[rs[i].key]))
    && (forall k :: k in m.maps ==> MapRecordOf(m.maps[k]) in rs)
  }

  ghost predicate ListsLinks(rs: seq<LinkRecord>, m: State)
    requires Keyed(m)
  {
    && (forall i :: 0 <= i < |rs| ==> IsLinkRecord(m, rs[i]))
    && (forall l :: l in m.links ==> LinkRecordOf(m, l) in rs)
  }

  ghost predicate ListsEdges(rs: seq<EdgeRecord>, m: State)
    requires Keyed(m)
  {
    && (forall i :: 0 <= i < |rs| ==> IsEdgeRecord(m, rs[i]))
    && (forall k :: k in m.edges ==> EdgeRecordOf(m, k) in rs)
  }

  // The snapshot lists exactly the model.
  ghost predicate Lists(s: Snap, m: State)
    requires Keyed(m)
  {
    && s.modelTime == m.modelTime && s.lastAccounting == m.lastAccounting
    && ListsExes(s.exes, m) && ListsMaps(s.maps, m) && ListsLinks(s.links, m) && ListsEdges(s.edges, m)
  }

  // What is written of each executable in id order, of each map and link, and of each edge, the
  // end with the smaller id first.
  lemma SavedRecords(s: Snap, m: State)
    requires Keyed(m) && Lists(s, m)
    ensures |s.exes| == |m.exes|
    ensures forall i :: 0 <= i < |m.exes| ==> s.exes[i] == ExeRecord(m.exes[i].path, m.exes[i].total, m.exes[i].lastSeen)
    ensures forall k :: k in m.maps && m.maps[k].Key() == k ==> MapRecord(k, m.maps[k].updateTime) in s.maps
    ensures forall l :: l in m.links ==> LinkRecord(m.exes[l.0].path, l.1) in s.links
    ensures forall k :: k in m.edges ==>
              EdgeRecord(m.exes[k.a].path, m.exes[k.b].path, m.edges[k].ttl, m.edges[k].tp, m.edges[k].both) in s.edges
    ensures forall r :: r in s.edges ==>
              exists k :: k in m.edges && k.a < k.b && r.exeA == m.exes[k.a].path && r.exeB == m.exes[k.b].path
  {
    forall k | k in m.edges
      ensures EdgeRecord(m.exes[k.a].path, m.exes[k.b].path, m.edges[k].ttl, m.edges[k].tp, m.edges[k].both) in s.edges
    {
      assert EdgeRecordOf(m, k) in s.edges;
    }
    forall r | r in s.edges
      ensures exists k :: k in m.edges && k.a < k.b && r.exeA == m.exes[k.a].path && r.exeB == m.exes[k.b].path
    {
      assert IsEdgeRecord(m, r);
    }
    forall l | l in m.links
      ensures LinkRecord(m.exes[l.0].path, l.1) in s.links
    {
      assert LinkRecordOf(m, l) in s.links;
    }
    forall k | k in m.maps && m.maps[k].Key() == k
      ensures MapRecord(k, m.maps[k].updateTime) in s.maps
    {
      assert MapRecordOf(m.maps[k]) in s.maps;
    }
  }

  /* ---------- loading ---------- */

  function RestoreMap(maps: map<MapKey, MapSegment>, r: MapRecord): map<MapKey, MapSegment> {
    if r.key in maps then maps
    else maps[r.key := MapSegment(r.key.path, r.key.offset, r.key.length, r.updateTime, 0, 0)]
  }

  function RestoreMaps(rs: seq<MapRecord>): map<MapKey, MapSegment> {
    if rs == [] then map[] else RestoreMap(RestoreMaps(rs[..|rs| - 1]), rs[|rs| - 1])
  }

  function RestoreExe(exes: seq<Exe>, r: ExeRecord): seq<Exe> {
    var id := Slot(exes, r.path);
    var all := EnsureExe(exes, r.path);
    all[id := all[id].(total := r.total, lastSeen := r.lastSeen)]
  }

  function RestoreExes(rs: seq<ExeRecord>): seq<Exe> {
    if rs == [] then [] else RestoreExe(RestoreExes(rs[..|rs| - 1]), rs[|rs| - 1])
  }

  predicate SeenWithin(e: Exe, now: U64, window: U64) {
    e.lastSeen.Some? && SatSub(now, e.lastSeen.value) <= window
  }

  // The active set is rebuilt from the last-seen times, all dated at the model time.
  function RebuildActive(exes: seq<Exe>, now: U64, window: U64): map<ExeId, U64> {
    map i | 0 <= i < |exes| && SeenWithin(exes[i], now, window) :: now
  }

  function AddLink(exes: seq<Exe>, maps: map<MapKey, MapSegment>, links: set<(ExeId, MapKey)>, r: LinkRecord)
    : Result<set<(ExeId, MapKey)>>
  {
    var id := Slot(exes, r.exePath);
    if id == |exes| then ExeMissing(r.exePath)
    else if r.mapKey !in maps then MapMissing(r.mapKey.path)
    else Success(links + {(id, r.mapKey)})
  }

  function RestoreLinks(exes: seq<Exe>, maps: map<MapKey, MapSegment>, rs: seq<LinkRecord>): Result<set<(ExeId, MapKey)>> {
    if rs == [] then Success({})
    else
      var links :- RestoreLinks(exes, maps, rs[..|rs| - 1]);
      AddLink(exes, maps, links, rs[|rs| - 1])
  }

  function RestoredEdge(r: EdgeRecord, now: U64): Edge {
    Fresh(Neither, now).(ttl := r.ttl, tp := r.tp, both := r.both)
  }

  function AddEdge(exes: seq<Exe>, edges: map<EdgeKey, Edge>, r: EdgeRecord, now: U64): Result<map<EdgeKey, Edge>> {
    var a, b := Slot(exes, r.exeA), Slot(exes, r.exeB);
    if a == |exes| then ExeMissing(r.exeA)
    else if b == |exes| then ExeMissing(r.exeB)
    else if PairKey(a, b) in edges then Success(edges)
    else Success(edges[PairKey(a, b) := RestoredEdge(r, now)])
  }

  function RestoreEdges(exes: seq<Exe>, rs: seq<EdgeRecord>, now: U64): Result<map<EdgeKey, Edge>> {
    if rs == [] then Success(map[])
    else
      var edges :- RestoreEdges(exes, rs[..|rs| - 1], now);
      AddEdge(exes, edges, rs[|rs| - 1], now)
  }

  function PruneEdges(edges: map<EdgeKey, Edge>, active: set<ExeId>): map<EdgeKey, Edge> {
    map k | k in edges && BothIn(k, active) :: edges[k]
  }

  function Restore(s: Snap, window: U64): Result<State> {
    var maps := RestoreMaps(s.maps);
    var exes := RestoreExes(s.exes);
    var active := RebuildActive(exes, s.modelTime, window);
    var links :- RestoreLinks(exes, maps, s.links);
    var edges :- RestoreEdges(exes, s.edges, s.modelTime);
    Success(State(exes, maps, links, PruneEdges(edges, active.Keys), active, s.modelTime, s.lastAccounting))
  }

  /* ---------- what survives ---------- */

  function Asleep(exes: seq<Exe>): (r: seq<Exe>)
    ensures |r| == |exes|
  {
    seq(|exes|, i requires 0 <= i < |exes| => exes[i].(running := false, changeTime := 0))
  }

  function Reborn(e: Edge, now: U64): Edge {
    Edge(Neither, now, [now, now, now, now], e.ttl, e.tp, e.both)
  }

  // The model after a save and a load: nothing runs, file identities are forgotten, and
  // the edges kept are those whose two ends were seen within the window.
  function Reloaded(m: State, window: U64): State {
    var active := RebuildActive(m.exes, m.modelTime, window);
    State(Asleep(m.exes),
          map k | k in m.maps :: m.maps[k].(device := 0, inode := 0),
          m.links,
          map k | k in m.edges && BothIn(k, active.Keys) :: Reborn(m.edges[k], m.modelTime),
          active, m.modelTime, m.lastAccounting)
  }

  lemma {:induction false} RestoreExesIsAsleep(exes: seq<Exe>, rs: seq<ExeRecord>)
    requires Distinct(exes) && |rs| <= |exes|
    requires forall i :: 0 <= i < |rs| ==> rs[i] == ExeRecordOf(exes[i])
    ensures RestoreExes(rs) == Asleep(exes[..|rs|])
    decreases |rs|
  {
    if rs != [] {
      var n := |rs| - 1;
      RestoreExesIsAsleep(exes, rs[..n]);
      assert Slot(Asleep(exes[..n]), rs[n].path) == n;
    }
  }

  // The maps of the model that a list of records mentions, without their file identity.
  function ListedMaps(maps: map<MapKey, MapSegment>, rs: seq<MapRecord>): map<MapKey, MapSegment> {
    map k | k in maps && MapRecordOf(maps[k]) in rs :: maps[k].(device := 0, inode := 0)
  }

  // The links of the model that a list of records mentions.
  function ListedLinks(m: State, rs: seq<LinkRecord>): set<(ExeId, MapKey)>
    requires forall l :: l in m.links ==> l.0 < |m.exes|
  {
    set l | l in m.links && LinkRecordOf(m, l) in rs
  }

  lemma {:induction false} RestoreMapsListed(maps: map<MapKey, MapSegment>, rs: seq<MapRecord>)
    requires forall k :: k in maps ==> maps[k].Key() == k
    requires forall i :: 0 <= i < |rs| ==> rs[i].key in maps && rs[i] == MapRecordOf(maps[rs[i].key])
    ensures RestoreMaps(rs) == ListedMaps(maps, rs)
    decreases |rs|
  {
    if rs != [] {
      var n := |rs| - 1;
      RestoreMapsListed(maps, rs[..n]);
      assert rs == rs[..n] + [rs[n]];
    }
  }

  lemma AddListedLink(m: State, exes: seq<Exe>, maps: map<MapKey, MapSegment>, rs: seq<LinkRecord>, l: (ExeId, MapKey))
    requires Linked(m) && Distinct(m.exes) && maps.Keys == m.maps.Keys
    requires exes == Asleep(m.exes) && l in m.links
    ensures AddLink(exes, maps, ListedLinks(m, rs), LinkRecordOf(m, l))
            == Success(ListedLinks(m, rs + [LinkRecordOf(m, l)]))
  {
    SlotOfDistinct(exes, l.0);
    hide Slot, Asleep;
    var r := LinkRecordOf(m, l);
    assert forall x :: x in m.links && LinkRecordOf(m, x) == r ==> x == l;
    assert ListedLinks(m, rs + [r]) == ListedLinks(m, rs) + {l};
  }

  lemma {:induction false} RestoreLinksListed(m: State, exes: seq<Exe>, maps: map<MapKey, MapSegment>, rs: seq<LinkRecord>)
    requires Linked(m) && Keyed(m) && Distinct(m.exes) && maps.Keys == m.maps.Keys
    requires exes == Asleep(m.exes)
    requires forall i :: 0 <= i < |rs| ==> IsLinkRecord(m, rs[i])
    ensures RestoreLinks(exes, maps, rs) == Success(ListedLinks(m, rs))
    decreases |rs|
  {
    if rs == [] {
      assert ListedLinks(m, rs) == {};
    } else {
      hide AddLink, Asleep, ListedLinks, LinkRecordOf;
      var n := |rs| - 1;
      RestoreLinksListed(m, exes, maps, rs[..n]);
      assert IsLinkRecord(m, rs[n]);
      var l :| l in m.links && rs[n] == LinkRecordOf(m, l);
      assert rs == rs[..n] + [LinkRecordOf(m, l)];
      AddListedLink(m, exes, maps, rs[..n], l);
    }
  }

  lemma AddListedEdge(m: State, exes: seq<Exe>, edges: map<EdgeKey, Edge>, k: EdgeKey)
    requires Keyed(m) && Distinct(m.exes) && exes == Asleep(m.exes) && k in m.edges
    ensures AddEdge(exes, edges, EdgeRecordOf(m, k), m.modelTime)
            == Success(if k in edges then edges else edges[k := Reborn(m.edges[k], m.modelTime)])
  {
    SlotOfDistinct(exes, k.a);
    SlotOfDistinct(exes, k.b);
  }

  // The edges of the model that a list of records mentions.
  function Mentioned(m: State, rs: seq<EdgeRecord>): map<EdgeKey, Edge>
    requires forall k :: k in m.edges ==> k.a < k.b < |m.exes|
  {
    map k | k in m.edges && EdgeRecordOf(m, k) in rs :: Reborn(m.edges[k], m.modelTime)
  }

  lemma RecordNamesEdge(m: State, x: EdgeKey, k: EdgeKey)
    requires Keyed(m) && Distinct(m.exes) && x in m.edges && k in m.edges
    requires EdgeRecordOf(m, x) == EdgeRecordOf(m, k)
    ensures x == k
  {
  }

  lemma MentionOne(m: State, rs: seq<EdgeRecord>, k: EdgeKey)
    requires Keyed(m) && Distinct(m.exes) && k in m.edges
    ensures Mentioned(m, rs + [EdgeRecordOf(m, k)])
            == if k in Mentioned(m, rs) then Mentioned(m, rs) else Mentioned(m, rs)[k := Reborn(m.edges[k], m.modelTime)]
  {
    hide EdgeRecordOf, Reborn;
    forall x | x in m.edges && EdgeRecordOf(m, x) == EdgeRecordOf(m, k)
      ensures x == k
    {
      RecordNamesEdge(m, x, k);
    }
  }

  lemma RestoreOneMore(m: State, exes: seq<Exe>, rs: seq<EdgeRecord>, k: EdgeKey)
    requires Keyed(m) && Distinct(m.exes) && exes == Asleep(m.exes) && k in m.edges
    ensures AddEdge(exes, Mentioned(m, rs), EdgeRecordOf(m, k), m.modelTime)
            == Success(Mentioned(m, rs + [EdgeRecordOf(m, k)]))
  {
    hide AddEdge, Asleep, Mentioned, EdgeRecordOf, Reborn, Distinct;
    MentionOne(m, rs, k);
    AddListedEdge(m, exes, Mentioned(m, rs), k);
  }

  lemma {:induction false} RestoreEdgesListed(m: State, exes: seq<Exe>, rs: seq<EdgeRecord>)
    requires Keyed(m) && Distinct(m.exes) && exes == Asleep(m.exes)
    requires forall i :: 0 <= i < |rs| ==> IsEdgeRecord(m, rs[i])
    ensures RestoreEdges(exes, rs, m.modelTime) == Success(Mentioned(m, rs))
    decreases |rs|
  {
    hide AddEdge, Asleep, EdgeRecordOf, Distinct;
    if rs == [] {
      assert Mentioned(m, rs) == map[];
    } else {
      hide Mentioned;
      var n := |rs| - 1;
      RestoreEdgesListed(m, exes, rs[..n]);
      assert IsEdgeRecord(m, rs[n]);
      var k :| k in m.edges && rs[n] == EdgeRecordOf(m, k);
      assert rs == rs[..n] + [EdgeRecordOf(m, k)];
      RestoreOneMore(m, exes, rs[..n], k);
    }
  }

  lemma InvIsKeyed(m: State)
    requires Inv(m)
    ensures Keyed(m)
  {
  }

  lemma RestoredIsReloaded(m: State, s: Snap, window: U64)
    requires Inv(m) && Keyed(m) && Lists(s, m)
    ensures Restore(s, window) == Success(Reloaded(m, window))
  {
    hide EdgesOk, TotalsOk, ActiveOk, RestoreExes, RestoreMaps, RestoreLinks, RestoreEdges;
    RestoreExesIsAsleep(m.exes, s.exes);
    assert m.exes[..|m.exes|] == m.exes;
    var exes := RestoreExes(s.exes);
    RestoreMapsListed(m.maps, s.maps);
    var maps := RestoreMaps(s.maps);
    RestoreLinksListed(m, exes, maps, s.links);
    RestoreEdgesListed(m, exes, s.edges);
    SurvivorsListed(m, s, window);
    AsleepKeepsActive(m.exes, m.modelTime, window);
  }

  // Loading what was saved never fails, whatever order the rows come back in, and recalls the
  // same executables, maps, links and, in the window, edges, under the same ids.
  lemma SaveThenLoad(m: State, s: Snap, window: U64)
    requires Inv(m) && Keyed(m) && Lists(s, m)
    ensures Restore(s, window) == Success(Reloaded(m, window))
    ensures Recalled(m, Reloaded(m, window), window, ALLOW_ALL)
  {
    assert Linked(m);
    hide Inv, Restore, Lists, Recalled, Linked, Reloaded;
    RestoredIsReloaded(m, s, window);
    ReloadRecalls(m, window);
  }

  // Listing everything filters nothing out.
  lemma SurvivorsListed(m: State, s: Snap, window: U64)
    requires Linked(m) && Keyed(m) && Lists(s, m)
    ensures var r := Reloaded(m, window);
            && r.maps == ListedMaps(m.maps, s.maps)
            && r.links == ListedLinks(m, s.links)
            && r.edges == PruneEdges(Mentioned(m, s.edges), r.active.Keys)
  {
    hide RebuildActive, Asleep, Reborn, EdgeRecordOf, LinkRecordOf, MapRecordOf;
    var r := Reloaded(m, window);
    assert r.maps == ListedMaps(m.maps, s.maps);
    assert r.links == ListedLinks(m, s.links);
  }

  lemma RebornOk(m: State, k: EdgeKey)
    requires k in m.edges && EdgeOk(m.edges[k], k, m.exes, m.modelTime)
    ensures EdgeOk(Reborn(m.edges[k], m.modelTime), k, Asleep(m.exes), m.modelTime)
  {
  }

  lemma ReloadKeepsInv(m: State, window: U64)
    requires Inv(m)
    ensures Inv(Reloaded(m, window))
  {
    hide EdgeOk, Asleep, Reborn;
    var r := Reloaded(m, window);
    forall k | k in r.edges
      ensures EdgeOk(r.edges[k], k, r.exes, r.modelTime)
    {
      RebornOk(m, k);
    }
    ReloadedShape(m, window);
    hide Reloaded;
  }

  lemma ReloadedShape(m: State, window: U64)
    requires Distinct(m.exes) && Linked(m) && TotalsOk(m)
    ensures var r := Reloaded(m, window);
            && Distinct(r.exes) && Linked(r) && TotalsOk(r) && ActiveOk(r)
            && r.edges.Keys <= m.edges.Keys
            && (m.edges.Keys <= Pairs(m.active.Keys) ==> r.edges.Keys <= Pairs(r.active.Keys))
  {
  }

  // Loading twice is loading once.
  lemma ReloadIdempotent(m: State, window: U64)
    ensures Reloaded(Reloaded(m, window), window) == Reloaded(m, window)
  {
    var r := Reloaded(m, window);
    assert Asleep(r.exes) == r.exes;
    AsleepKeepsActive(m.exes, m.modelTime, window);
    hide Asleep, RebuildActive;
    assert Reloaded(r, window).edges == r.edges;
    assert Reloaded(r, window).maps == r.maps;
  }

  // Only the last-seen times decide who is active after a load.
  lemma AsleepKeepsActive(exes: seq<Exe>, now: U64, window: U64)
    ensures RebuildActive(Asleep(exes), now, window) == RebuildActive(exes, now, window)
  {
  }

  // Record `i` is the first to name the pair `k`.
  ghost predicate FirstNaming(exes: seq<Exe>, rs: seq<EdgeRecord>, k: EdgeKey, i: int) {
    && 0 <= i < |rs| && PairKey(Slot(exes, rs[i].exeA), Slot(exes, rs[i].exeB)) == k
    && forall j :: 0 <= j < i ==> PairKey(Slot(exes, rs[j].exeA), Slot(exes, rs[j].exeB)) != k
  }

  // A restored edge comes from the first record that names its pair.
  lemma {:induction false} EdgeFromFirst(exes: seq<Exe>, rs: seq<EdgeRecord>, now: U64, k: EdgeKey)
    requires RestoreEdges(exes, rs, now).Success? && k in RestoreEdges(exes, rs, now).value
    ensures exists i :: FirstNaming(exes, rs, k, i) && RestoreEdges(exes, rs, now).value[k] == RestoredEdge(rs[i], now)
    decreases |rs|
  {
    hide Slot, PairKey, RestoredEdge;
    var n := |rs| - 1;
    var prev := RestoreEdges(exes, rs[..n], now).value;
    assert forall j :: 0 <= j < n ==> rs[..n][j] == rs[j];
    if k in prev {
      EdgeFromFirst(exes, rs[..n], now, k);
      var i :| FirstNaming(exes, rs[..n], k, i) && prev[k] == RestoredEdge(rs[..n][i], now);
      assert FirstNaming(exes, rs, k, i);
    } else {
      NamedIsRestored(exes, rs[..n], now, k);
      assert FirstNaming(exes, rs, k, n);
    }
  }

  // A restore that succeeds knew both executables of every record.
  lemma {:induction false} RecordsKnown(exes: seq<Exe>, rs: seq<EdgeRecord>, now: U64)
    requires RestoreEdges(exes, rs, now).Success?
    ensures forall j :: 0 <= j < |rs| ==> Slot(exes, rs[j].exeA) < |exes| && Slot(exes, rs[j].exeB) < |exes|
    decreases |rs|
  {
    if rs != [] {
      var n := |rs| - 1;
      RecordsKnown(exes, rs[..n], now);
      assert forall j :: 0 <= j < n ==> rs[..n][j] == rs[j];
    }
  }

  // It is stored the right way round, with the executable the record names first as its first
  // end, exactly when that executable was issued no larger an id.
  lemma OrientationNeedsIdOrder(exes: seq<Exe>, rs: seq<EdgeRecord>, now: U64, k: EdgeKey)
    requires RestoreEdges(exes, rs, now).Success? && k in RestoreEdges(exes, rs, now).value
    ensures exists i :: FirstNaming(exes, rs, k, i) && k.a < |exes| && k.b < |exes|
                        && RestoreEdges(exes, rs, now).value[k] == RestoredEdge(rs[i], now)
                        && (exes[k.a].path == rs[i].exeA && exes[k.b].path == rs[i].exeB
                            <==> Slot(exes, rs[i].exeA) <= Slot(exes, rs[i].exeB))
  {
    EdgeFromFirst(exes, rs, now, k);
    RecordsKnown(exes, rs, now);
    hide RestoreEdges, Slot, PairKey, RestoredEdge;
    var i :| FirstNaming(exes, rs, k, i) && RestoreEdges(exes, rs, now).value[k] == RestoredEdge(rs[i], now);
    PairOriented(exes, rs[i].exeA, rs[i].exeB);
  }

  lemma PairOriented(exes: seq<Exe>, p: Path, q: Path)
    requires Slot(exes, p) < |exes| && Slot(exes, q) < |exes|
    ensures var k := PairKey(Slot(exes, p), Slot(exes, q));
            && k.a < |exes| && k.b < |exes|
            && (exes[k.a].path == p && exes[k.b].path == q <==> Slot(exes, p) <= Slot(exes, q))
  {
  }

  // No record names a pair without its edge being restored.
  lemma {:induction false} NamedIsRestored(exes: seq<Exe>, rs: seq<EdgeRecord>, now: U64, k: EdgeKey)
    requires RestoreEdges(exes, rs, now).Success? && k !in RestoreEdges(exes, rs, now).value
    ensures forall j :: 0 <= j < |rs| ==> PairKey(Slot(exes, rs[j].exeA), Slot(exes, rs[j].exeB)) != k
    decreases |rs|
  {
    if rs != [] {
      var n := |rs| - 1;
      NamedIsRestored(exes, rs[..n], now, k);
      assert forall j :: 0 <= j < n ==> rs[..n][j] == rs[j];
    }
  }

  /* ---------- what a load brings back, told by the saved model ---------- */

  // Exactly those last seen no longer than `window` before the model time are active.
  ghost predicate ActiveBySight(exes: seq<Exe>, active: map<ExeId, U64>, now: U64, window: U64) {
    && (forall i: ExeId :: i in active <==> i < |exes| && exes[i].lastSeen.Some? && now - exes[i].lastSeen.value <= window)
    && (forall i: ExeId :: i in active ==> active[i] == now)
  }

  // Nobody runs, and nothing else that counts of an executable is lost.
  ghost predicate ExesRecalled(exes: seq<Exe>, exes': seq<Exe>) {
    && |exes'| == |exes|
    && (forall i :: 0 <= i < |exes| ==> exes'[i] == Exe(exes[i].path, exes[i].total, exes[i].lastSeen, false, 0))
  }

  // The edges whose two ends are active come back with what they learned, in a new life.
  ghost predicate EdgesRecalled(edges: map<EdgeKey, Edge>, edges': map<EdgeKey, Edge>, active: set<ExeId>, now: U64) {
    && (forall k :: k in edges' <==> k in edges && k.a in active && k.b in active)
    && (forall k :: k in edges' ==>
          edges'[k] == Edge(Neither, now, [now, now, now, now], edges[k].ttl, edges[k].tp, edges[k].both))
  }

  // The allowed maps come back under their keys, without file identity, and so do their links.
  ghost predicate MapsRecalled(m: State, m': State, allowMap: Path -> bool) {
    && (forall k :: k in m'.maps <==> k in m.maps && allowMap(k.path))
    && (forall k :: k in m'.maps ==> m'.maps[k] == MapSegment(k.path, k.offset, k.length, m.maps[k].updateTime, 0, 0))
    && (forall l :: l in m'.links <==> l in m.links && allowMap(l.1.path))
  }

  ghost predicate Recalled(m: State, m': State, window: U64, allowMap: Path -> bool) {
    && m'.modelTime == m.modelTime && m'.lastAccounting == m.lastAccounting
    && ExesRecalled(m.exes, m'.exes)
    && ActiveBySight(m.exes, m'.active, m.modelTime, window)
    && EdgesRecalled(m.edges, m'.edges, m'.active.Keys, m.modelTime)
    && MapsRecalled(m, m', allowMap)
  }

  const ALLOW_ALL: Path -> bool := _ => true

  lemma ReloadRecalls(m: State, window: U64)
    requires Linked(m)
    ensures Recalled(m, Reloaded(m, window), window, ALLOW_ALL)
  {
    var r := Reloaded(m, window);
    assert ExesRecalled(m.exes, r.exes);
    assert ActiveBySight(m.exes, r.active, m.modelTime, window);
    assert EdgesRecalled(m.edges, r.edges, r.active.Keys, m.modelTime);
    assert MapsRecalled(m, r, ALLOW_ALL) by {
      hide RebuildActive, Asleep, Reborn;
    }
  }

  // Whatever snapshot is restored, the last-seen times decide who is active, and edges join
  // the active only.
  lemma RestoredActive(s: Snap, window: U64)
    requires Restore(s, window).Success?
    ensures var m := Restore(s, window).value;
            && ActiveBySight(m.exes, m.active, m.modelTime, window)
            && (forall k :: k in m.edges ==> k.a in m.active && k.b in m.active)
  {
    hide RestoreExes, RestoreMaps, RestoreLinks, RestoreEdges;
  }
}
