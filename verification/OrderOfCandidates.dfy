/**
 The candidates of an observation come out of a hash table in an arbitrary order.  Up to
 the ids issued to the new executables the order decides one thing only: which of several
 descriptions of a new map is stored.
 */
module OrderOfCandidates {
  import opened Domain
  import opened Enumeration
  import opened MarkovEdge
  import opened Observation
  import opened Model
  import opened Runs
  import opened UpdateEffect

  // Two orders over the candidates of one batch.
  ghost predicate TwoOrders(m: State, batch: Batch, order: seq<Path>, order': seq<Path>) {
    && Linked(m) && Distinct(m.exes)
    && Enumerates(order, batch.candidates.Keys) && Enumerates(order', batch.candidates.Keys)
    && forall q :: q in batch.candidates ==> batch.candidates[q].path == q
  }

  // Executable `i` of one state and `i'` of the other are the same program.
  predicate SamePath(exes: seq<Exe>, i: ExeId, exes': seq<Exe>, i': ExeId) {
    i < |exes| && i' < |exes'| && exes[i].path == exes'[i'].path
  }

  ghost predicate Matched(exes: seq<Exe>, i: ExeId, exes': seq<Exe>) {
    exists i': ExeId :: SamePath(exes, i, exes', i')
  }

  lemma AcceptedAlike(m: State, batch: Batch, order: seq<Path>, order': seq<Path>, policy: Policy)
    requires TwoOrders(m, batch, order, order')
    ensures forall q :: Accepted(order, batch, policy, q) <==> Accepted(order', batch, policy, q)
  {
  }

  // A program known before keeps its id under either order.
  lemma OldIdsStay(m: State, m1: State, m2: State, i: ExeId, i': ExeId)
    requires Grown(m, m1) && Grown(m, m2) && Distinct(m1.exes) && Distinct(m2.exes)
    requires SamePath(m1.exes, i, m2.exes, i')
    ensures (i < |m.exes| || i' < |m.exes|) ==> i == i'
  {
    if i < |m.exes| {
      assert m1.exes[i].path == m.exes[i].path == m2.exes[i].path;
    }
    if i' < |m.exes| {
      assert m1.exes[i'].path == m.exes[i'].path == m2.exes[i'].path;
    }
  }

  lemma RecordsGrow(m: State, m1: State, i: ExeId)
    requires Grown(m, m1) && i < |m1.exes|
    ensures m1.exes[i] == (if i < |m.exes| then m.exes[i] else NewExe(m1.exes[i].path)).(lastSeen := m1.exes[i].lastSeen)
  {
  }

  // Admission leaves the same record for a program, whatever id it got.
  lemma AdmittedAlike(m: State, batch: Batch, policy: Policy, order: seq<Path>, order': seq<Path>, i: ExeId, i': ExeId)
    requires TwoOrders(m, batch, order, order')
    requires SamePath(AdmitAll(m, order, batch, policy).exes, i, AdmitAll(m, order', batch, policy).exes, i')
    ensures AdmitAll(m, order, batch, policy).exes[i] == AdmitAll(m, order', batch, policy).exes[i']
    ensures (i < |m.exes| || i' < |m.exes|) ==> i == i'
  {
    var m1, m2 := AdmitAll(m, order, batch, policy), AdmitAll(m, order', batch, policy);
    AdmitAllGrows(m, order, batch, policy);
    AdmitAllGrows(m, order', batch, policy);
    OldIdsStay(m, m1, m2, i, i');
    AcceptedAlike(m, batch, order, order', policy);
    AdmitAllDates(m, order, batch, policy, i);
    AdmitAllDates(m, order', batch, policy, i');
    RecordsGrow(m, m1, i);
    RecordsGrow(m, m2, i');
    hide AdmitAll, Linked, Distinct, Grown;
  }

  // The same programs and the same maps are known, and nothing depends on the order but ids.
  lemma UpdatedAlike(m: State, batch: Batch, policy: Policy, tuning: Tuning, order: seq<Path>, order': seq<Path>)
    requires Inv(m) && tuning.Valid() && TwoOrders(m, batch, order, order')
    ensures var m1, m2 := Update(m, batch, policy, order, tuning), Update(m, batch, policy, order', tuning);
            && m1.maps.Keys == m2.maps.Keys
            && m1.modelTime == m2.modelTime && m1.lastAccounting == m2.lastAccounting
            && (forall i: ExeId :: i < |m1.exes| ==> Matched(m1.exes, i, m2.exes))
            && (forall i: ExeId, i': ExeId :: SamePath(m1.exes, i, m2.exes, i') ==>
                  && m1.exes[i] == m2.exes[i']
                  && (i < |m.exes| ==> i == i')
                  && (i in m1.active <==> i' in m2.active)
                  && (i in m1.active ==> m1.active[i] == m2.active[i'])
                  && forall key :: (i, key) in m1.links <==> (i', key) in m2.links)
  {
    var m1, m2 := Update(m, batch, policy, order, tuning), Update(m, batch, policy, order', tuning);
    hide Update, Inv, TwoOrders;
    SameKnown(m, batch, policy, tuning, order, order');
    forall i: ExeId, i': ExeId | SamePath(m1.exes, i, m2.exes, i')
      ensures m1.exes[i] == m2.exes[i'] && (i < |m.exes| ==> i == i')
      ensures i in m1.active <==> i' in m2.active
      ensures i in m1.active ==> m1.active[i] == m2.active[i']
      ensures forall key :: (i, key) in m1.links <==> (i', key) in m2.links
    {
      SameExe(m, batch, policy, tuning, order, order', i, i');
      SameLinks(m, batch, policy, tuning, order, order', i, i');
    }
  }

  // An update's flags, dates and totals are a function of the admitted record.
  function Settled(e: Exe, batch: Batch, last: U64): Exe {
    var f := SetFlag(e, e.path in batch.running, batch.now);
    if f.running then f.(total := SatAdd(f.total, SatSub(batch.now, last))) else f
  }

  lemma UpdatedRecord(m: State, batch: Batch, policy: Policy, tuning: Tuning, order: seq<Path>)
    requires Inv(m) && tuning.Valid() && forall p :: p in order ==> p in batch.candidates
    ensures var m0, m' := AdmitAll(m, order, batch, policy), Update(m, batch, policy, order, tuning);
            && |m'.exes| == |m0.exes| && m'.maps == m0.maps && m'.links == m0.links
            && m'.modelTime == m'.lastAccounting == batch.now
            && forall i :: 0 <= i < |m0.exes| ==> m'.exes[i] == Settled(m0.exes[i], batch, m.lastAccounting)
                                                  && m'.exes[i].path == m0.exes[i].path
  {
    AdmitAllGrows(m, order, batch, policy);
    hide AdmitAll, Advance, Expire, Touch, Inv, RunningIds;
  }

  // When an active executable was last active.
  lemma UpdatedActivity(m: State, batch: Batch, policy: Policy, tuning: Tuning, order: seq<Path>, i: ExeId)
    requires Inv(m) && tuning.Valid() && forall p :: p in order ==> p in batch.candidates
    ensures var m' := Update(m, batch, policy, order, tuning);
            && (i in m'.active <==> IsRunning(m'.exes, i) || (i in m.active && SatSub(batch.now, m.active[i]) <= tuning.window))
            && (i in m'.active ==> m'.active[i] == if IsRunning(m'.exes, i) then batch.now else m.active[i])
  {
    AdmitAllGrows(m, order, batch, policy);
    hide AdmitAll, Advance, SetFlag;
  }

  lemma SameExe(m: State, batch: Batch, policy: Policy, tuning: Tuning, order: seq<Path>, order': seq<Path>, i: ExeId, i': ExeId)
    requires Inv(m) && tuning.Valid() && TwoOrders(m, batch, order, order')
    requires SamePath(Update(m, batch, policy, order, tuning).exes, i, Update(m, batch, policy, order', tuning).exes, i')
    ensures var m1, m2 := Update(m, batch, policy, order, tuning), Update(m, batch, policy, order', tuning);
            && m1.exes[i] == m2.exes[i'] && ((i < |m.exes| || i' < |m.exes|) ==> i == i')
            && (i in m1.active <==> i' in m2.active)
            && (i in m1.active ==> m1.active[i] == m2.active[i'])
  {
    hide Update, AdmitAll, Settled, Linked, Distinct, EdgesOk, TotalsOk;
    UpdatedRecord(m, batch, policy, tuning, order);
    UpdatedRecord(m, batch, policy, tuning, order');
    AdmittedAlike(m, batch, policy, order, order', i, i');
    UpdatedActivity(m, batch, policy, tuning, order, i);
    UpdatedActivity(m, batch, policy, tuning, order', i');
    hide TwoOrders;
    assert i in m.active ==> i < |m.exes|;
    assert i' in m.active ==> i' < |m.exes|;
  }

  lemma OnlyHolder(m: State, i: ExeId, key: MapKey)
    requires Distinct(m.exes) && i < |m.exes|
    ensures LinkedPath(m, m.exes[i].path, key) <==> (i, key) in m.links
  {
  }

  lemma SameLinks(m: State, batch: Batch, policy: Policy, tuning: Tuning, order: seq<Path>, order': seq<Path>, i: ExeId, i': ExeId)
    requires Inv(m) && tuning.Valid() && TwoOrders(m, batch, order, order')
    requires SamePath(Update(m, batch, policy, order, tuning).exes, i, Update(m, batch, policy, order', tuning).exes, i')
    ensures var m1, m2 := Update(m, batch, policy, order, tuning), Update(m, batch, policy, order', tuning);
            forall key :: (i, key) in m1.links <==> (i', key) in m2.links
  {
    hide Update, AdmitAll, Settled, LinkedPath, KnownPath, EdgesOk, TotalsOk, ActiveOk;
    UpdatedRecord(m, batch, policy, tuning, order);
    UpdatedRecord(m, batch, policy, tuning, order');
    AdmitAllGrows(m, order, batch, policy);
    AdmitAllGrows(m, order', batch, policy);
    var a1, a2 := AdmitAll(m, order, batch, policy), AdmitAll(m, order', batch, policy);
    hide Distinct, Linked, Grown;
    forall key
      ensures (i, key) in a1.links <==> (i', key) in a2.links
    {
      OrderOfCandidatesIrrelevant(m, order, order', batch, policy, a1.exes[i].path, key);
      OnlyHolder(a1, i, key);
      OnlyHolder(a2, i', key);
    }
  }

  lemma SameKnown(m: State, batch: Batch, policy: Policy, tuning: Tuning, order: seq<Path>, order': seq<Path>)
    requires Inv(m) && tuning.Valid() && TwoOrders(m, batch, order, order')
    ensures var m1, m2 := Update(m, batch, policy, order, tuning), Update(m, batch, policy, order', tuning);
            && m1.maps.Keys == m2.maps.Keys
            && m1.modelTime == m2.modelTime && m1.lastAccounting == m2.lastAccounting
            && (forall i: ExeId :: i < |m1.exes| ==> Matched(m1.exes, i, m2.exes))
  {
    var m1, m2 := Update(m, batch, policy, order, tuning), Update(m, batch, policy, order', tuning);
    var a1, a2 := AdmitAll(m, order, batch, policy), AdmitAll(m, order', batch, policy);
    hide Update, AdmitAll, Settled, LinkedPath, EdgesOk, TotalsOk, ActiveOk, Distinct, Linked;
    UpdatedRecord(m, batch, policy, tuning, order);
    UpdatedRecord(m, batch, policy, tuning, order');
    forall key
      ensures key in a1.maps <==> key in a2.maps
    {
      OrderOfCandidatesIrrelevant(m, order, order', batch, policy, "", key);
    }
    assert m1.maps.Keys == m2.maps.Keys;
    forall i: ExeId | i < |m1.exes|
      ensures Matched(m1.exes, i, m2.exes)
    {
      var p := m1.exes[i].path;
      OrderOfCandidatesIrrelevant(m, order, order', batch, policy, p, MapKey("", 0, 0));
      assert KnownPath(a1, p);
      assert KnownPath(a2, p);
      var i': ExeId :| i' < |a2.exes| && a2.exes[i'].path == p;
      assert SamePath(m1.exes, i, m2.exes, i');
    }
  }

  /* ---------- edges ---------- */

  // What two orders make of a pair of programs, before its edge is looked at.
  ghost predicate EndsAlike(m: State, m1: State, m2: State, i: ExeId, i': ExeId, j: ExeId, j': ExeId) {
    var k, k' := PairKey(i, j), PairKey(i', j');
    && i' != j'
    && (k in m1.edges <==> k' in m2.edges)
    && (k in m.edges || k' in m.edges ==> k == k')
    && ((i < |m.exes| || j < |m.exes|) ==> (i < j) == (i' < j'))
    && PairState(m2.exes, k') == if (i < j) == (i' < j') then PairState(m1.exes, k) else Mirrored(PairState(m1.exes, k))
  }

  lemma PairAfterUpdate(m: State, batch: Batch, policy: Policy, tuning: Tuning, order: seq<Path>, order': seq<Path>, i: ExeId, j: ExeId)
    requires Inv(m) && tuning.Valid() && m.modelTime <= batch.now && TwoOrders(m, batch, order, order')
    ensures var m' := Update(m, batch, policy, order, tuning);
            && (i != j ==> (PairKey(i, j) in m'.edges <==> i in m'.active && j in m'.active))
            && (i < |m'.exes| && j < |m'.exes| && i != j ==> m'.exes[i].path != m'.exes[j].path)
  {
    UpdateKeepsInv(m, batch, policy, order, tuning);
    EdgesAfterUpdate(m, batch, policy, order, tuning);
    hide Update, EdgesOk, TotalsOk, Linked, ActiveOk;
  }

  lemma EndsAreAlike(m: State, batch: Batch, policy: Policy, tuning: Tuning, order: seq<Path>, order': seq<Path>,
                     i: ExeId, i': ExeId, j: ExeId, j': ExeId)
    requires Inv(m) && tuning.Valid() && m.modelTime <= batch.now && TwoOrders(m, batch, order, order') && i != j
    requires var m1, m2 := Update(m, batch, policy, order, tuning), Update(m, batch, policy, order', tuning);
             SamePath(m1.exes, i, m2.exes, i') && SamePath(m1.exes, j, m2.exes, j')
    ensures EndsAlike(m, Update(m, batch, policy, order, tuning), Update(m, batch, policy, order', tuning), i, i', j, j')
  {
    hide Update, Inv, PairState, Linked, Distinct;
    SameExe(m, batch, policy, tuning, order, order', i, i');
    SameExe(m, batch, policy, tuning, order, order', j, j');
    PairAfterUpdate(m, batch, policy, tuning, order, order', i, j);
    PairAfterUpdate(m, batch, policy, tuning, order', order, i', j');
    var m1, m2 := Update(m, batch, policy, order, tuning), Update(m, batch, policy, order', tuning);
    StatesAlike(m1.exes, m2.exes, i, i', j, j');
    OldEdge(m, i, j);
    OldEdge(m, i', j');
  }

  // The edge of a pair under either order: present in both or in neither, and with the same
  // statistics.  Its state names the ends in the order of their ids, which may be exchanged
  // when both are new.
  lemma EdgesAlike(m: State, batch: Batch, policy: Policy, tuning: Tuning, order: seq<Path>, order': seq<Path>,
                   i: ExeId, i': ExeId, j: ExeId, j': ExeId)
    requires Inv(m) && tuning.Valid() && m.modelTime <= batch.now && TwoOrders(m, batch, order, order') && i != j
    requires var m1, m2 := Update(m, batch, policy, order, tuning), Update(m, batch, policy, order', tuning);
             SamePath(m1.exes, i, m2.exes, i') && SamePath(m1.exes, j, m2.exes, j')
    ensures var m1, m2 := Update(m, batch, policy, order, tuning), Update(m, batch, policy, order', tuning);
            var k, k' := PairKey(i, j), PairKey(i', j');
            && EndsAlike(m, m1, m2, i, i', j, j')
            && (k in m1.edges ==> m2.edges[k'] == m1.edges[k].(state := PairState(m2.exes, k')))
  {
    assert m.lastAccounting <= batch.now && Linked(m) && Distinct(m.exes);
    hide Update, Inv, TwoOrders, PairState, Linked, Distinct, SamePath;
    EndsAreAlike(m, batch, policy, tuning, order, order', i, i', j, j');
    if PairKey(i, j) in Update(m, batch, policy, order, tuning).edges {
      OldEdge(m, i, j);
      OldEdge(m, i', j');
      EdgeAlike(m, batch, policy, tuning, order, order', PairKey(i, j), PairKey(i', j'));
    }
  }

  lemma OldEdge(m: State, i: ExeId, j: ExeId)
    requires Inv(m)
    ensures PairKey(i, j) in m.edges ==> i < |m.exes| && j < |m.exes|
  {
  }

  lemma StatesAlike(exes: seq<Exe>, exes': seq<Exe>, i: ExeId, i': ExeId, j: ExeId, j': ExeId)
    requires i < |exes| && j < |exes| && i' < |exes'| && j' < |exes'| && i != j && i' != j'
    requires exes[i] == exes'[i'] && exes[j] == exes'[j']
    ensures var k, k' := PairKey(i, j), PairKey(i', j');
            PairState(exes', k') == if (i < j) == (i' < j') then PairState(exes, k) else Mirrored(PairState(exes, k))
  {
  }

  function Mirrored(s: MarkovState): MarkovState {
    if s == AOnly then BOnly else if s == BOnly then AOnly else s
  }

  // An edge after an update, by the state its ends are left in: advanced, or born at `now`.
  function EdgeNow(edges: map<EdgeKey, Edge>, k: EdgeKey, s: MarkovState, period: U64, now: U64, decay: real): (e: Edge)
    requires 0.0 <= decay
    ensures e.state == s
  {
    if k in edges then AdvanceEdge(edges[k], s, period, now, decay)
    else Fresh(s, now).(both := if s == Both then period else 0)
  }

  lemma EdgeNowAlike(edges: map<EdgeKey, Edge>, k: EdgeKey, k': EdgeKey, s: MarkovState, s': MarkovState,
                     period: U64, now: U64, decay: real)
    requires 0.0 <= decay
    requires k in edges || k' in edges ==> k == k' && s == s'
    requires s == Both <==> s' == Both
    ensures EdgeNow(edges, k', s', period, now, decay) == EdgeNow(edges, k, s, period, now, decay).(state := s')
  {
    hide AdvanceEdge;
  }

  lemma UpdatedEdgeNow(m: State, batch: Batch, policy: Policy, order: seq<Path>, tuning: Tuning, k: EdgeKey)
    requires Linked(m) && Distinct(m.exes) && tuning.Valid() && m.lastAccounting <= batch.now
    requires forall p :: p in order ==> p in batch.candidates
    requires k in Update(m, batch, policy, order, tuning).edges
    ensures var m' := Update(m, batch, policy, order, tuning);
            m'.edges[k] == EdgeNow(m.edges, k, PairState(m'.exes, k), SatSub(batch.now, m.lastAccounting), batch.now, tuning.decay)
  {
    hide Update, AdvanceEdge, Flagged, Linked, Distinct, IsRunning;
    UpdatedEdge(m, batch, policy, order, tuning, k);
    var s := PairState(Flagged(m, batch, policy, order), k);
    BirthStateIrrelevant(s, s, SatSub(batch.now, m.lastAccounting), batch.now, tuning.decay);
  }

  lemma EdgeAlike(m: State, batch: Batch, policy: Policy, tuning: Tuning, order: seq<Path>, order': seq<Path>, k: EdgeKey, k': EdgeKey)
    requires Linked(m) && Distinct(m.exes) && m.lastAccounting <= batch.now
    requires tuning.Valid() && TwoOrders(m, batch, order, order')
    requires var m1, m2 := Update(m, batch, policy, order, tuning), Update(m, batch, policy, order', tuning);
             && k in m1.edges && k' in m2.edges
             && (k in m.edges || k' in m.edges ==> k == k' && PairState(m1.exes, k) == PairState(m2.exes, k'))
             && (PairState(m1.exes, k) == Both <==> PairState(m2.exes, k') == Both)
    ensures var m1, m2 := Update(m, batch, policy, order, tuning), Update(m, batch, policy, order', tuning);
            m2.edges[k'] == m1.edges[k].(state := PairState(m2.exes, k'))
  {
    hide Update, AdvanceEdge, PairState, Linked, Distinct, EdgeNow;
    UpdatedEdgeNow(m, batch, policy, order, tuning, k);
    UpdatedEdgeNow(m, batch, policy, order', tuning, k');
    EdgeNowAlike(m.edges, k, k', PairState(Update(m, batch, policy, order, tuning).exes, k),
                 PairState(Update(m, batch, policy, order', tuning).exes, k'),
                 SatSub(batch.now, m.lastAccounting), batch.now, tuning.decay);
  }

  /* ---------- stored descriptions ---------- */

  // The description of a new map that a candidate's list would store: its first with the key.
  function FirstOf(segments: seq<MapSegment>, key: MapKey): (r: Option<MapSegment>)
    ensures r.Some? <==> HasKey(segments, key)
    ensures r.Some? ==> r.value.Key() == key
  {
    if segments == [] then None
    else
      var before := FirstOf(segments[..|segments| - 1], key);
      assert segments == segments[..|segments| - 1] + [segments[|segments| - 1]];
      if before.Some? then before
      else if segments[|segments| - 1].Key() == key then Some(segments[|segments| - 1])
      else None
  }

  function Stored(m: State, key: MapKey): Option<MapSegment> {
    if key in m.maps then Some(m.maps[key]) else None
  }

  lemma {:induction false} LinkMapsStores(m: State, id: ExeId, segments: seq<MapSegment>, key: MapKey)
    ensures Stored(LinkMaps(m, id, segments), key) == if key in m.maps then Stored(m, key) else FirstOf(segments, key)
    decreases |segments|
  {
    if segments != [] {
      LinkMapsStores(m, id, segments[..|segments| - 1], key);
    }
  }

  // The description that the candidates store in this order: the first accepted one's that
  // has the map at all.
  function FirstStored(order: seq<Path>, batch: Batch, policy: Policy, key: MapKey): Option<MapSegment> {
    if order == [] then None
    else
      var n := |order| - 1;
      var before := FirstStored(order[..n], batch, policy, key);
      if before.Some? then before
      else if Accepted([order[n]], batch, policy, order[n]) then FirstOf(batch.candidates[order[n]].maps, key)
      else None
  }

  lemma {:induction false} AdmitAllStores(m: State, order: seq<Path>, batch: Batch, policy: Policy, key: MapKey)
    requires Linked(m) && Distinct(m.exes)
    requires forall q :: q in order ==> q in batch.candidates && batch.candidates[q].path == q
    ensures Stored(AdmitAll(m, order, batch, policy), key)
            == if key in m.maps then Stored(m, key) else FirstStored(order, batch, policy, key)
    decreases |order|
  {
    if order != [] {
      var n := |order| - 1;
      var prev := AdmitAll(m, order[..n], batch, policy);
      var c := batch.candidates[order[n]];
      AdmitAllStores(m, order[..n], batch, policy, key);
      LinkMapsStores(SeeExe(prev, c.path, batch.now), Slot(prev.exes, c.path), c.maps, key);
      hide LinkMaps, FirstOf, Slot;
    }
  }

  lemma {:induction false} FirstStoredFacts(order: seq<Path>, batch: Batch, policy: Policy, key: MapKey)
    ensures var r := FirstStored(order, batch, policy, key);
            && (r.None? ==> forall q :: Accepted(order, batch, policy, q) ==> FirstOf(batch.candidates[q].maps, key).None?)
            && (r.Some? ==> exists q :: Accepted(order, batch, policy, q) && FirstOf(batch.candidates[q].maps, key) == r)
    decreases |order|
  {
    if order != [] {
      var n := |order| - 1;
      FirstStoredFacts(order[..n], batch, policy, key);
      assert order == order[..n] + [order[n]];
      hide FirstOf;
      assert forall q :: Accepted(order, batch, policy, q) <==>
          Accepted(order[..n], batch, policy, q) || (q == order[n] && Accepted([order[n]], batch, policy, q));
      hide Accepted;
    }
  }

  lemma {:induction false} FirstStoredHead(p: Path, rest: seq<Path>, batch: Batch, policy: Policy, key: MapKey)
    requires Accepted([p], batch, policy, p) && FirstOf(batch.candidates[p].maps, key).Some?
    ensures FirstStored([p] + rest, batch, policy, key) == FirstOf(batch.candidates[p].maps, key)
    decreases |rest|
  {
    hide FirstOf, Accepted;
    if rest == [] {
      assert [p] + rest == [p] && [p][..0] == [];
      assert FirstStored([], batch, policy, key).None?;
    } else {
      var n := |rest| - 1;
      FirstStoredHead(p, rest[..n], batch, policy, key);
      assert ([p] + rest)[..n + 1] == [p] + rest[..n];
    }
  }

  // All accepted candidates that have the map describe it alike.
  ghost predicate Undisputed(batch: Batch, policy: Policy, key: MapKey) {
    forall p, q :: AcceptedHolder(batch, policy, p, key) && AcceptedHolder(batch, policy, q, key) ==>
      FirstOf(batch.candidates[p].maps, key) == FirstOf(batch.candidates[q].maps, key)
  }

  ghost predicate AcceptedHolder(batch: Batch, policy: Policy, p: Path, key: MapKey) {
    p in batch.candidates && policy.decide(batch.candidates[p]).Accept? && HasKey(batch.candidates[p].maps, key)
  }

  // A candidate brought to the front of the order.
  function ToFront(order: seq<Path>, p: Path): seq<Path> {
    [p] + Without(order, p)
  }

  function Without(order: seq<Path>, p: Path): (r: seq<Path>)
    ensures forall q :: q in r <==> q in order && q != p
  {
    if order == [] then []
    else (if order[0] == p then [] else [order[0]]) + Without(order[1..], p)
  }

  lemma {:induction false} WithoutDistinct(order: seq<Path>, p: Path)
    requires forall i, j :: 0 <= i < j < |order| ==> order[i] != order[j]
    ensures forall i, j :: 0 <= i < j < |Without(order, p)| ==> Without(order, p)[i] != Without(order, p)[j]
  {
    if order != [] {
      WithoutDistinct(order[1..], p);
      var rest := Without(order[1..], p);
      assert order[0] !in order[1..];
      assert forall i :: 0 <= i < |rest| ==> rest[i] in rest;
    }
  }

  lemma ToFrontEnumerates(order: seq<Path>, p: Path, elements: set<Path>)
    requires Enumerates(order, elements) && p in elements
    ensures Enumerates(ToFront(order, p), elements)
  {
    WithoutDistinct(order, p);
    var rest := Without(order, p);
    assert forall i :: 0 <= i < |rest| ==> rest[i] in rest;
  }

  // Whatever the order of the candidates, the same description of a map is stored exactly
  // when the map was stored already or no two accepted candidates describe it differently.
  lemma StoredAlikeIff(m: State, batch: Batch, policy: Policy, tuning: Tuning, order: seq<Path>, key: MapKey)
    requires Inv(m) && tuning.Valid() && TwoOrders(m, batch, order, order)
    ensures (forall order' :: Enumerates(order', batch.candidates.Keys) ==>
               Stored(Update(m, batch, policy, order', tuning), key) == Stored(Update(m, batch, policy, order, tuning), key))
            <==> key in m.maps || Undisputed(batch, policy, key)
  {
    hide Update, FirstStored, FirstOf, HasKey, Inv;
    UpdateStores(m, batch, policy, tuning, order, key);
    if key in m.maps || Undisputed(batch, policy, key) {
      forall order' | Enumerates(order', batch.candidates.Keys)
        ensures Stored(Update(m, batch, policy, order', tuning), key) == Stored(Update(m, batch, policy, order, tuning), key)
      {
        UpdateStores(m, batch, policy, tuning, order', key);
        if key !in m.maps {
          UndisputedStored(m, batch, policy, order, order', key);
        }
      }
    } else {
      var p, q :| AcceptedHolder(batch, policy, p, key) && AcceptedHolder(batch, policy, q, key)
        && FirstOf(batch.candidates[p].maps, key) != FirstOf(batch.candidates[q].maps, key);
      FrontStored(m, batch, policy, tuning, order, p, key);
      FrontStored(m, batch, policy, tuning, order, q, key);
      hide Enumerates, Stored;
      var x, y := ToFront(order, p), ToFront(order, q);
      assert Stored(Update(m, batch, policy, x, tuning), key) != Stored(Update(m, batch, policy, y, tuning), key);
    }
  }

  lemma UpdateStores(m: State, batch: Batch, policy: Policy, tuning: Tuning, order: seq<Path>, key: MapKey)
    requires Inv(m) && tuning.Valid() && TwoOrders(m, batch, order, order)
    ensures Stored(Update(m, batch, policy, order, tuning), key)
            == if key in m.maps then Stored(m, key) else FirstStored(order, batch, policy, key)
  {
    UpdatedRecord(m, batch, policy, tuning, order);
    AdmitAllStores(m, order, batch, policy, key);
    hide Update, AdmitAll, FirstStored, Inv;
  }

  lemma UndisputedStored(m: State, batch: Batch, policy: Policy, order: seq<Path>, order': seq<Path>, key: MapKey)
    requires TwoOrders(m, batch, order, order') && Undisputed(batch, policy, key)
    ensures FirstStored(order, batch, policy, key) == FirstStored(order', batch, policy, key)
  {
    FirstStoredFacts(order, batch, policy, key);
    FirstStoredFacts(order', batch, policy, key);
    AcceptedAlike(m, batch, order, order', policy);
    assert forall q :: Accepted(order, batch, policy, q) && FirstOf(batch.candidates[q].maps, key).Some?
                       ==> AcceptedHolder(batch, policy, q, key);
    hide FirstStored, FirstOf, HasKey, Accepted;
  }

  // With an accepted candidate that has the map in front, its description is stored.
  lemma FrontStored(m: State, batch: Batch, policy: Policy, tuning: Tuning, order: seq<Path>, p: Path, key: MapKey)
    requires Inv(m) && tuning.Valid() && TwoOrders(m, batch, order, order)
    requires key !in m.maps && AcceptedHolder(batch, policy, p, key)
    ensures Enumerates(ToFront(order, p), batch.candidates.Keys)
    ensures Stored(Update(m, batch, policy, ToFront(order, p), tuning), key) == FirstOf(batch.candidates[p].maps, key)
  {
    ToFrontEnumerates(order, p, batch.candidates.Keys);
    hide ToFront, Update, FirstStored, FirstOf, HasKey, Inv;
    UpdateStores(m, batch, policy, tuning, ToFront(order, p), key);
    FrontFirst(batch, policy, order, p, key);
  }

  lemma FrontFirst(batch: Batch, policy: Policy, order: seq<Path>, p: Path, key: MapKey)
    requires AcceptedHolder(batch, policy, p, key)
    ensures FirstStored(ToFront(order, p), batch, policy, key) == FirstOf(batch.candidates[p].maps, key)
  {
    FirstStoredHead(p, Without(order, p), batch, policy, key);
  }
}
