/**
 The model state as one value, the update step on that value, and the invariants
 the step keeps.  Executable ids are positions; maps are named by their keys.
 */
module Model {
  import opened Domain
  import opened MarkovEdge
  import opened Observation

  datatype State = State(
    exes: seq<Exe>,
    maps: map<MapKey, MapSegment>,
    links: set<(ExeId, MapKey)>,
    edges: map<EdgeKey, Edge>,
    active: map<ExeId, U64>,
    modelTime: U64,
    lastAccounting: U64)

  const EMPTY: State := State([], map[], {}, map[], map[], 0, 0)

  /* ---------- admission ---------- */

  // The position of the executable with this path, or one past the end.
  function Slot(exes: seq<Exe>, path: Path): (r: nat)
    ensures r <= |exes|
    ensures r < |exes| ==> exes[r].path == path
    ensures forall i :: 0 <= i < r ==> exes[i].path != path
  {
    if exes == [] || exes[0].path == path then 0 else 1 + Slot(exes[1..], path)
  }

  ghost predicate Distinct(exes: seq<Exe>) {
    forall i, j :: 0 <= i < j < |exes| ==> exes[i].path != exes[j].path
  }

  lemma SlotOfDistinct(exes: seq<Exe>, i: nat)
    requires Distinct(exes) && i < |exes|
    ensures Slot(exes, exes[i].path) == i
  {
  }

  function EnsureExe(exes: seq<Exe>, path: Path): (r: seq<Exe>)
    ensures Slot(exes, path) < |r| && r[Slot(exes, path)].path == path
    ensures Distinct(exes) ==> Distinct(r)
  {
    if Slot(exes, path) < |exes| then exes else exes + [NewExe(path)]
  }

  function LinkMap(m: State, id: ExeId, segment: MapSegment): State {
    m.(maps := if segment.Key() in m.maps then m.maps else m.maps[segment.Key() := segment],
       links := m.links + {(id, segment.Key())})
  }

  function LinkMaps(m: State, id: ExeId, segments: seq<MapSegment>): State {
    if segments == [] then m
    else LinkMap(LinkMaps(m, id, segments[..|segments| - 1]), id, segments[|segments| - 1])
  }

  function SeeExe(m: State, path: Path, now: U64): State {
    var id := Slot(m.exes, path);
    var exes := EnsureExe(m.exes, path);
    m.(exes := exes[id := exes[id].(lastSeen := Some(now))])
  }

  function Admit(m: State, c: Candidate, now: U64): State {
    LinkMaps(SeeExe(m, c.path, now), Slot(m.exes, c.path), c.maps)
  }

  // Admission in the order in which the candidate table is iterated.
  function AdmitAll(m: State, order: seq<Path>, batch: Batch, policy: Policy): State
    requires forall p :: p in order ==> p in batch.candidates
  {
    if order == [] then m
    else
      var prev := AdmitAll(m, order[..|order| - 1], batch, policy);
      var c := batch.candidates[order[|order| - 1]];
      if policy.decide(c).Accept? then Admit(prev, c, batch.now) else prev
  }

  /* ---------- running flags, active set, edges, accounting ---------- */

  function SetFlag(e: Exe, running: bool, now: U64): (r: Exe)
    ensures r.path == e.path
  {
    e.(running := running, changeTime := if e.running != running then now else e.changeTime)
  }

  function SetRunning(exes: seq<Exe>, running: set<Path>, now: U64): (r: seq<Exe>)
    ensures |r| == |exes|
  {
    seq(|exes|, i requires 0 <= i < |exes| => SetFlag(exes[i], exes[i].path in running, now))
  }

  predicate IsRunning(exes: seq<Exe>, id: ExeId) {
    id < |exes| && exes[id].running
  }

  function RunningIds(exes: seq<Exe>): set<ExeId> {
    set i | 0 <= i < |exes| && exes[i].running
  }

  function Touch(active: map<ExeId, U64>, ids: set<ExeId>, now: U64): map<ExeId, U64> {
    active + map i | i in ids :: now
  }

  function Expire(active: map<ExeId, U64>, now: U64, window: U64): map<ExeId, U64> {
    map i | i in active && SatSub(now, active[i]) <= window :: active[i]
  }

  function Pairs(ids: set<ExeId>): set<EdgeKey> {
    set a, b | a in ids && b in ids && a < b :: EdgeKey(a, b)
  }

  function Account(exes: seq<Exe>, period: U64): (r: seq<Exe>)
    ensures |r| == |exes|
  {
    seq(|exes|, i requires 0 <= i < |exes| =>
      if exes[i].running then exes[i].(total := SatAdd(exes[i].total, period)) else exes[i])
  }

  function PairState(exes: seq<Exe>, k: EdgeKey): MarkovState {
    FromRunning(IsRunning(exes, k.a), IsRunning(exes, k.b))
  }

  function AdvanceEdge(e: Edge, s: MarkovState, period: U64, now: U64, decay: real): Edge
    requires 0.0 <= decay
  {
    Transition(if s == Both then e.(both := SatAdd(e.both, period)) else e, s, now, decay)
  }

  // The edge that a pair advances from: the kept one, or one born now.
  function Source(edges: map<EdgeKey, Edge>, exes: seq<Exe>, k: EdgeKey, now: U64): Edge {
    if k in edges then edges[k] else Fresh(PairState(exes, k), now)
  }

  // The complete graph on the active executables: kept edges advance, missing ones are born now.
  function Advance(edges: map<EdgeKey, Edge>, exes: seq<Exe>, active: set<ExeId>, period: U64, now: U64, decay: real)
    : map<EdgeKey, Edge>
    requires 0.0 <= decay
  {
    map k | k in Pairs(active) ::
      AdvanceEdge(Source(edges, exes, k, now), PairState(exes, k), period, now, decay)
  }

  datatype Tuning = Tuning(window: U64, decay: real) {
    ghost predicate Valid() { 0.0 <= decay }
  }

  function Update(m: State, batch: Batch, policy: Policy, order: seq<Path>, tuning: Tuning): State
    requires 0.0 <= tuning.decay
    requires forall p :: p in order ==> p in batch.candidates
  {
    var m1 := AdmitAll(m, order, batch, policy);
    var exes := SetRunning(m1.exes, batch.running, batch.now);
    var active := Expire(Touch(m1.active, RunningIds(exes), batch.now), batch.now, tuning.window);
    var period := SatSub(batch.now, m1.lastAccounting);
    State(Account(exes, period), m1.maps, m1.links,
          Advance(m1.edges, exes, active.Keys, period, batch.now, tuning.decay),
          active, batch.now, batch.now)
  }

  function RemoveMap(m: State, key: MapKey): State {
    m.(maps := m.maps - {key}, links := set l | l in m.links && l.1 != key)
  }

  /* ---------- invariants ---------- */

  ghost predicate Linked(m: State) {
    && (forall k :: k in m.maps ==> m.maps[k].Key() == k)
    && (forall l :: l in m.links ==> l.0 < |m.exes| && l.1 in m.maps)
  }

  // Running executables are active, and activity is never dated in the future.
  ghost predicate ActiveOk(m: State) {
    && (forall i :: i in m.active ==> i < |m.exes| && m.active[i] <= m.modelTime)
    && RunningIds(m.exes) <= m.active.Keys
  }

  ghost predicate TotalsOk(m: State) {
    && m.lastAccounting <= m.modelTime
    && forall i :: 0 <= i < |m.exes| ==> m.exes[i].total <= m.lastAccounting
  }

  // One edge: its stored state is the state of its endpoints, its statistics are sane, its
  // times are past, and its simultaneous running time fits in that of either end.
  ghost predicate EdgeOk(e: Edge, k: EdgeKey, exes: seq<Exe>, now: U64) {
    && k.a < k.b < |exes|
    && e.state == PairState(exes, k)
    && GoodStats(e)
    && e.lastChange <= now
    && (forall s :: 0 <= s < 4 ==> e.lastLeft[s] <= now)
    && e.both <= exes[k.a].total && e.both <= exes[k.b].total
  }

  ghost predicate EdgesOk(m: State) {
    && m.edges.Keys <= Pairs(m.active.Keys)
    && forall k :: k in m.edges ==> EdgeOk(m.edges[k], k, m.exes, m.modelTime)
  }

  ghost predicate Inv(m: State) {
    Distinct(m.exes) && Linked(m) && ActiveOk(m) && TotalsOk(m) && EdgesOk(m)
  }

  // What admission may change: executables and maps are only added, and of an executable
  // that was known only its last-seen time moves.
  ghost predicate Grown(m: State, m': State) {
    && |m.exes| <= |m'.exes|
    && (forall i :: 0 <= i < |m.exes| ==> m'.exes[i].(lastSeen := m.exes[i].lastSeen) == m.exes[i])
    && (forall i :: |m.exes| <= i < |m'.exes| ==> m'.exes[i].total == 0 && !m'.exes[i].running && m'.exes[i].changeTime == 0)
    && (forall k :: k in m.maps ==> k in m'.maps && m'.maps[k] == m.maps[k])
    && m.links <= m'.links
    && m'.edges == m.edges && m'.active == m.active
    && m'.modelTime == m.modelTime && m'.lastAccounting == m.lastAccounting
  }

  lemma {:induction false} LinkMapsGrows(m: State, id: ExeId, segments: seq<MapSegment>)
    requires Linked(m) && id < |m.exes|
    ensures Grown(m, LinkMaps(m, id, segments)) && Linked(LinkMaps(m, id, segments))
    ensures LinkMaps(m, id, segments).exes == m.exes
    decreases |segments|
  {
    if segments != [] {
      LinkMapsGrows(m, id, segments[..|segments| - 1]);
    }
  }

  lemma AdmitGrows(m: State, c: Candidate, now: U64)
    requires Linked(m) && Distinct(m.exes)
    ensures Grown(m, Admit(m, c, now)) && Linked(Admit(m, c, now)) && Distinct(Admit(m, c, now).exes)
  {
    LinkMapsGrows(SeeExe(m, c.path, now), Slot(m.exes, c.path), c.maps);
  }

  lemma {:induction false} AdmitAllGrows(m: State, order: seq<Path>, batch: Batch, policy: Policy)
    requires Linked(m) && Distinct(m.exes)
    requires forall p :: p in order ==> p in batch.candidates
    ensures var m' := AdmitAll(m, order, batch, policy);
            Grown(m, m') && Linked(m') && Distinct(m'.exes)
    decreases |order|
  {
    if order != [] {
      var prev := AdmitAll(m, order[..|order| - 1], batch, policy);
      AdmitAllGrows(m, order[..|order| - 1], batch, policy);
      AdmitGrows(prev, batch.candidates[order[|order| - 1]], batch.now);
    }
  }

  // One edge through the update step: `exes` before admission, `exes'` after the flags are set.
  lemma AdvancedEdgeOk(e: Edge, k: EdgeKey, exes: seq<Exe>, last: U64, now: U64, decay: real)
    requires 0.0 <= decay && last <= now
    requires k.a < k.b < |exes| && GoodStats(e) && e.lastChange <= now
    requires forall s :: 0 <= s < 4 ==> e.lastLeft[s] <= now
    requires e.both <= exes[k.a].total <= last && e.both <= exes[k.b].total <= last
    ensures EdgeOk(AdvanceEdge(e, PairState(exes, k), now - last, now, decay), k, Account(exes, now - last), now)
  {
    var s := PairState(exes, k);
    var charged := if s == Both then e.(both := SatAdd(e.both, now - last)) else e;
    TransitionFacts(charged, s, now, decay);
    hide Transition, GoodStats;
    assert PairState(Account(exes, now - last), k) == s;
  }

  // The state an edge is born with does not matter: the transition of the same second
  // repairs it and changes nothing else.
  lemma BirthStateIrrelevant(born: MarkovState, s: MarkovState, period: U64, now: U64, decay: real)
    requires 0.0 <= decay
    ensures AdvanceEdge(Fresh(born, now), s, period, now, decay) == AdvanceEdge(Fresh(s, now), s, period, now, decay)
    ensures AdvanceEdge(Fresh(born, now), s, period, now, decay) == Fresh(s, now).(both := if s == Both then period else 0)
  {
    ImmediateTransitionOnlyMovesState(born, s, now, if s == Both then period else 0, decay);
  }

  lemma FreshIsGood(s: MarkovState, now: U64)
    ensures GoodStats(Fresh(s, now))
  {
  }

  lemma SourceOk(m: State, exes: seq<Exe>, k: EdgeKey, now: U64)
    requires EdgesOk(m) && m.modelTime <= now && k.b < |exes|
    requires |m.exes| <= |exes| && forall i :: 0 <= i < |m.exes| ==> exes[i].total == m.exes[i].total
    requires k.a < k.b
    ensures var e := Source(m.edges, exes, k, now);
            && GoodStats(e) && e.lastChange <= now && (forall s :: 0 <= s < 4 ==> e.lastLeft[s] <= now)
            && e.both <= exes[k.a].total && e.both <= exes[k.b].total
  {
  }

  lemma AdvanceEdgesOk(m: State, exes: seq<Exe>, active: set<ExeId>, now: U64, decay: real)
    requires 0.0 <= decay && EdgesOk(m) && m.lastAccounting <= m.modelTime <= now
    requires |m.exes| <= |exes|
    requires forall i :: 0 <= i < |m.exes| ==> exes[i].total == m.exes[i].total
    requires forall i :: 0 <= i < |exes| ==> exes[i].total <= m.lastAccounting
    requires forall i :: i in active ==> i < |exes|
    ensures var period := now - m.lastAccounting;
            forall k :: k in Pairs(active) ==>
              EdgeOk(Advance(m.edges, exes, active, period, now, decay)[k], k, Account(exes, period), now)
  {
    var period := now - m.lastAccounting;
    hide AdvanceEdge, Account, GoodStats, EdgesOk, EdgeOk, Source;
    forall k | k in Pairs(active)
      ensures EdgeOk(Advance(m.edges, exes, active, period, now, decay)[k], k, Account(exes, period), now)
    {
      var e := Source(m.edges, exes, k, now);
      assert Advance(m.edges, exes, active, period, now, decay)[k] == AdvanceEdge(e, PairState(exes, k), period, now, decay);
      hide Advance;
      SourceOk(m, exes, k, now);
      AdvancedEdgeOk(e, k, exes, m.lastAccounting, now, decay);
    }
  }

  // The update step keeps the invariant whenever the observation is not older than the model.
  lemma UpdateKeepsInv(m: State, batch: Batch, policy: Policy, order: seq<Path>, tuning: Tuning)
    requires Inv(m) && tuning.Valid() && m.modelTime <= batch.now
    requires forall p :: p in order ==> p in batch.candidates
    ensures Inv(Update(m, batch, policy, order, tuning))
  {
    hide AdmitAll, Advance, Touch, Expire, EdgesOk;
    AdmitAllGrows(m, order, batch, policy);
    var m1 := AdmitAll(m, order, batch, policy);
    var exes := SetRunning(m1.exes, batch.running, batch.now);
    var active := Expire(Touch(m1.active, RunningIds(exes), batch.now), batch.now, tuning.window);
    ActivityOk(m1, exes, batch.now, tuning.window);
    AdvanceEdgesOk(m, exes, active.Keys, batch.now, tuning.decay);
    var m' := Update(m, batch, policy, order, tuning);
    assert Distinct(m'.exes) && Linked(m') && TotalsOk(m');
    assert RunningIds(m'.exes) == RunningIds(exes);
    UpdatedEdgesOk(m', m1.edges, exes, SatSub(batch.now, m1.lastAccounting), tuning.decay);
  }

  lemma UpdatedEdgesOk(m': State, edges: map<EdgeKey, Edge>, exes: seq<Exe>, period: U64, decay: real)
    requires 0.0 <= decay
    requires m'.edges == Advance(edges, exes, m'.active.Keys, period, m'.modelTime, decay)
    requires forall k :: k in Pairs(m'.active.Keys) ==> EdgeOk(m'.edges[k], k, m'.exes, m'.modelTime)
    ensures EdgesOk(m')
  {
  }

  lemma ActivityOk(m: State, exes: seq<Exe>, now: U64, window: U64)
    requires forall i :: i in m.active ==> i < |m.exes| && m.active[i] <= m.modelTime
    requires |m.exes| <= |exes| && m.modelTime <= now
    ensures var active := Expire(Touch(m.active, RunningIds(exes), now), now, window);
            && (forall i :: i in active ==> i < |exes| && active[i] <= now)
            && RunningIds(exes) <= active.Keys
  {
  }

  // Who is active after an update: those running now, and those active before whose last
  // activity lies within the window.
  lemma ActiveAfterUpdate(m: State, batch: Batch, policy: Policy, order: seq<Path>, tuning: Tuning, i: ExeId)
    requires Inv(m) && tuning.Valid()
    requires forall p :: p in order ==> p in batch.candidates
    ensures var m' := Update(m, batch, policy, order, tuning);
            i in m'.active <==> IsRunning(m'.exes, i) || (i in m.active && SatSub(batch.now, m.active[i]) <= tuning.window)
  {
    AdmitAllGrows(m, order, batch, policy);
    hide AdmitAll;
  }

  // Every accepted candidate has an executable.
  lemma {:induction false} AcceptedIsKnown(m: State, order: seq<Path>, batch: Batch, policy: Policy, p: Path)
    requires Linked(m) && Distinct(m.exes)
    requires forall q :: q in order ==> q in batch.candidates && batch.candidates[q].path == q
    requires p in order && policy.decide(batch.candidates[p]).Accept?
    ensures exists i :: 0 <= i < |AdmitAll(m, order, batch, policy).exes| && AdmitAll(m, order, batch, policy).exes[i].path == p
    decreases |order|
  {
    var n := |order| - 1;
    var prev := AdmitAll(m, order[..n], batch, policy);
    var m' := AdmitAll(m, order, batch, policy);
    AdmitAllGrows(m, order[..n], batch, policy);
    var c := batch.candidates[order[n]];
    AdmitGrows(prev, c, batch.now);
    if order[n] == p {
      LinkMapsGrows(SeeExe(prev, p, batch.now), Slot(prev.exes, p), c.maps);
      assert m'.exes[Slot(prev.exes, p)].path == p;
    } else {
      assert order == order[..n] + [order[n]];
      AcceptedIsKnown(m, order[..n], batch, policy, p);
      var i :| 0 <= i < |prev.exes| && prev.exes[i].path == p;
      hide Admit;
      assert m'.exes[i].path == p;
    }
  }

  // When executables are announced before their maps, whatever is accepted is left running
  // and active.
  lemma AcceptedIsActive(m: State, events: seq<Event>, policy: Policy, order: seq<Path>, tuning: Tuning, p: Path)
    requires Inv(m) && tuning.Valid() && Announced(events)
    requires forall q :: q in order ==> q in Collect(m.modelTime, events, policy).candidates
    requires p in order && policy.decide(Collect(m.modelTime, events, policy).candidates[p]).Accept?
    ensures var m' := Update(m, Collect(m.modelTime, events, policy), policy, order, tuning);
            exists i :: i in m'.active && IsRunning(m'.exes, i) && m'.exes[i].path == p
  {
    var batch := Collect(m.modelTime, events, policy);
    CollectFacts(m.modelTime, events, policy);
    AnnouncedCandidatesRun(m.modelTime, events, policy);
    hide Collect, EdgesOk, TotalsOk, Announced;
    AcceptedIsKnown(m, order, batch, policy, p);
    hide AdmitAll, Linked, Distinct;
    var i :| 0 <= i < |AdmitAll(m, order, batch, policy).exes| && AdmitAll(m, order, batch, policy).exes[i].path == p;
    ActiveAfterUpdate(m, batch, policy, order, tuning, i);
    assert IsRunning(Update(m, batch, policy, order, tuning).exes, i);
  }

  // After an update the edges are exactly the unordered pairs of distinct active
  // executables, in canonical order, n(n-1)/2 of them, each in the state of its endpoints.
  lemma EdgesAfterUpdate(m: State, batch: Batch, policy: Policy, order: seq<Path>, tuning: Tuning)
    requires Inv(m) && tuning.Valid() && m.modelTime <= batch.now
    requires forall p :: p in order ==> p in batch.candidates
    ensures var m' := Update(m, batch, policy, order, tuning);
            && (forall a, b :: EdgeKey(a, b) in m'.edges <==> a in m'.active && b in m'.active && a < b)
            && 2 * |m'.edges| == |m'.active| * (|m'.active| - 1)
            && (forall k :: k in m'.edges ==> m'.edges[k].state == PairState(m'.exes, k))
  {
    UpdateKeepsInv(m, batch, policy, order, tuning);
    var m' := Update(m, batch, policy, order, tuning);
    assert m'.edges.Keys == Pairs(m'.active.Keys);
    PairCount(m'.active.Keys);
    assert |m'.edges| == |m'.edges.Keys| && |m'.active| == |m'.active.Keys|;
  }

  lemma {:induction false} PairCount(ids: set<ExeId>)
    ensures 2 * |Pairs(ids)| == |ids| * (|ids| - 1)
  {
    if ids != {} {
      var x :| x in ids;
      var rest := ids - {x};
      PairCount(rest);
      PairsSplit(ids, x);
      ImageSize(x, rest);
      hide Pairs;
      assert |ids| == |rest| + 1;
      Triangle(|rest|);
    }
  }

  lemma PairsSplit(ids: set<ExeId>, x: ExeId)
    requires x in ids
    ensures var mine := set y | y in ids - {x} :: PairKey(x, y);
            Pairs(ids) == Pairs(ids - {x}) + mine && Pairs(ids - {x}) !! mine
  {
    var mine := set y | y in ids - {x} :: PairKey(x, y);
    forall k | k in Pairs(ids)
      ensures k in Pairs(ids - {x}) || k in mine
    {
      assert k == PairKey(x, k.b) || k == PairKey(x, k.a) || (k.a != x && k.b != x);
    }
  }

  lemma Triangle(n: nat)
    ensures n * (n - 1) + 2 * n == (n + 1) * n
  {
  }

  // Pairing one executable with each of the others names as many pairs as there are others.
  lemma {:induction false} ImageSize(x: ExeId, rest: set<ExeId>)
    requires x !in rest
    ensures |set y | y in rest :: PairKey(x, y)| == |rest|
  {
    var image := set y | y in rest :: PairKey(x, y);
    if rest != {} {
      var z :| z in rest;
      ImageSize(x, rest - {z});
      var smaller := set y | y in rest - {z} :: PairKey(x, y);
      assert image == smaller + {PairKey(x, z)};
    }
  }
}
