/**
 What one update does, told by path and key instead of by step: which executables, maps and
 links exist afterwards, who runs and who was seen.  None of it depends on the order in
 which the candidates are decided on.
 */
module UpdateEffect {
  import opened Domain
  import opened Enumeration
  import opened Observation
  import opened Model

  predicate Accepted(order: seq<Path>, batch: Batch, policy: Policy, p: Path) {
    p in order && p in batch.candidates && policy.decide(batch.candidates[p]).Accept?
  }

  ghost predicate HasKey(segments: seq<MapSegment>, key: MapKey) {
    exists s :: s in segments && s.Key() == key
  }

  ghost predicate KnownPath(m: State, p: Path) {
    exists i :: 0 <= i < |m.exes| && m.exes[i].path == p
  }

  ghost predicate LinkedPath(m: State, p: Path, key: MapKey) {
    exists i :: 0 <= i < |m.exes| && m.exes[i].path == p && (i, key) in m.links
  }

  lemma {:induction false} LinkMapsExact(m: State, id: ExeId, segments: seq<MapSegment>)
    ensures var m' := LinkMaps(m, id, segments);
            && m'.exes == m.exes
            && (forall l :: l in m'.links <==> l in m.links || (l.0 == id && HasKey(segments, l.1)))
            && (forall k :: k in m'.maps <==> k in m.maps || HasKey(segments, k))
    decreases |segments|
  {
    if segments != [] {
      var n := |segments| - 1;
      LinkMapsExact(m, id, segments[..n]);
      assert segments == segments[..n] + [segments[n]];
      forall k
        ensures HasKey(segments, k) <==> HasKey(segments[..n], k) || segments[n].Key() == k
      {
        if s :| s in segments && s.Key() == k && s.Key() != segments[n].Key() {
          assert s in segments[..n];
        }
      }
      hide HasKey;
    }
  }

  // Seeing an executable makes it known and dates it; nobody else changes.
  lemma SeeExeExact(m: State, p: Path, now: U64)
    requires Distinct(m.exes)
    ensures var m' := SeeExe(m, p, now);
            && m'.links == m.links && m'.maps == m.maps && |m.exes| <= |m'.exes| && Distinct(m'.exes)
            && (forall i :: 0 <= i < |m'.exes| ==> (m'.exes[i].path == p <==> i == Slot(m.exes, p)))
            && (forall i :: 0 <= i < |m'.exes| && i != Slot(m.exes, p) ==> i < |m.exes| && m'.exes[i] == m.exes[i])
            && (forall i :: 0 <= i < |m.exes| ==> m'.exes[i].path == m.exes[i].path)
            && Slot(m.exes, p) < |m'.exes| && m'.exes[Slot(m.exes, p)].lastSeen == Some(now)
  {
  }

  lemma AdmitExact(m: State, c: Candidate, now: U64, p: Path, key: MapKey)
    requires Linked(m) && Distinct(m.exes)
    ensures var m' := Admit(m, c, now);
            && (KnownPath(m', p) <==> KnownPath(m, p) || p == c.path)
            && (LinkedPath(m', p, key) <==> LinkedPath(m, p, key) || (p == c.path && HasKey(c.maps, key)))
            && (key in m'.maps <==> key in m.maps || HasKey(c.maps, key))
  {
    var m1 := SeeExe(m, c.path, now);
    var id := Slot(m.exes, c.path);
    SeeExeExact(m, c.path, now);
    LinkMapsExact(m1, id, c.maps);
    var m' := Admit(m, c, now);
    hide SeeExe, LinkMaps, HasKey, Slot, Distinct, Admit;
    assert m'.exes == m1.exes;
    if i :| 0 <= i < |m.exes| && m.exes[i].path == p {
      assert m'.exes[i].path == p;
    }
    if p == c.path {
      assert m'.exes[id].path == p;
    }
    if i :| 0 <= i < |m.exes| && m.exes[i].path == p && (i, key) in m.links {
      assert m'.exes[i].path == p && (i, key) in m'.links;
    }
    if p == c.path && HasKey(c.maps, key) {
      assert (id, key) in m'.links;
    }
  }

  // Admission, by path: exactly the accepted candidates become known, exactly their maps
  // are added, and exactly the links between the two.
  lemma {:induction false} AdmitAllExact(m: State, order: seq<Path>, batch: Batch, policy: Policy, p: Path, key: MapKey)
    requires Linked(m) && Distinct(m.exes)
    requires forall q :: q in order ==> q in batch.candidates && batch.candidates[q].path == q
    ensures var m' := AdmitAll(m, order, batch, policy);
            && (KnownPath(m', p) <==> KnownPath(m, p) || Accepted(order, batch, policy, p))
            && (LinkedPath(m', p, key)
                <==> LinkedPath(m, p, key) || (Accepted(order, batch, policy, p) && HasKey(batch.candidates[p].maps, key)))
            && (key in m'.maps
                <==> key in m.maps || exists q :: Accepted(order, batch, policy, q) && HasKey(batch.candidates[q].maps, key))
    decreases |order|
  {
    if order != [] {
      var n := |order| - 1;
      var prev := AdmitAll(m, order[..n], batch, policy);
      var c := batch.candidates[order[n]];
      AdmitAllExact(m, order[..n], batch, policy, p, key);
      AdmitAllGrows(m, order[..n], batch, policy);
      AdmitExact(prev, c, batch.now, p, key);
      assert order == order[..n] + [order[n]];
      assert forall q :: Accepted(order, batch, policy, q) <==>
          Accepted(order[..n], batch, policy, q) || (q == order[n] && policy.decide(c).Accept?);
      hide Admit, KnownPath, LinkedPath, HasKey, Linked, Distinct;
    }
  }

  // The last-seen time moves to now for the accepted and for nobody else.
  lemma {:induction false} AdmitAllDates(m: State, order: seq<Path>, batch: Batch, policy: Policy, i: ExeId)
    requires Linked(m) && Distinct(m.exes)
    requires forall q :: q in order ==> q in batch.candidates && batch.candidates[q].path == q
    requires i < |AdmitAll(m, order, batch, policy).exes|
    ensures var e := AdmitAll(m, order, batch, policy).exes[i];
            e.lastSeen == if Accepted(order, batch, policy, e.path) then Some(batch.now) else if i < |m.exes| then m.exes[i].lastSeen else None
    decreases |order|
  {
    if order != [] {
      var n := |order| - 1;
      var prev := AdmitAll(m, order[..n], batch, policy);
      var c := batch.candidates[order[n]];
      AdmitAllGrows(m, order[..n], batch, policy);
      SeeExeExact(prev, c.path, batch.now);
      LinkMapsExact(SeeExe(prev, c.path, batch.now), Slot(prev.exes, c.path), c.maps);
      assert order == order[..n] + [order[n]];
      if i < |prev.exes| {
        AdmitAllDates(m, order[..n], batch, policy, i);
      }
      hide SeeExe, LinkMaps, HasKey, Slot, Linked, Distinct;
    }
  }

  // After an update, running means seen running, and a change of the flag is dated.
  lemma RunningAfterUpdate(m: State, batch: Batch, policy: Policy, order: seq<Path>, tuning: Tuning, i: ExeId)
    requires Linked(m) && Distinct(m.exes) && tuning.Valid()
    requires forall q :: q in order ==> q in batch.candidates
    requires i < |Update(m, batch, policy, order, tuning).exes|
    ensures var e := Update(m, batch, policy, order, tuning).exes[i];
            && (e.running <==> e.path in batch.running)
            && (i < |m.exes| ==> e.path == m.exes[i].path
                                 && e.changeTime == if e.running == m.exes[i].running then m.exes[i].changeTime else batch.now)
  {
    AdmitAllGrows(m, order, batch, policy);
    hide AdmitAll, Advance, Linked, Distinct;
  }

  // Two iteration orders over the same candidates lead to the same executables, links and
  // maps, up to the ids issued to the new executables.
  lemma OrderOfCandidatesIrrelevant(m: State, order: seq<Path>, order': seq<Path>, batch: Batch, policy: Policy, p: Path, key: MapKey)
    requires Linked(m) && Distinct(m.exes)
    requires Enumerates(order, batch.candidates.Keys) && Enumerates(order', batch.candidates.Keys)
    requires forall q :: q in batch.candidates ==> batch.candidates[q].path == q
    ensures var m1, m2 := AdmitAll(m, order, batch, policy), AdmitAll(m, order', batch, policy);
            && (KnownPath(m1, p) <==> KnownPath(m2, p))
            && (LinkedPath(m1, p, key) <==> LinkedPath(m2, p, key))
            && (key in m1.maps <==> key in m2.maps)
  {
    AdmitAllExact(m, order, batch, policy, p, key);
    AdmitAllExact(m, order', batch, policy, p, key);
    assert forall q :: Accepted(order, batch, policy, q) <==> Accepted(order', batch, policy, q);
    hide AdmitAll, KnownPath, LinkedPath, HasKey, Linked, Distinct;
  }
}
