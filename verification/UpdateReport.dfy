/** What the report of an update says, told by the states before and after it. */
module UpdateReport {
  import opened Domain
  import opened Enumeration
  import opened Observation
  import opened Model
  import opened ModelUpdater

  ghost predicate RunsIn(exes: seq<Exe>, p: Path) {
    exists i :: 0 <= i < |exes| && exes[i].path == p && exes[i].running
  }

  lemma {:induction false} FlippedTells(exes: seq<Exe>, exes': seq<Exe>, running: bool, p: Path)
    requires |exes| == |exes'|
    ensures p in Flipped(exes, exes', running)
            <==> exists i :: 0 <= i < |exes| && exes'[i].path == p && exes[i].running != exes'[i].running && exes'[i].running == running
    decreases |exes|
  {
    if exes != [] {
      var n := |exes| - 1;
      FlippedTells(exes[..n], exes'[..n], running, p);
      assert forall i :: 0 <= i < n ==> exes[..n][i] == exes[i] && exes'[..n][i] == exes'[i];
    }
  }

  lemma {:induction false} RejectionsTell(order: seq<Path>, batch: Batch, policy: Policy, p: Path, reason: RejectReason)
    requires forall q :: q in order ==> q in batch.candidates
    ensures (p, reason) in Rejections(order, batch, policy) <==> p in order && policy.decide(batch.candidates[p]) == Reject(reason)
    decreases |order|
  {
    if order != [] {
      var n := |order| - 1;
      RejectionsTell(order[..n], batch, policy, p, reason);
      assert order == order[..n] + [order[n]];
    }
  }

  lemma {:induction false} PartialsTell(order: seq<Path>, batch: Batch, policy: Policy, p: Path)
    requires forall q :: q in order ==> q in batch.candidates
    ensures p in Partials(order, batch, policy) <==> p in order && policy.decide(batch.candidates[p]) == Accept(Partial)
    decreases |order|
  {
    if order != [] {
      var n := |order| - 1;
      PartialsTell(order[..n], batch, policy, p);
      assert order == order[..n] + [order[n]];
    }
  }

  // Flags before admission and after the update, at one position.
  lemma FlagsMoved(m: State, batch: Batch, policy: Policy, order: seq<Path>, tuning: Tuning)
    requires Linked(m) && Distinct(m.exes) && tuning.Valid()
    requires forall q :: q in order ==> q in batch.candidates
    ensures var a, m' := AdmitAll(m, order, batch, policy).exes, Update(m, batch, policy, order, tuning);
            var f := SetRunning(a, batch.running, batch.now);
            && |m.exes| <= |a| == |f| == |m'.exes| && Distinct(m'.exes)
            && (forall i :: 0 <= i < |a| ==> m'.exes[i].path == f[i].path == a[i].path && m'.exes[i].running == f[i].running)
            && (forall i :: 0 <= i < |a| ==> a[i].running == (i < |m.exes| && m.exes[i].running))
            && (forall i :: 0 <= i < |m.exes| ==> a[i].path == m.exes[i].path)
  {
    AdmitAllGrows(m, order, batch, policy);
    hide AdmitAll, Advance;
  }

  // The report names exactly the executables that started and stopped running, each candidate
  // that was rejected or admitted in part, and the maps that are new.
  lemma ReportTells(m: State, batch: Batch, policy: Policy, order: seq<Path>, tuning: Tuning, delta: ModelDelta, p: Path)
    requires Linked(m) && Distinct(m.exes) && tuning.Valid() && Enumerates(order, batch.candidates.Keys)
    requires Reported(m, Update(m, batch, policy, order, tuning), batch, policy, order, delta)
    ensures var m' := Update(m, batch, policy, order, tuning);
            && (p in delta.runningNow <==> RunsIn(m'.exes, p) && !RunsIn(m.exes, p))
            && (p in delta.stoppedNow <==> RunsIn(m.exes, p) && !RunsIn(m'.exes, p))
            && (p in delta.partialExes <==> p in batch.candidates && policy.decide(batch.candidates[p]) == Accept(Partial))
            && (forall reason :: (p, reason) in delta.rejected
                  <==> p in batch.candidates && policy.decide(batch.candidates[p]) == Reject(reason))
            && (forall k :: k in delta.newMaps <==> k in m'.maps && k !in m.maps)
  {
    var m' := Update(m, batch, policy, order, tuning);
    forall reason
      ensures (p, reason) in delta.rejected <==> p in batch.candidates && policy.decide(batch.candidates[p]) == Reject(reason)
    {
      RejectionsTell(order, batch, policy, p, reason);
    }
    PartialsTell(order, batch, policy, p);
    hide Update, Rejections, Partials, NamesNewEdges, NamesAdded, AdmitAll;
    FlagsTell(m, batch, policy, order, tuning, p);
  }

  lemma FlagsTell(m: State, batch: Batch, policy: Policy, order: seq<Path>, tuning: Tuning, p: Path)
    requires Linked(m) && Distinct(m.exes) && tuning.Valid()
    requires forall q :: q in order ==> q in batch.candidates
    ensures var a, m' := AdmitAll(m, order, batch, policy).exes, Update(m, batch, policy, order, tuning);
            var f := SetRunning(a, batch.running, batch.now);
            && (p in Flipped(a, f, true) <==> RunsIn(m'.exes, p) && !RunsIn(m.exes, p))
            && (p in Flipped(a, f, false) <==> RunsIn(m.exes, p) && !RunsIn(m'.exes, p))
  {
    var a, m' := AdmitAll(m, order, batch, policy).exes, Update(m, batch, policy, order, tuning);
    var f := SetRunning(a, batch.running, batch.now);
    FlagsMoved(m, batch, policy, order, tuning);
    FlippedTells(a, f, true, p);
    FlippedTells(a, f, false, p);
    hide AdmitAll, Update, Flipped, SetRunning, SetFlag;
    if i :| 0 <= i < |a| && f[i].path == p {
      OneFlag(m.exes, m'.exes, p, i);
    }
  }

  // With distinct paths there is one flag to look at.
  lemma OneFlag(exes: seq<Exe>, exes': seq<Exe>, p: Path, i: nat)
    requires |exes| <= |exes'| && Distinct(exes') && forall j :: 0 <= j < |exes| ==> exes[j].path == exes'[j].path
    requires i < |exes'| && exes'[i].path == p
    ensures RunsIn(exes', p) <==> exes'[i].running
    ensures RunsIn(exes, p) <==> i < |exes| && exes[i].running
    ensures forall j :: 0 <= j < |exes'| && exes'[j].path == p ==> j == i
  {
  }
}
