/**
 A run of the daemon that leads to a coefficient of minus nine: two executables run together
 for nine seconds, stop, lose their edge, and start again within the same second.
 */
module ForgottenOverlap {
  import opened Domain
  import opened Enumeration
  import opened Observation
  import opened Model
  import opened Runs
  import opened UpdateEffect
  import opened Correlation

  const ED: Path := "a"
  const VI: Path := "b"
  const PAIR: EdgeKey := EdgeKey(0, 1)

  // Everything is allowed, whatever its maps.
  const LENIENT: Policy := Policy((p: Path) => true, (c: Candidate) => Accept(Full))

  // With no window, executables not seen in this very second are inactive.
  function Setting(cycle: U64): Config {
    Config(Tuning(0, 0.0), cycle, true)
  }

  function BothSeen(now: U64): seq<Event> {
    [ObsBegin(now, 0), ExeSeen(ED, 1), ExeSeen(VI, 2)]
  }

  function NobodySeen(now: U64): seq<Event> {
    [ObsBegin(now, 0)]
  }

  const ORDER: seq<Path> := [ED, VI]

  // The store is empty or holds just the two.
  predicate Ready(exes: seq<Exe>) {
    exes == [] || (|exes| == 2 && exes[0].path == ED && exes[1].path == VI)
  }

  // The two with the time each has run.
  ghost predicate Stage(m: State, total: int) {
    Inv(m) && Ready(m.exes) && Total(m, 0) == Total(m, 1) == total
  }

  function BothBatch(now: U64): Batch {
    Batch(now, map[ED := NewCandidate(ED, 1), VI := NewCandidate(VI, 2)], {ED, VI})
  }

  function NobodyBatch(now: U64): Batch {
    Batch(now, map[], {})
  }

  lemma NobodyCollected(now: U64)
    ensures Collect(now, NobodySeen(now), LENIENT) == NobodyBatch(now)
    ensures TimedAt(NobodySeen(now), now)
  {
    assert NobodySeen(now)[..0] == [];
  }

  lemma BothCollected(now: U64)
    ensures Collect(now, BothSeen(now), LENIENT) == BothBatch(now) && TimedAt(BothSeen(now), now)
    ensures Enumerates(ORDER, BothBatch(now).candidates.Keys)
  {
    NobodyCollected(now);
    var es := BothSeen(now);
    assert es[..1] == NobodySeen(now);
    assert es[..2][..1] == es[..1] && es[..2][1] == ExeSeen(ED, 1);
    assert Collect(now, es[..2], LENIENT) == Batch(now, map[ED := NewCandidate(ED, 1)], {ED});
  }

  // Admitting the two leaves exactly the two, in this order.
  lemma BothAdmitted(m: State, now: U64)
    requires Ready(m.exes)
    ensures var exes := AdmitAll(m, ORDER, BothBatch(now), LENIENT).exes; |exes| == 2 && Ready(exes)
  {
    var b := BothBatch(now);
    assert ORDER[..1] == [ED] && ORDER[..1][..0] == [] && ORDER[1] == VI;
    assert AdmitAll(m, ORDER[..1][..0], b, LENIENT) == m;
    var m1 := AdmitAll(m, ORDER[..1], b, LENIENT);
    assert m1 == Admit(m, NewCandidate(ED, 1), now);
    assert m1.exes == SeeExe(m, ED, now).exes;
    var m2 := AdmitAll(m, ORDER, b, LENIENT);
    assert m2 == Admit(m1, NewCandidate(VI, 2), now);
    assert m2.exes == SeeExe(m1, VI, now).exes;
  }

  lemma UpdateShape(m: State, batch: Batch, policy: Policy, order: seq<Path>, tuning: Tuning)
    requires tuning.Valid() && forall p :: p in order ==> p in batch.candidates
    ensures var exes, m' := AdmitAll(m, order, batch, policy).exes, Update(m, batch, policy, order, tuning);
            && |m'.exes| == |exes| && (forall i :: 0 <= i < |exes| ==> m'.exes[i].path == exes[i].path)
            && m'.modelTime == m'.lastAccounting == batch.now
  {
    hide AdmitAll, Advance, Touch, Expire;
  }

  function AfterBoth(m: State, now: U64, tuning: Tuning): State
    requires 0.0 <= tuning.decay
  {
    Update(m, BothBatch(now), LENIENT, ORDER, tuning)
  }

  function AfterNobody(m: State, now: U64, tuning: Tuning): State
    requires 0.0 <= tuning.decay
  {
    Update(m, NobodyBatch(now), LENIENT, [], tuning)
  }

  lemma BothRunning(m: State, now: U64, tuning: Tuning)
    requires Inv(m) && Ready(m.exes) && tuning.Valid()
    ensures var m' := AfterBoth(m, now, tuning);
            && |m'.exes| == 2 && Ready(m'.exes) && m'.modelTime == m'.lastAccounting == now
            && IsRunning(m'.exes, 0) && IsRunning(m'.exes, 1) && 0 in m'.active && 1 in m'.active
  {
    BothAdmitted(m, now);
    var b := BothBatch(now);
    UpdateShape(m, b, LENIENT, ORDER, tuning);
    hide Update, AdmitAll, EdgesOk, TotalsOk, ActiveOk;
    RunningAfterUpdate(m, b, LENIENT, ORDER, tuning, 0);
    RunningAfterUpdate(m, b, LENIENT, ORDER, tuning, 1);
    hide Inv;
    ActiveAfterUpdate(m, b, LENIENT, ORDER, tuning, 0);
    ActiveAfterUpdate(m, b, LENIENT, ORDER, tuning, 1);
  }

  // Seeing both charges both with the time since the last accounting and gives them an edge.
  lemma BothUpdate(m: State, total: int, tuning: Tuning)
    requires Stage(m, total) && tuning.Valid()
    ensures var now, m' := m.modelTime, AfterBoth(m, m.modelTime, tuning);
            && Stage(m', total + (now - m.lastAccounting)) && m'.modelTime == m'.lastAccounting == now
            && PAIR in m'.edges && BothTime(m', PAIR) == BothTime(m, PAIR) + (now - m.lastAccounting)
  {
    hide Update, Inv, Ready, Total, BothTime, IsRunning, Collect;
    BothRunning(m, m.modelTime, tuning);
    var b := BothBatch(m.modelTime);
    UpdateKeepsInv(m, b, LENIENT, ORDER, tuning);
    UpdateTotals(m, b, LENIENT, ORDER, tuning, 0);
    UpdateTotals(m, b, LENIENT, ORDER, tuning, 1);
    UpdateBothTime(m, b, LENIENT, ORDER, tuning, PAIR);
  }

  // Seeing nobody charges nobody and, with no window, prunes the edge of the two.
  lemma NobodyUpdate(m: State, total: int, tuning: Tuning)
    requires Stage(m, total) && tuning.Valid() && tuning.window == 0
    requires 0 in m.active ==> m.active[0] < m.modelTime
    ensures var m' := AfterNobody(m, m.modelTime, tuning);
            Stage(m', total) && m'.modelTime == m'.lastAccounting == m.modelTime && PAIR !in m'.edges
  {
    var b := NobodyBatch(m.modelTime);
    var m' := Update(m, b, LENIENT, [], tuning);
    UpdateShape(m, b, LENIENT, [], tuning);
    assert AdmitAll(m, [], b, LENIENT) == m;
    hide Update, AdmitAll, EdgesOk, TotalsOk, ActiveOk;
    forall i: ExeId | i < |m'.exes|
      ensures !IsRunning(m'.exes, i)
    {
      RunningAfterUpdate(m, b, LENIENT, [], tuning, i);
    }
    hide Inv;
    UpdateKeepsInv(m, b, LENIENT, [], tuning);
    UpdateTotals(m, b, LENIENT, [], tuning, 0);
    UpdateTotals(m, b, LENIENT, [], tuning, 1);
    UpdateBothTime(m, b, LENIENT, [], tuning, PAIR);
    ActiveAfterUpdate(m, b, LENIENT, [], tuning, 0);
  }

  lemma ScansAreUpdates(e: Runs.Engine)
    requires e.config.doscan && e.config.tuning.Valid()
    ensures LegalScan(e, BothSeen(e.m.modelTime), LENIENT, ORDER)
    ensures Scanned(e, BothSeen(e.m.modelTime), LENIENT, ORDER) == AfterBoth(e.m, e.m.modelTime, e.config.tuning)
    ensures LegalScan(e, NobodySeen(e.m.modelTime), LENIENT, [])
    ensures Scanned(e, NobodySeen(e.m.modelTime), LENIENT, []) == AfterNobody(e.m, e.m.modelTime, e.config.tuning)
  {
    BothCollected(e.m.modelTime);
    NobodyCollected(e.m.modelTime);
    hide Collect, Update, BothSeen, NobodySeen;
  }

  function Ticked(m: State, cycle: U64): State {
    AdvanceClock(RemoveMaps(m, {}), cycle)
  }

  lemma TickedKeepsStage(m: State, total: int, cycle: U64)
    requires Stage(m, total) && m.modelTime + cycle <= U64_MAX
    ensures var m' := Ticked(m, cycle);
            && Stage(m', total) && m'.edges == m.edges && m'.active == m.active
            && m'.lastAccounting == m.lastAccounting && m'.modelTime == m.modelTime + cycle
    ensures 0 in m.active ==> m.active[0] <= m.modelTime
  {
    RemoveMapsKeepsInv(m, {});
    AdvanceClockKeepsInv(RemoveMaps(m, {}), cycle);
    assert ActiveOk(m);
    hide Inv;
  }

  // The steps of the run: both are seen and run for nine seconds, the cycle is shortened,
  // nobody is seen, and both are seen again.
  const S0: Step := Completed(BothSeen(0), LENIENT, ORDER, {})
  const S1: Step := Reload(Setting(1))
  const S2: Step := Completed(BothSeen(9), LENIENT, ORDER, {})
  const S3: Step := Dropped(NobodySeen(10), LENIENT, [])
  const S4: Step := Dropped(BothSeen(10), LENIENT, ORDER)

  // The states between the steps.
  const TUNING: Tuning := Tuning(0, 0.0)
  const M1: State := Ticked(AfterBoth(EMPTY, 0, TUNING), 9)
  const M2: State := Ticked(AfterBoth(M1, 9, TUNING), 1)
  const M3: State := AfterNobody(M2, 10, TUNING)
  const M4: State := AfterBoth(M3, 10, TUNING)

  lemma StatesOfRun()
    ensures M1.modelTime == 9 && M2.modelTime == M3.modelTime == M4.modelTime == 10
    ensures Total(M4, 0) == Total(M4, 1) == 9 && PAIR in M4.edges && M4.edges[PAIR].both == 0
  {
    hide AfterBoth, AfterNobody, Ticked, Inv, Ready, Total;
    assert Stage(EMPTY, 0) by { EmptyStage(); }
    BothUpdate(EMPTY, 0, TUNING);
    TickedKeepsStage(AfterBoth(EMPTY, 0, TUNING), 0, 9);
    BothUpdate(M1, 0, TUNING);
    TickedKeepsStage(AfterBoth(M1, 9, TUNING), 9, 1);
    NobodyUpdate(M2, 9, TUNING);
    BothUpdate(M3, 9, TUNING);
  }

  lemma EmptyStage()
    ensures Stage(EMPTY, 0)
  {
  }

  lemma ExecCons(e: Runs.Engine, step: Step, rest: seq<Step>)
    requires Legal(e, step) && LegalRun(After(e, step), rest)
    ensures LegalRun(e, [step] + rest) && Exec(e, [step] + rest) == Exec(After(e, step), rest)
  {
    hide Legal, After;
    assert ([step] + rest)[1..] == rest;
  }

  lemma CompletedTick(m: State, cycle: U64, id: U64)
    ensures var e, step := Runs.Engine(m, Setting(cycle), id), Completed(BothSeen(m.modelTime), LENIENT, ORDER, {});
            Legal(e, step) && After(e, step) == Runs.Engine(Ticked(AfterBoth(m, m.modelTime, TUNING), cycle), Setting(cycle), SatAdd(id, 1))
  {
    ScansAreUpdates(Runs.Engine(m, Setting(cycle), id));
    hide LegalScan, Scanned, AfterBoth, AfterNobody, BothSeen, NobodySeen;
  }

  lemma DroppedTicks(m: State, cycle: U64, id: U64)
    ensures var e := Runs.Engine(m, Setting(cycle), id);
            var none, both := Dropped(NobodySeen(m.modelTime), LENIENT, []), Dropped(BothSeen(m.modelTime), LENIENT, ORDER);
            && Legal(e, none) && After(e, none) == Runs.Engine(AfterNobody(m, m.modelTime, TUNING), Setting(cycle), SatAdd(id, 1))
            && Legal(e, both) && After(e, both) == Runs.Engine(AfterBoth(m, m.modelTime, TUNING), Setting(cycle), SatAdd(id, 1))
  {
    ScansAreUpdates(Runs.Engine(m, Setting(cycle), id));
    hide LegalScan, Scanned, AfterBoth, AfterNobody, BothSeen, NobodySeen;
  }

  // The engine before each step.
  const E0: Runs.Engine := Start(Setting(9))
  const E1: Runs.Engine := Runs.Engine(M1, Setting(9), 1)
  const E2: Runs.Engine := Runs.Engine(M1, Setting(1), 1)
  const E3: Runs.Engine := Runs.Engine(M2, Setting(1), 2)
  const E4: Runs.Engine := Runs.Engine(M3, Setting(1), 3)
  const E5: Runs.Engine := Runs.Engine(M4, Setting(1), 4)

  lemma FirstSteps()
    ensures Legal(E0, S0) && After(E0, S0) == E1
    ensures Legal(E1, S1) && After(E1, S1) == E2
    ensures Legal(E2, S2) && After(E2, S2) == E3
  {
    assert Legal(E1, S1) && After(E1, S1) == E2;
    hide Legal, After, AfterBoth, AfterNobody, Ticked, BothSeen, NobodySeen;
    StatesOfRun();
    CompletedTick(EMPTY, 9, 0);
    CompletedTick(M1, 1, 1);
  }

  lemma LastSteps()
    ensures Legal(E3, S3) && After(E3, S3) == E4
    ensures Legal(E4, S4) && After(E4, S4) == E5
  {
    hide Legal, After, AfterBoth, AfterNobody, Ticked, BothSeen, NobodySeen;
    StatesOfRun();
    DroppedTicks(M2, 1, 2);
    DroppedTicks(M3, 1, 3);
  }

  function Story(): (steps: seq<Step>)
    ensures |steps| == 5
  {
    [S0] + ([S1] + ([S2] + ([S3] + ([S4] + []))))
  }

  lemma RunIsLegal()
    ensures LegalRun(E0, Story()) && Exec(E0, Story()) == E5
  {
    FirstSteps();
    LastSteps();
    assert LegalRun(E5, []) && Exec(E5, []) == E5;
    hide Legal, After, LegalRun, Exec, AfterBoth, AfterNobody, Ticked, BothSeen, NobodySeen, Start;
    ExecCons(E4, S4, []);
    ExecCons(E3, S3, [S4] + []);
    ExecCons(E2, S2, [S3] + ([S4] + []));
    ExecCons(E1, S1, [S2] + ([S3] + ([S4] + [])));
    ExecCons(E0, S0, [S1] + ([S2] + ([S3] + ([S4] + []))));
  }

  // A legal run from the empty model after which the coefficient of a live edge is minus nine.
  lemma PhiOutOfRangeReachable(root: real)
    requires IsRoot(root, Radicand(10.0, 9.0, 9.0))
    ensures LegalRun(Start(Setting(9)), Story())
    ensures var m := Exec(Start(Setting(9)), Story()).m;
            PAIR in m.edges && Phi(m.modelTime, Total(m, PAIR.a), Total(m, PAIR.b), m.edges[PAIR].both, root) == Some(-9.0)
  {
    RunIsLegal();
    StatesOfRun();
    PhiOutOfRange(root);
    hide Exec, LegalRun, Phi, Radicand, Total, AfterBoth;
  }
}
