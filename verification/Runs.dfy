/**
 Whole runs of the daemon: ticks that complete, ticks dropped while prefetching (after the
 update, before model time advances), reloads, saves, and restarts from the saved state.
 A crash that loses what happened since a save is a shorter run followed by a restart.
 */
module Runs {
  import opened Domain
  import opened Enumeration
  import opened MarkovEdge
  import opened Observation
  import opened Model
  import opened Snapshot

  datatype Config = Config(tuning: Tuning, cycle: U64, doscan: bool)

  datatype Engine = Engine(m: State, config: Config, scanId: U64)

  datatype Step =
    | Completed(events: seq<Event>, policy: Policy, order: seq<Path>, missing: set<MapKey>)
    | Dropped(events: seq<Event>, policy: Policy, order: seq<Path>)
    | Reload(config: Config)
    | Save
    | Restart(config: Config, allowMap: Path -> bool)
  {
    predicate IsTick() { Completed? || Dropped? }
  }

  function RemoveMaps(m: State, keys: set<MapKey>): State {
    m.(maps := m.maps - keys, links := set l | l in m.links && l.1 !in keys)
  }

  // The maps a policy denies.
  function Denied(m: State, allowMap: Path -> bool): set<MapKey> {
    set k | k in m.maps && !allowMap(m.maps[k].path)
  }

  // A tick is legal when the scan is dated at the model time and the candidates are
  // decided on in some order of theirs.
  ghost predicate Legal(e: Engine, step: Step) {
    match step
    case Completed(events, policy, order, _) => LegalScan(e, events, policy, order)
    case Dropped(events, policy, order) => LegalScan(e, events, policy, order)
    case Reload(config) => config.tuning.Valid()
    case Save => true
    case Restart(config, _) => config.tuning.Valid()
  }

  ghost predicate LegalScan(e: Engine, events: seq<Event>, policy: Policy, order: seq<Path>) {
    && e.config.tuning.Valid()
    && (e.config.doscan ==>
          && TimedAt(events, e.m.modelTime)
          && Enumerates(order, Collect(e.m.modelTime, events, policy).candidates.Keys))
  }

  // The state after the scan and update part of a tick.
  ghost function Scanned(e: Engine, events: seq<Event>, policy: Policy, order: seq<Path>): State
    requires LegalScan(e, events, policy, order)
  {
    if e.config.doscan then Update(e.m, Collect(e.m.modelTime, events, policy), policy, order, e.config.tuning) else e.m
  }

  function AdvanceClock(m: State, cycle: U64): State {
    m.(modelTime := SatAdd(m.modelTime, cycle))
  }

  ghost function After(e: Engine, step: Step): Engine
    requires Legal(e, step)
  {
    match step
    case Completed(events, policy, order, missing) =>
      var m := RemoveMaps(Scanned(e, events, policy, order), missing);
      e.(m := AdvanceClock(m, e.config.cycle), scanId := SatAdd(e.scanId, 1))
    case Dropped(events, policy, order) =>
      e.(m := Scanned(e, events, policy, order), scanId := SatAdd(e.scanId, 1))
    case Reload(config) => e.(config := config)
    case Save => e
    case Restart(config, allowMap) =>
      var m := Reloaded(e.m, config.tuning.window);
      Engine(RemoveMaps(m, Denied(m, allowMap)), config, 0)
  }

  ghost predicate LegalRun(e: Engine, steps: seq<Step>)
    decreases |steps|
  {
    steps == [] || (Legal(e, steps[0]) && LegalRun(After(e, steps[0]), steps[1..]))
  }

  ghost function Exec(e: Engine, steps: seq<Step>): Engine
    requires LegalRun(e, steps)
    decreases |steps|
  {
    if steps == [] then e else Exec(After(e, steps[0]), steps[1..])
  }

  lemma {:induction false} ExecAppend(e: Engine, steps: seq<Step>, step: Step)
    requires LegalRun(e, steps) && Legal(Exec(e, steps), step)
    ensures LegalRun(e, steps + [step]) && Exec(e, steps + [step]) == After(Exec(e, steps), step)
    decreases |steps|
  {
    hide Legal, After;
    if steps != [] {
      assert (steps + [step])[1..] == steps[1..] + [step];
      ExecAppend(After(e, steps[0]), steps[1..], step);
    } else {
      assert (steps + [step])[1..] == [];
    }
  }

  function Start(config: Config): Engine {
    Engine(EMPTY, config, 0)
  }

  /* ---------- the invariant ---------- */

  lemma RemoveMapsKeepsInv(m: State, keys: set<MapKey>)
    requires Inv(m)
    ensures Inv(RemoveMaps(m, keys))
  {
  }

  lemma AdvanceClockKeepsInv(m: State, cycle: U64)
    requires Inv(m)
    ensures Inv(AdvanceClock(m, cycle))
  {
  }

  lemma ScannedKeepsInv(e: Engine, events: seq<Event>, policy: Policy, order: seq<Path>)
    requires Inv(e.m) && LegalScan(e, events, policy, order)
    ensures Inv(Scanned(e, events, policy, order))
    ensures Scanned(e, events, policy, order).modelTime == e.m.modelTime
  {
    if e.config.doscan {
      CollectFacts(e.m.modelTime, events, policy);
      hide Collect, Inv;
      UpdateKeepsInv(e.m, Collect(e.m.modelTime, events, policy), policy, order, e.config.tuning);
    }
  }

  lemma StepKeepsInv(e: Engine, step: Step)
    requires Inv(e.m) && Legal(e, step)
    ensures Inv(After(e, step).m)
  {
    hide Inv, LegalScan, Scanned, Reloaded, RemoveMaps, AdvanceClock;
    match step
    case Completed(events, policy, order, missing) =>
      ScannedKeepsInv(e, events, policy, order);
      RemoveMapsKeepsInv(Scanned(e, events, policy, order), missing);
      AdvanceClockKeepsInv(RemoveMaps(Scanned(e, events, policy, order), missing), e.config.cycle);
    case Dropped(events, policy, order) =>
      ScannedKeepsInv(e, events, policy, order);
    case Reload(config) =>
    case Save =>
    case Restart(config, allowMap) =>
      ReloadKeepsInv(e.m, config.tuning.window);
      var m := Reloaded(e.m, config.tuning.window);
      RemoveMapsKeepsInv(m, Denied(m, allowMap));
  }

  // A restart recalls what was saved, less the maps the policy denies by now.
  lemma RestartRecalls(e: Engine, config: Config, allowMap: Path -> bool)
    requires Linked(e.m) && config.tuning.Valid()
    ensures Recalled(e.m, After(e, Step.Restart(config, allowMap)).m, config.tuning.window, allowMap)
  {
    ReloadRecalls(e.m, config.tuning.window);
    var m := Reloaded(e.m, config.tuning.window);
    hide Reloaded, ExesRecalled, EdgesRecalled, ActiveBySight;
    assert MapsRecalled(e.m, m, ALLOW_ALL);
    assert forall k :: k in Denied(m, allowMap) <==> k in m.maps && !allowMap(k.path);
  }

  // Every state of every run keeps the invariant: consistent stores, every edge in the
  // state of its ends, sane statistics, and running times that fit in the elapsed time.
  lemma {:induction false} RunKeepsInv(e: Engine, steps: seq<Step>)
    requires Inv(e.m) && LegalRun(e, steps)
    ensures Inv(Exec(e, steps).m)
    decreases |steps|
  {
    if steps != [] {
      StepKeepsInv(e, steps[0]);
      RunKeepsInv(After(e, steps[0]), steps[1..]);
    }
  }

  lemma StartIsInv(config: Config)
    ensures Inv(Start(config).m)
  {
  }

  /* ---------- what a tick does with the candidates it accepts ---------- */

  // Every candidate of the tick was seen running, so none comes from the fallback for an
  // unannounced map, and every accepted one is left running and active.
  ghost predicate Welcomes(e: Engine, step: Step)
    requires Legal(e, step)
  {
    step.IsTick() && e.config.doscan ==>
      var b, m := Collect(e.m.modelTime, step.events, step.policy), After(e, step).m;
      && b.candidates.Keys == b.running
      && forall p :: p in step.order && p in b.candidates && step.policy.decide(b.candidates[p]).Accept?
           ==> exists i :: i in m.active && IsRunning(m.exes, i) && m.exes[i].path == p
  }

  ghost predicate AllWelcome(e: Engine, steps: seq<Step>)
    requires LegalRun(e, steps)
    decreases |steps|
  {
    steps == [] || (Welcomes(e, steps[0]) && AllWelcome(After(e, steps[0]), steps[1..]))
  }

  // Every scan of the run announces executables before their maps.
  ghost predicate ScansAnnounce(steps: seq<Step>) {
    forall i :: 0 <= i < |steps| && steps[i].IsTick() ==> Announced(steps[i].events)
  }

  lemma TickWelcomes(e: Engine, step: Step)
    requires Inv(e.m) && Legal(e, step) && (step.IsTick() ==> Announced(step.events))
    ensures Welcomes(e, step)
  {
    if step.IsTick() && e.config.doscan {
      var b := Collect(e.m.modelTime, step.events, step.policy);
      AnnouncedCandidatesRun(e.m.modelTime, step.events, step.policy);
      assert After(e, step).m.exes == Scanned(e, step.events, step.policy, step.order).exes;
      assert After(e, step).m.active == Scanned(e, step.events, step.policy, step.order).active;
      hide Collect, Update, Announced, Inv, After;
      forall p | p in step.order && p in b.candidates && step.policy.decide(b.candidates[p]).Accept?
        ensures var m := After(e, step).m; exists i :: i in m.active && IsRunning(m.exes, i) && m.exes[i].path == p
      {
        AcceptedIsActive(e.m, step.events, step.policy, step.order, e.config.tuning, p);
      }
    }
  }

  lemma {:induction false} RunWelcomes(e: Engine, steps: seq<Step>)
    requires Inv(e.m) && LegalRun(e, steps) && ScansAnnounce(steps)
    ensures AllWelcome(e, steps)
    decreases |steps|
  {
    if steps != [] {
      TickWelcomes(e, steps[0]);
      StepKeepsInv(e, steps[0]);
      hide Legal, After, Inv, Welcomes;
      RunWelcomes(After(e, steps[0]), steps[1..]);
    }
  }

  /* ---------- accounting ---------- */

  function Total(m: State, id: ExeId): U64 {
    if id < |m.exes| then m.exes[id].total else 0
  }

  // The accounting period of a tick, charged to the executables it leaves running.
  ghost function Charge(e: Engine, step: Step, id: ExeId): nat
    requires Legal(e, step)
  {
    if step.IsTick() && e.config.doscan
       && IsRunning(Scanned(e, step.events, step.policy, step.order).exes, id)
    then SatSub(e.m.modelTime, e.m.lastAccounting) else 0
  }

  ghost function Charged(e: Engine, steps: seq<Step>, id: ExeId): nat
    requires LegalRun(e, steps)
    decreases |steps|
  {
    if steps == [] then 0 else Charge(e, steps[0], id) + Charged(After(e, steps[0]), steps[1..], id)
  }

  lemma UpdateTotals(m: State, batch: Batch, policy: Policy, order: seq<Path>, tuning: Tuning, id: ExeId)
    requires Inv(m) && tuning.Valid() && m.modelTime <= batch.now
    requires forall p :: p in order ==> p in batch.candidates
    ensures var m' := Update(m, batch, policy, order, tuning);
            Total(m', id) == Total(m, id) + if IsRunning(m'.exes, id) then batch.now - m.lastAccounting else 0
  {
    AdmitAllGrows(m, order, batch, policy);
    hide AdmitAll, Advance, EdgesOk;
  }

  lemma StepTotals(e: Engine, step: Step, id: ExeId)
    requires Inv(e.m) && Legal(e, step)
    ensures Total(After(e, step).m, id) == Total(e.m, id) + Charge(e, step, id)
  {
    if step.IsTick() && e.config.doscan {
      CollectFacts(e.m.modelTime, step.events, step.policy);
      hide Collect, Update;
      UpdateTotals(e.m, Collect(e.m.modelTime, step.events, step.policy), step.policy, step.order, e.config.tuning, id);
    }
  }

  // Over any run, an executable's running time is the sum of the accounting periods of
  // exactly those ticks, completed or dropped, that left it running.
  lemma {:induction false} RunTotals(e: Engine, steps: seq<Step>, id: ExeId)
    requires Inv(e.m) && LegalRun(e, steps)
    ensures Total(Exec(e, steps).m, id) == Total(e.m, id) + Charged(e, steps, id)
    decreases |steps|
  {
    if steps != [] {
      StepTotals(e, steps[0], id);
      StepKeepsInv(e, steps[0]);
      RunTotals(After(e, steps[0]), steps[1..], id);
    }
  }

  // A tick repeated after a dropped one, at the same model time, charges nobody.
  lemma RepeatedTickChargesNothing(e: Engine, first: Step, second: Step, id: ExeId)
    requires Inv(e.m) && e.config.doscan && first.Dropped?
    requires Legal(e, first) && Legal(After(e, first), second)
    ensures Charge(After(e, first), second, id) == 0
  {
    CollectFacts(e.m.modelTime, first.events, first.policy);
    hide Collect, AdmitAll, Advance;
  }

  // The cycles of the ticks that completed.
  ghost function Elapsed(e: Engine, steps: seq<Step>): nat
    requires LegalRun(e, steps)
    decreases |steps|
  {
    if steps == [] then 0
    else (if steps[0].Completed? then e.config.cycle else 0) + Elapsed(After(e, steps[0]), steps[1..])
  }

  // Model time grows by one cycle per completed tick and by nothing else, up to saturation.
  lemma {:induction false} RunClock(e: Engine, steps: seq<Step>)
    requires Inv(e.m) && LegalRun(e, steps)
    ensures var t := e.m.modelTime + Elapsed(e, steps);
            Exec(e, steps).m.modelTime == if t <= U64_MAX then t else U64_MAX
    decreases |steps|
  {
    if steps != [] {
      var step := steps[0];
      if step.IsTick() {
        ScannedKeepsInv(e, step.events, step.policy, step.order);
      }
      hide Scanned, Inv, Reloaded;
      StepKeepsInv(e, step);
      RunClock(After(e, step), steps[1..]);
    }
  }

  function Ticks(steps: seq<Step>): nat {
    if steps == [] then 0 else (if steps[0].IsTick() then 1 else 0) + Ticks(steps[1..])
  }

  // Between restarts every tick, dropped or not, takes the next scan id.
  lemma {:induction false} RunScanIds(e: Engine, steps: seq<Step>)
    requires LegalRun(e, steps) && forall i :: 0 <= i < |steps| ==> !steps[i].Restart?
    ensures var n := e.scanId + Ticks(steps); Exec(e, steps).scanId == if n <= U64_MAX then n else U64_MAX
    decreases |steps|
  {
    if steps != [] {
      hide Scanned, Legal;
      assert !steps[0].Restart?;
      RunScanIds(After(e, steps[0]), steps[1..]);
    }
  }

  /* ---------- overlap of running times ---------- */

  function BothTime(m: State, k: EdgeKey): nat {
    if k in m.edges then m.edges[k].both else 0
  }

  // The time in which at least one of the two ran fits in the accounted time.
  ghost predicate Balanced(m: State, k: EdgeKey) {
    Total(m, k.a) + Total(m, k.b) - BothTime(m, k) <= m.lastAccounting
  }

  // The step drops the pair's edge, and with it a simultaneous running time already counted.
  ghost predicate Forgets(e: Engine, step: Step, k: EdgeKey)
    requires Legal(e, step)
  {
    k in e.m.edges && k !in After(e, step).m.edges
  }

  ghost predicate NeverForgets(e: Engine, steps: seq<Step>, k: EdgeKey)
    requires LegalRun(e, steps)
    decreases |steps|
  {
    steps == [] || (!Forgets(e, steps[0], k) && NeverForgets(After(e, steps[0]), steps[1..], k))
  }

  lemma AdvancedBoth(e: Edge, s: MarkovState, period: U64, now: U64, decay: real)
    requires 0.0 <= decay && GoodStats(e) && e.both + period <= U64_MAX
    ensures AdvanceEdge(e, s, period, now, decay).both == e.both + if s == Both then period else 0
  {
  }

  lemma UpdateBothTime(m: State, batch: Batch, policy: Policy, order: seq<Path>, tuning: Tuning, k: EdgeKey)
    requires Inv(m) && tuning.Valid() && m.modelTime <= batch.now && k.a < k.b
    requires forall p :: p in order ==> p in batch.candidates
    ensures var m' := Update(m, batch, policy, order, tuning);
            && (k in m'.edges <==> k.a in m'.active && k.b in m'.active)
            && (k in m'.edges ==>
                  var period := if IsRunning(m'.exes, k.a) && IsRunning(m'.exes, k.b) then batch.now - m.lastAccounting else 0;
                  BothTime(m', k) == BothTime(m, k) + period)
  {
    EdgesAfterUpdate(m, batch, policy, order, tuning);
    assert k == EdgeKey(k.a, k.b);
    hide Update, EdgeOk;
    UpdatedBoth(m, batch, policy, order, tuning, k);
  }

  lemma UpdatedBoth(m: State, batch: Batch, policy: Policy, order: seq<Path>, tuning: Tuning, k: EdgeKey)
    requires Inv(m) && tuning.Valid() && m.modelTime <= batch.now
    requires forall p :: p in order ==> p in batch.candidates
    ensures var m' := Update(m, batch, policy, order, tuning);
            var period := if IsRunning(m'.exes, k.a) && IsRunning(m'.exes, k.b) then batch.now - m.lastAccounting else 0;
            k in m'.edges ==> BothTime(m', k) == BothTime(m, k) + period
  {
    hide Update, AdvanceEdge, GoodStats, EdgesOk, ActiveOk, Source, Linked, Distinct, Flagged;
    if k in Update(m, batch, policy, order, tuning).edges {
      var exes := Flagged(m, batch, policy, order);
      UpdatedEdge(m, batch, policy, order, tuning, k);
      SourceBoth(m, exes, k, batch.now);
      AdvancedBoth(Source(m.edges, exes, k, batch.now), PairState(exes, k), batch.now - m.lastAccounting, batch.now, tuning.decay);
    }
  }

  // The executables once the flags are set, before they are charged.
  function Flagged(m: State, batch: Batch, policy: Policy, order: seq<Path>): seq<Exe>
    requires forall p :: p in order ==> p in batch.candidates
  {
    SetRunning(AdmitAll(m, order, batch, policy).exes, batch.running, batch.now)
  }

  // An updated edge is its source, advanced to the state its ends are left in.
  lemma UpdatedEdge(m: State, batch: Batch, policy: Policy, order: seq<Path>, tuning: Tuning, k: EdgeKey)
    requires Linked(m) && Distinct(m.exes) && tuning.Valid() && m.lastAccounting <= batch.now
    requires forall p :: p in order ==> p in batch.candidates
    requires k in Update(m, batch, policy, order, tuning).edges
    ensures var m', exes := Update(m, batch, policy, order, tuning), Flagged(m, batch, policy, order);
            && m'.edges[k] == AdvanceEdge(Source(m.edges, exes, k, batch.now), PairState(exes, k),
                                          SatSub(batch.now, m.lastAccounting), batch.now, tuning.decay)
            && IsRunning(m'.exes, k.a) == IsRunning(exes, k.a) && IsRunning(m'.exes, k.b) == IsRunning(exes, k.b)
  {
    hide AdmitAll, AdvanceEdge, Expire, Touch, SetFlag;
    AdmitAllGrows(m, order, batch, policy);
  }

  lemma SourceBoth(m: State, exes: seq<Exe>, k: EdgeKey, now: U64)
    requires EdgesOk(m) && TotalsOk(m)
    ensures var e := Source(m.edges, exes, k, now);
            GoodStats(e) && e.both == BothTime(m, k) && e.both <= m.lastAccounting
  {
    FreshIsGood(PairState(exes, k), now);
    hide GoodStats;
    assert k in m.edges ==> EdgeOk(m.edges[k], k, m.exes, m.modelTime);
  }

  lemma UpdateKeepsBalance(m: State, batch: Batch, policy: Policy, order: seq<Path>, tuning: Tuning, k: EdgeKey)
    requires Inv(m) && tuning.Valid() && m.modelTime <= batch.now && k.a < k.b
    requires forall p :: p in order ==> p in batch.candidates
    requires Balanced(m, k) && (k in m.edges ==> k in Update(m, batch, policy, order, tuning).edges)
    ensures Balanced(Update(m, batch, policy, order, tuning), k)
  {
    var m' := Update(m, batch, policy, order, tuning);
    assert m'.lastAccounting == batch.now;
    assert m.lastAccounting <= m.modelTime;
    hide Update, Inv, Total, BothTime, IsRunning;
    UpdateTotals(m, batch, policy, order, tuning, k.a);
    UpdateTotals(m, batch, policy, order, tuning, k.b);
    UpdateBothTime(m, batch, policy, order, tuning, k);
    UpdateKeepsInv(m, batch, policy, order, tuning);
    NoEdgeNoTime(m, k);
    NoEdgeNoTime(m', k);
    RunningIsActive(m', k.a);
    RunningIsActive(m', k.b);
  }

  lemma RunningIsActive(m: State, i: ExeId)
    requires Inv(m)
    ensures IsRunning(m.exes, i) ==> i in m.active
  {
    assert IsRunning(m.exes, i) ==> i in RunningIds(m.exes);
  }

  lemma NoEdgeNoTime(m: State, k: EdgeKey)
    ensures k !in m.edges ==> BothTime(m, k) == 0
  {
  }

  lemma StepKeepsBalance(e: Engine, step: Step, k: EdgeKey)
    requires Inv(e.m) && Legal(e, step) && k.a < k.b
    requires Balanced(e.m, k) && !Forgets(e, step, k)
    ensures Balanced(After(e, step).m, k)
  {
    if step.IsTick() && e.config.doscan {
      CollectFacts(e.m.modelTime, step.events, step.policy);
      hide Collect, Update;
      UpdateKeepsBalance(e.m, Collect(e.m.modelTime, step.events, step.policy), step.policy, step.order, e.config.tuning, k);
    }
  }

  // As long as a pair's edge is never pruned, however often it ticks, is reloaded or is
  // restarted, the running times of its ends overlap no more than was recorded.
  lemma {:induction false} RunKeepsBalance(e: Engine, steps: seq<Step>, k: EdgeKey)
    requires Inv(e.m) && LegalRun(e, steps) && k.a < k.b
    requires Balanced(e.m, k) && NeverForgets(e, steps, k)
    ensures Balanced(Exec(e, steps).m, k)
    decreases |steps|
  {
    if steps != [] {
      StepKeepsBalance(e, steps[0], k);
      StepKeepsInv(e, steps[0]);
      RunKeepsBalance(After(e, steps[0]), steps[1..], k);
    }
  }
}
