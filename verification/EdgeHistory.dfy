/**
 The edges of the model over updates and whole runs: what their states tell of their ends,
 what one update teaches an edge, and that an edge is the replay of what a run has shown it.
 */
module EdgeHistory {
  import opened Domain
  import opened MarkovEdge
  import opened Observation
  import opened Model
  import opened Snapshot
  import opened Runs

  /* ---------- states ---------- */

  // Every edge is in the state that tells which of its ends run.
  ghost predicate StatesTell(m: State) {
    forall k :: k in m.edges ==> Tells(m.edges[k].state, IsRunning(m.exes, k.a), IsRunning(m.exes, k.b))
  }

  lemma InvStatesTell(m: State)
    requires Inv(m)
    ensures StatesTell(m)
  {
    hide IsRunning, Tells, FromRunning, GoodStats;
    forall k | k in m.edges
      ensures Tells(m.edges[k].state, IsRunning(m.exes, k.a), IsRunning(m.exes, k.b))
    {
      assert EdgeOk(m.edges[k], k, m.exes, m.modelTime);
      StateOfEnds(IsRunning(m.exes, k.a), IsRunning(m.exes, k.b));
    }
  }

  // In every state of every run, in particular after every update.
  lemma RunStatesTell(e: Engine, steps: seq<Step>)
    requires Inv(e.m) && LegalRun(e, steps)
    ensures StatesTell(Exec(e, steps).m)
  {
    RunKeepsInv(e, steps);
    InvStatesTell(Exec(e, steps).m);
  }

  /* ---------- one update ---------- */

  lemma ChargedLearns(e: Edge, both: U64, s: MarkovState, now: U64, decay: real)
    requires 0.0 <= decay
    ensures var e' := Transition(e.(both := both), s, now, decay);
            if s == e.state then e' == e.(both := e'.both) else Learns(e, e', now, decay)
  {
    TransitionLearns(e, s, now, decay);
    TransitionIgnoresBoth(e, both, s, now, decay);
    hide Transition, Weight, Nears;
  }

  lemma AdvanceLearns(e: Edge, s: MarkovState, period: U64, now: U64, decay: real)
    requires 0.0 <= decay
    ensures var e' := AdvanceEdge(e, s, period, now, decay);
            && e'.state == s
            && e'.both == (if s == Both then SatAdd(e.both, period) else e.both)
            && if s == e.state then e' == e.(both := e'.both) else Learns(e, e', now, decay)
  {
    TransitionLearns(if s == Both then e.(both := SatAdd(e.both, period)) else e, s, now, decay);
    ChargedLearns(e, if s == Both then SatAdd(e.both, period) else e.both, s, now, decay);
    hide Transition, Learns;
    assert e.(both := e.both) == e;
  }

  // What an update makes of the edge of a pair, both of whose ends ran for `overlap` seconds.
  // One that it keeps, in its state, is charged at most; one whose state changed learns that;
  // a new one knows nothing.
  ghost predicate Taught(edges: map<EdgeKey, Edge>, k: EdgeKey, e': Edge, overlap: int, now: U64, decay: real)
    requires 0.0 <= decay
  {
    if k in edges then
      && e'.both == edges[k].both + overlap
      && (e'.state == edges[k].state ==> e' == edges[k].(both := e'.both))
      && (e'.state != edges[k].state ==> Learns(edges[k], e', now, decay))
    else
      e' == Edge(e'.state, now, [now, now, now, now], ZERO_ROW, [ZERO_ROW, ZERO_ROW, ZERO_ROW, ZERO_ROW], e'.both) && e'.both == overlap
  }

  // Every edge of an updated model tells which of its ends run, and was taught at the
  // configured decay.
  lemma UpdateTeaches(m: State, batch: Batch, policy: Policy, order: seq<Path>, tuning: Tuning, k: EdgeKey)
    requires Inv(m) && tuning.Valid() && m.modelTime <= batch.now
    requires forall p :: p in order ==> p in batch.candidates
    requires k in Update(m, batch, policy, order, tuning).edges
    ensures var m' := Update(m, batch, policy, order, tuning);
            var first, second := IsRunning(m'.exes, k.a), IsRunning(m'.exes, k.b);
            && Tells(m'.edges[k].state, first, second)
            && Taught(m.edges, k, m'.edges[k], if first && second then batch.now - m.lastAccounting else 0, batch.now, tuning.decay)
  {
    hide Update, Inv, Tells, Taught;
    UpdateKeepsInv(m, batch, policy, order, tuning);
    InvStatesTell(Update(m, batch, policy, order, tuning));
    UpdatedTaught(m, batch, policy, order, tuning, k);
  }

  lemma UpdatedTaught(m: State, batch: Batch, policy: Policy, order: seq<Path>, tuning: Tuning, k: EdgeKey)
    requires Inv(m) && tuning.Valid() && m.modelTime <= batch.now
    requires forall p :: p in order ==> p in batch.candidates
    requires k in Update(m, batch, policy, order, tuning).edges
    ensures var m' := Update(m, batch, policy, order, tuning);
            var overlap := if IsRunning(m'.exes, k.a) && IsRunning(m'.exes, k.b) then batch.now - m.lastAccounting else 0;
            Taught(m.edges, k, m'.edges[k], overlap, batch.now, tuning.decay)
  {
    assert Linked(m) && Distinct(m.exes) && m.lastAccounting <= m.modelTime;
    hide Update, Flagged, AdvanceEdge, Taught, Linked, Distinct, Inv, IsRunning, Source;
    var m', exes := Update(m, batch, policy, order, tuning), Flagged(m, batch, policy, order);
    UpdatedEdge(m, batch, policy, order, tuning, k);
    UpdatedBoth(m, batch, policy, order, tuning, k);
    SourceTaught(m.edges, exes, k, m'.edges[k], batch.now - m.lastAccounting,
                 if IsRunning(m'.exes, k.a) && IsRunning(m'.exes, k.b) then batch.now - m.lastAccounting else 0, batch.now, tuning.decay);
  }

  lemma SourceTaught(edges: map<EdgeKey, Edge>, exes: seq<Exe>, k: EdgeKey, e': Edge, period: U64, overlap: int, now: U64, decay: real)
    requires 0.0 <= decay
    requires e' == AdvanceEdge(Source(edges, exes, k, now), PairState(exes, k), period, now, decay)
    requires e'.both == (if k in edges then edges[k].both else 0) + overlap
    ensures e'.state == PairState(exes, k) && Taught(edges, k, e', overlap, now, decay)
  {
    hide AdvanceEdge, Learns;
    var s := PairState(exes, k);
    AdvanceLearns(Source(edges, exes, k, now), s, period, now, decay);
    BirthStateIrrelevant(s, s, period, now, decay);
  }

  /* ---------- whole runs ---------- */

  // What a step of a run shows the edge of a pair.
  ghost function Shown(e: Engine, step: Step, k: EdgeKey): seq<Sighting>
    requires Legal(e, step)
  {
    if step.IsTick() && e.config.doscan then
      [Sighted(PairState(After(e, step).m.exes, k), e.m.modelTime, e.config.tuning.decay)]
    else if step.Restart? then [Restarted(e.m.modelTime)]
    else []
  }

  ghost function AllShown(e: Engine, steps: seq<Step>, k: EdgeKey): seq<Sighting>
    requires LegalRun(e, steps)
    decreases |steps|
  {
    if steps == [] then [] else Shown(e, steps[0], k) + AllShown(After(e, steps[0]), steps[1..], k)
  }

  // The accounting periods of the ticks that left both ends running.
  ghost function Overlap(e: Engine, steps: seq<Step>, k: EdgeKey): nat
    requires LegalRun(e, steps)
    decreases |steps|
  {
    if steps == [] then 0
    else
      var m := After(e, steps[0]).m;
      (if IsRunning(m.exes, k.b) then Charge(e, steps[0], k.a) else 0) + Overlap(After(e, steps[0]), steps[1..], k)
  }

  lemma {:induction false} ReplayJoin(e: Edge, us: seq<Sighting>, vs: seq<Sighting>)
    ensures Replay(e, us + vs) == Replay(Replay(e, us), vs)
    decreases |us|
  {
    if us == [] {
      assert us + vs == vs;
    } else {
      assert (us + vs)[1..] == us[1..] + vs;
      ReplayJoin(Experience(e, us[0]), us[1..], vs);
    }
  }

  lemma ReplayOne(e: Edge, u: Sighting)
    ensures Replay(e, [u]) == Experience(e, u)
  {
  }

  // The simultaneous running time is kept apart from what a transition touches.
  lemma AdvanceIsTransition(e: Edge, s: MarkovState, period: U64, now: U64, decay: real)
    requires 0.0 <= decay
    ensures var e' := AdvanceEdge(e, s, period, now, decay); e' == Transition(e, s, now, decay).(both := e'.both)
  {
    if s == Both {
      TransitionIgnoresBoth(e, SatAdd(e.both, period), s, now, decay);
    }
    hide Transition;
  }

  lemma ScanShows(e: Engine, events: seq<Event>, policy: Policy, order: seq<Path>, k: EdgeKey)
    requires Inv(e.m) && LegalScan(e, events, policy, order) && e.config.doscan
    requires k in e.m.edges && k in Scanned(e, events, policy, order).edges
    ensures var m' := Scanned(e, events, policy, order);
            var e', both := m'.edges[k], if IsRunning(m'.exes, k.a) && IsRunning(m'.exes, k.b) then SatSub(e.m.modelTime, e.m.lastAccounting) else 0;
            && e' == Transition(e.m.edges[k], PairState(m'.exes, k), e.m.modelTime, e.config.tuning.decay).(both := e'.both)
            && e'.both == e.m.edges[k].both + both
  {
    var batch := Collect(e.m.modelTime, events, policy);
    CollectFacts(e.m.modelTime, events, policy);
    assert Linked(e.m) && Distinct(e.m.exes) && e.m.lastAccounting <= e.m.modelTime;
    hide Collect, Update, Flagged, AdvanceEdge, Transition, Inv, Linked, Distinct;
    UpdatedEdge(e.m, batch, policy, order, e.config.tuning, k);
    UpdatedBoth(e.m, batch, policy, order, e.config.tuning, k);
    var s := PairState(Flagged(e.m, batch, policy, order), k);
    AdvanceIsTransition(e.m.edges[k], s, SatSub(e.m.modelTime, e.m.lastAccounting), e.m.modelTime, e.config.tuning.decay);
  }

  lemma RestartShows(m: State, window: U64, k: EdgeKey)
    requires k in Reloaded(m, window).edges
    ensures k in m.edges && Reloaded(m, window).edges[k] == Experience(m.edges[k], Restarted(m.modelTime))
    ensures !IsRunning(Reloaded(m, window).exes, k.b)
  {
  }

  // A step has shown the edge of a pair what it should, and charged it the overlap.
  ghost predicate ShownBy(e: Engine, step: Step, k: EdgeKey)
    requires Legal(e, step) && k in e.m.edges
  {
    k in After(e, step).m.edges
    && var e' := After(e, step).m.edges[k];
       && e' == Replay(e.m.edges[k], Shown(e, step, k)).(both := e'.both)
       && e'.both == e.m.edges[k].both + if IsRunning(After(e, step).m.exes, k.b) then Charge(e, step, k.a) else 0
  }

  lemma TickAfter(e: Engine, step: Step)
    requires Legal(e, step) && step.IsTick() && e.config.doscan
    ensures var m' := Scanned(e, step.events, step.policy, step.order);
            After(e, step).m.edges == m'.edges && After(e, step).m.exes == m'.exes
  {
    hide Scanned;
  }

  // What a step shows and charges, told by the state the scan leaves.
  lemma TickShown(e: Engine, step: Step, k: EdgeKey)
    requires Legal(e, step) && step.IsTick() && e.config.doscan
    ensures var m' := Scanned(e, step.events, step.policy, step.order);
            && Shown(e, step, k) == [Sighted(PairState(m'.exes, k), e.m.modelTime, e.config.tuning.decay)]
            && Charge(e, step, k.a) == if IsRunning(m'.exes, k.a) then SatSub(e.m.modelTime, e.m.lastAccounting) else 0
  {
    hide Scanned, PairState, IsRunning;
    TickAfter(e, step);
  }

  lemma TickShows(e: Engine, step: Step, k: EdgeKey)
    requires Inv(e.m) && Legal(e, step) && k in e.m.edges && !Forgets(e, step, k) && step.IsTick() && e.config.doscan
    ensures ShownBy(e, step, k)
  {
    assert LegalScan(e, step.events, step.policy, step.order);
    hide Inv, Legal, LegalScan, Scanned, Transition, PairState, IsRunning, After, Shown, Charge;
    TickAfter(e, step);
    TickShown(e, step, k);
    ScanShows(e, step.events, step.policy, step.order, k);
    ReplayOne(e.m.edges[k], Shown(e, step, k)[0]);
  }

  lemma StepShows(e: Engine, step: Step, k: EdgeKey)
    requires Inv(e.m) && Legal(e, step) && k in e.m.edges && !Forgets(e, step, k)
    ensures ShownBy(e, step, k)
  {
    if step.IsTick() && e.config.doscan {
      TickShows(e, step, k);
    } else {
      hide Inv, Scanned, Transition, PairState;
      if step.Restart? {
        RestartShows(e.m, step.config.tuning.window, k);
        ReplayOne(e.m.edges[k], Restarted(e.m.modelTime));
      }
    }
  }

  // Over every run that keeps a pair's edge, through ticks, dropped ticks, reloads and
  // restarts, the edge is the replay of what it was shown, each sighting at the decay configured
  // then, with the periods in which both ends ran added to the simultaneous time.
  lemma {:induction false} RunReplaysEdge(e: Engine, steps: seq<Step>, k: EdgeKey)
    requires Inv(e.m) && LegalRun(e, steps) && k in e.m.edges && NeverForgets(e, steps, k)
    ensures k in Exec(e, steps).m.edges
    ensures var e' := Exec(e, steps).m.edges[k];
            && e' == Replay(e.m.edges[k], AllShown(e, steps, k)).(both := e'.both)
            && e'.both == e.m.edges[k].both + Overlap(e, steps, k)
    decreases |steps|
  {
    hide Inv, Legal, After, Forgets, Shown, Charge, IsRunning, Experience;
    if steps != [] {
      var next := After(e, steps[0]);
      StepShows(e, steps[0], k);
      StepKeepsInv(e, steps[0]);
      RunReplaysEdge(next, steps[1..], k);
      var shown, rest := Shown(e, steps[0], k), AllShown(next, steps[1..], k);
      ReplayJoin(e.m.edges[k], shown, rest);
      ReplayIgnoresBoth(Replay(e.m.edges[k], shown), next.m.edges[k].both, rest);
    }
  }

  // So what is known of edge histories holds on runs: a row lacks what it lacked at the start
  // times the weights of all departures since, and the mean dwell time of a state stays between
  // zero and the longest stay in it.
  lemma RunEdgeLearns(e: Engine, steps: seq<Step>, k: EdgeKey, s: MarkovState, bound: real)
    requires Inv(e.m) && LegalRun(e, steps) && k in e.m.edges && NeverForgets(e, steps, k)
    requires e.m.edges[k].ttl[s.Index()] <= bound && LongestDwell(e.m.edges[k], AllShown(e, steps, k), s) as real <= bound
    ensures k in Exec(e, steps).m.edges
    ensures var was, e' := e.m.edges[k], Exec(e, steps).m.edges[k];
            && Lacking(e'.tp[s.Index()]) == Retained(Lacking(was.tp[s.Index()]), was, AllShown(e, steps, k), s)
            && 0.0 <= e'.ttl[s.Index()] <= bound
  {
    RunReplaysEdge(e, steps, k);
    assert EdgeOk(e.m.edges[k], k, e.m.exes, e.m.modelTime);
    hide Inv, GoodStats, Lacking, Exec, AllShown, NeverForgets, LegalRun;
    UnlearnedMass(e.m.edges[k], AllShown(e, steps, k), s);
    MeanDwellBounded(e.m.edges[k], AllShown(e, steps, k), s, bound);
  }
}
