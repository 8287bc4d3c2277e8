/**
 One edge of the Markov graph as a value, and what a transition does to its
 statistics.  Half- and single-precision floats are modelled as exact reals.
 */
module MarkovEdge {
  import opened Domain
  import opened Reals
  import FastExp
  import Products

  const ZERO_ROW: seq<real> := [0.0, 0.0, 0.0, 0.0]

  type Stamps = s: seq<U64> | |s| == 4 witness [0, 0, 0, 0]
  type Row = s: seq<real> | |s| == 4 witness [0.0, 0.0, 0.0, 0.0]
  type Matrix = s: seq<Row> | |s| == 4 witness [ZERO_ROW, ZERO_ROW, ZERO_ROW, ZERO_ROW]

  datatype Edge = Edge(
    state: MarkovState,
    lastChange: U64,
    lastLeft: Stamps,
    ttl: Row,
    tp: Matrix,
    both: U64)

  function Fresh(state: MarkovState, now: U64): Edge {
    Edge(state, now, [now, now, now, now], ZERO_ROW, [ZERO_ROW, ZERO_ROW, ZERO_ROW, ZERO_ROW], 0)
  }

  // The exponent of the decay after `elapsed` seconds.
  function Exponent(decay: real, elapsed: U64): (x: real)
    requires 0.0 <= decay
    ensures x <= 0.0
    ensures elapsed == 0 ==> x == 0.0
  {
    MulNonNeg(decay, elapsed as real);
    -(decay * elapsed as real)
  }

  // Weight kept by an old statistic after `elapsed` seconds.
  function Weight(decay: real, elapsed: U64): (r: real)
    requires 0.0 <= decay
    ensures 0.0 <= r <= 1.0
    ensures elapsed == 0 ==> r == 1.0
  {
    FastExp.FastExpNeg(Exponent(decay, elapsed))
  }

  function Blend(weight: real, prev: real, sample: real): real {
    weight * prev + (1.0 - weight) * sample
  }

  function BlendEntry(weight: real, prev: real, hit: bool): real {
    weight * prev + (if hit then 1.0 - weight else 0.0)
  }

  function BlendRow(row: Row, target: nat, weight: real): Row {
    [BlendEntry(weight, row[0], target == 0), BlendEntry(weight, row[1], target == 1),
     BlendEntry(weight, row[2], target == 2), BlendEntry(weight, row[3], target == 3)]
  }

  // Leaving the current state for `next`: only the statistics of the state being left change.
  function Depart(e: Edge, next: MarkovState, now: U64, wTtl: real, wTp: real): Edge {
    var left := e.state.Index();
    Edge(next, now, e.lastLeft[left := now],
         e.ttl[left := Blend(wTtl, e.ttl[left], SatSub(now, e.lastChange) as real)],
         e.tp[left := BlendRow(e.tp[left], next.Index(), wTp)],
         e.both)
  }

  function TtlWeight(e: Edge, now: U64, decay: real): (r: real)
    requires 0.0 <= decay
    ensures 0.0 <= r <= 1.0
  {
    Weight(decay, SatSub(now, e.lastLeft[e.state.Index()]))
  }

  function TpWeight(e: Edge, now: U64, decay: real): (r: real)
    requires 0.0 <= decay
    ensures 0.0 <= r <= 1.0
  {
    Weight(decay, SatSub(now, e.lastChange))
  }

  function Transition(e: Edge, next: MarkovState, now: U64, decay: real): Edge
    requires 0.0 <= decay
  {
    if next == e.state then e
    else Depart(e, next, now, TtlWeight(e, now, decay), TpWeight(e, now, decay))
  }

  function RowSum(row: Row): real {
    row[0] + row[1] + row[2] + row[3]
  }

  // The probability mass a row has not assigned to any successor.
  function Lacking(row: Row): real {
    1.0 - RowSum(row)
  }

  // A sub-probability row that never points back at its own state.
  ghost predicate GoodRow(row: Row, self: nat)
    requires self < 4
  {
    && (forall j :: 0 <= j < 4 ==> row[j] >= 0.0)
    && RowSum(row) <= 1.0
    && row[self] == 0.0
  }

  ghost predicate GoodStats(e: Edge) {
    && (forall i :: 0 <= i < 4 ==> GoodRow(e.tp[i], i))
    && (forall i :: 0 <= i < 4 ==> e.ttl[i] >= 0.0)
  }

  lemma BlendSum(w: real, a: real, b: real, c: real, d: real, lacking: real)
    requires lacking == 1.0 - (a + b + c + d)
    ensures 1.0 - (w * a + w * b + w * c + w * d + (1.0 - w)) == w * lacking
  {
  }

  lemma BlendRowSum(row: Row, target: nat, weight: real)
    requires target < 4
    ensures Lacking(BlendRow(row, target, weight)) == weight * Lacking(row)
  {
    BlendSum(weight, row[0], row[1], row[2], row[3], 1.0 - RowSum(row));
  }

  lemma BlendEntryNonNeg(weight: real, prev: real, hit: bool)
    requires 0.0 <= weight <= 1.0 && 0.0 <= prev
    ensures 0.0 <= BlendEntry(weight, prev, hit)
    ensures prev == 0.0 && !hit ==> BlendEntry(weight, prev, hit) == 0.0
  {
    MulNonNeg(weight, prev);
  }

  lemma BlendRowGood(row: Row, target: nat, self: nat, weight: real)
    requires self < 4 && target < 4 && target != self
    requires GoodRow(row, self) && 0.0 <= weight <= 1.0
    ensures GoodRow(BlendRow(row, target, weight), self)
    ensures Lacking(BlendRow(row, target, weight)) == weight * Lacking(row)
  {
    hide RowSum, BlendEntry;
    BlendRowSum(row, target, weight);
    MulNonNeg(weight, Lacking(row));
    forall j | 0 <= j < 4
      ensures BlendRow(row, target, weight)[j] >= 0.0
    {
      BlendEntryNonNeg(weight, row[j], j == target);
    }
    BlendEntryNonNeg(weight, row[self], false);
  }

  lemma BlendNonNeg(weight: real, prev: real, sample: real)
    requires 0.0 <= weight <= 1.0 && 0.0 <= prev && 0.0 <= sample
    ensures 0.0 <= Blend(weight, prev, sample)
  {
    MulNonNeg(weight, prev);
    MulNonNeg(1.0 - weight, sample);
  }

  lemma DepartKeepsStatsGood(e: Edge, next: MarkovState, now: U64, wTtl: real, wTp: real)
    requires 0.0 <= wTtl <= 1.0 && 0.0 <= wTp <= 1.0 && GoodStats(e) && next != e.state
    ensures GoodStats(Depart(e, next, now, wTtl, wTp))
    ensures Lacking(Depart(e, next, now, wTtl, wTp).tp[e.state.Index()])
            == wTp * Lacking(e.tp[e.state.Index()])
    ensures forall s: MarkovState :: s != e.state ==>
              && Depart(e, next, now, wTtl, wTp).tp[s.Index()] == e.tp[s.Index()]
              && Depart(e, next, now, wTtl, wTp).ttl[s.Index()] == e.ttl[s.Index()]
  {
    hide Lacking, RowSum, Blend;
    var left := e.state.Index();
    BlendRowGood(e.tp[left], next.Index(), left, wTp);
    BlendNonNeg(wTtl, e.ttl[left], SatSub(now, e.lastChange) as real);
  }

  lemma TransitionKeepsStatsGood(e: Edge, next: MarkovState, now: U64, decay: real)
    requires 0.0 <= decay && GoodStats(e)
    ensures GoodStats(Transition(e, next, now, decay))
    ensures next != e.state ==>
              Lacking(Transition(e, next, now, decay).tp[e.state.Index()])
              == TpWeight(e, now, decay) * Lacking(e.tp[e.state.Index()])
    ensures forall s: MarkovState :: s != e.state || next == e.state ==>
              && Transition(e, next, now, decay).tp[s.Index()] == e.tp[s.Index()]
              && Transition(e, next, now, decay).ttl[s.Index()] == e.ttl[s.Index()]
  {
    hide Lacking, Depart, TtlWeight, TpWeight;
    if next != e.state {
      DepartKeepsStatsGood(e, next, now, TtlWeight(e, now, decay), TpWeight(e, now, decay));
    }
  }

  // A transition reaches its target, never touches the simultaneous running time, and
  // leaves no time stamp in the future.
  lemma TransitionFacts(e: Edge, next: MarkovState, now: U64, decay: real)
    requires 0.0 <= decay && GoodStats(e)
    ensures var r := Transition(e, next, now, decay);
            && r.state == next && r.both == e.both && GoodStats(r)
            && (e.lastChange <= now ==> r.lastChange <= now)
            && ((forall s :: 0 <= s < 4 ==> e.lastLeft[s] <= now) ==> forall s :: 0 <= s < 4 ==> r.lastLeft[s] <= now)
  {
    TransitionKeepsStatsGood(e, next, now, decay);
    hide GoodStats, TtlWeight, TpWeight, Blend, BlendRow;
  }

  lemma BlendEntryMoves(weight: real, prev: real, hit: bool)
    requires 0.0 <= weight <= 1.0 && 0.0 <= prev <= 1.0
    ensures if hit then prev <= BlendEntry(weight, prev, hit) <= 1.0 else BlendEntry(weight, prev, hit) <= prev
  {
    hide BlendEntry;
    BlendEntryIs(weight, prev, hit);
    Products.TimesUnit(weight, prev);
    RestsNonNeg(weight, prev);
    hide Products.Times;
  }

  lemma BlendEntryIs(weight: real, prev: real, hit: bool)
    ensures BlendEntry(weight, prev, hit) == Products.Times(weight, prev) + if hit then 1.0 - weight else 0.0
  {
  }

  lemma RestsNonNeg(a: real, b: real)
    requires a <= 1.0 && b <= 1.0
    ensures 0.0 <= 1.0 - a - b + Products.Times(a, b)
  {
    MulNonNeg(1.0 - a, 1.0 - b);
    RestsExpanded(a, b);
  }

  lemma RestsExpanded(a: real, b: real)
    ensures (1.0 - a) * (1.0 - b) == 1.0 - a - b + Products.Times(a, b)
  {
  }

  lemma EntryInUnit(row: Row, self: nat, j: nat)
    requires self < 4 && j < 4 && GoodRow(row, self)
    ensures 0.0 <= row[j] <= 1.0
  {
    assert row[0] >= 0.0 && row[1] >= 0.0 && row[2] >= 0.0 && row[3] >= 0.0;
  }

  // Leaving a state for `next` makes `next` no less likely from there, and nothing else likelier.
  lemma TransitionFavoursTarget(e: Edge, next: MarkovState, now: U64, decay: real, j: nat)
    requires 0.0 <= decay && GoodStats(e) && next != e.state && j < 4
    ensures var left := e.state.Index();
            var before, after := e.tp[left][j], Transition(e, next, now, decay).tp[left][j];
            if j == next.Index() then before <= after else after <= before
  {
    hide BlendEntry, Blend, TpWeight, TtlWeight, RowSum;
    var left := e.state.Index();
    assert GoodRow(e.tp[left], left);
    hide GoodStats, GoodRow;
    EntryInUnit(e.tp[left], left, j);
    BlendEntryMoves(TpWeight(e, now, decay), e.tp[left][j], j == next.Index());
  }

  // So much time has passed that the weight of the old statistic underflows.
  predicate LongAgo(decay: real, elapsed: U64) {
    decay * elapsed as real > 87.0
  }

  lemma WeightZero(decay: real, elapsed: U64)
    requires 0.0 <= decay && LongAgo(decay, elapsed)
    ensures Weight(decay, elapsed) == 0.0
  {
    assert Exponent(decay, elapsed) < -87.0;
    hide Exponent, LongAgo;
  }

  lemma BlendZero(prev: real, sample: real)
    ensures Blend(0.0, prev, sample) == sample
  {
  }

  lemma BlendRowZero(row: Row, target: nat, j: nat)
    requires j < 4
    ensures BlendRow(row, target, 0.0)[j] == if j == target then 1.0 else 0.0
  {
  }

  // The dwell time is weighed by the time since the state was last left, the row by the time
  // since the last change: after long enough only the new observation is left.
  lemma OldStatisticsForgotten(e: Edge, next: MarkovState, now: U64, decay: real, j: nat)
    requires 0.0 <= decay && next != e.state && j < 4
    ensures var left := e.state.Index();
            var r := Transition(e, next, now, decay);
            && (LongAgo(decay, SatSub(now, e.lastLeft[left])) ==> r.ttl[left] == SatSub(now, e.lastChange) as real)
            && (LongAgo(decay, SatSub(now, e.lastChange)) ==> r.tp[left][j] == if j == next.Index() then 1.0 else 0.0)
            && r.lastLeft[left] == now && r.lastChange == now
  {
    var left := e.state.Index();
    hide Weight, LongAgo, Blend, BlendRow;
    if LongAgo(decay, SatSub(now, e.lastLeft[left])) {
      WeightZero(decay, SatSub(now, e.lastLeft[left]));
      BlendZero(e.ttl[left], SatSub(now, e.lastChange) as real);
    }
    if LongAgo(decay, SatSub(now, e.lastChange)) {
      WeightZero(decay, SatSub(now, e.lastChange));
      BlendRowZero(e.tp[left], next.Index(), j);
    }
  }

  lemma BlendNothing(sample: real, target: nat)
    ensures Blend(1.0, 0.0, sample) == 0.0 && BlendRow(ZERO_ROW, target, 1.0) == ZERO_ROW
  {
  }

  // A transition in the very second of the previous change repairs the state and
  // leaves every statistic of the edge as it was.
  lemma ImmediateTransitionOnlyMovesState(state: MarkovState, next: MarkovState, now: U64, both: U64, decay: real)
    requires 0.0 <= decay
    ensures Transition(Fresh(state, now).(both := both), next, now, decay) == Fresh(next, now).(both := both)
  {
    var e := Fresh(state, now).(both := both);
    if next != state {
      var left := state.Index();
      hide Weight, Blend, BlendRow;
      BlendNothing(0.0, next.Index());
      assert Transition(e, next, now, decay) == Depart(e, next, now, 1.0, 1.0);
      assert e.ttl[left := 0.0] == e.ttl;
      assert e.tp[left := ZERO_ROW] == e.tp;
      assert e.lastLeft[left := now] == e.lastLeft;
    }
  }

  /* ---------- what one transition learns ---------- */

  // Of the gap between a statistic and a new sample the share `weight` is left.
  predicate Nears(prev: real, next: real, sample: real, weight: real) {
    next - sample == weight * (prev - sample)
  }

  // What a transition into `s` says of the successor numbered `j`.
  function Hit(j: nat, s: MarkovState): real {
    if j == s.Index() then 1.0 else 0.0
  }

  lemma BlendNears(weight: real, prev: real, sample: real)
    ensures Nears(prev, Blend(weight, prev, sample), sample, weight)
  {
  }

  lemma BlendRowNears(row: Row, target: MarkovState, weight: real, j: nat)
    requires j < 4
    ensures Nears(row[j], BlendRow(row, target.Index(), weight)[j], Hit(j, target), weight)
  {
  }

  // Leaving a state at `now` teaches how long it lasted and what came next: of the gap between
  // the old statistic and the new observation the weight remains.  The dwell time is weighed
  // by the time since the state was last left, the row by the time since the last change.
  ghost predicate Learns(e: Edge, e': Edge, now: U64, decay: real)
    requires 0.0 <= decay
  {
    var left := e.state.Index();
    && Nears(e.ttl[left], e'.ttl[left], SatSub(now, e.lastChange) as real, Weight(decay, SatSub(now, e.lastLeft[left])))
    && (forall j :: 0 <= j < 4 ==>
          Nears(e.tp[left][j], e'.tp[left][j], Hit(j, e'.state), Weight(decay, SatSub(now, e.lastChange))))
    && e'.lastChange == now && e'.lastLeft == e.lastLeft[left := now]
    && (forall i :: 0 <= i < 4 && i != left ==> e'.tp[i] == e.tp[i] && e'.ttl[i] == e.ttl[i])
  }

  lemma TransitionLearns(e: Edge, next: MarkovState, now: U64, decay: real)
    requires 0.0 <= decay
    ensures var e' := Transition(e, next, now, decay);
            e'.state == next && e'.both == e.both && if next == e.state then e' == e else Learns(e, e', now, decay)
  {
    hide Weight, Blend, BlendRow, Nears;
    if next != e.state {
      var left := e.state.Index();
      BlendNears(TtlWeight(e, now, decay), e.ttl[left], SatSub(now, e.lastChange) as real);
      forall j | 0 <= j < 4
        ensures Nears(e.tp[left][j], Transition(e, next, now, decay).tp[left][j], Hit(j, next), Weight(decay, SatSub(now, e.lastChange)))
      {
        BlendRowNears(e.tp[left], next, TpWeight(e, now, decay), j);
      }
    }
  }

  // The simultaneous running time plays no part in a transition.
  lemma TransitionIgnoresBoth(e: Edge, both: U64, next: MarkovState, now: U64, decay: real)
    requires 0.0 <= decay
    ensures Transition(e.(both := both), next, now, decay) == Transition(e, next, now, decay).(both := both)
  {
    hide Weight, Blend, BlendRow;
  }

  /* ---------- whole histories of one edge ---------- */

  type Decay = x: real | 0.0 <= x

  // The states of the two ends as an update saw them, with the decay configured then; or a
  // save and a load, which keep the statistics and nothing else.
  datatype Sighting = Sighted(next: MarkovState, now: U64, decay: Decay) | Restarted(now: U64)

  function Experience(e: Edge, u: Sighting): Edge {
    match u
    case Sighted(next, now, decay) => Transition(e, next, now, decay)
    case Restarted(now) => Edge(Neither, now, [now, now, now, now], e.ttl, e.tp, e.both)
  }

  // The edge after a history.
  function Replay(e: Edge, us: seq<Sighting>): Edge
    decreases |us|
  {
    if us == [] then e else Replay(Experience(e, us[0]), us[1..])
  }

  predicate Departs(e: Edge, u: Sighting, s: MarkovState) {
    u.Sighted? && u.next != e.state && e.state == s
  }

  // `mass` times the weights of all departures from `s`.
  function Retained(mass: real, e: Edge, us: seq<Sighting>, s: MarkovState): real
    decreases |us|
  {
    if us == [] then mass
    else
      var kept := if Departs(e, us[0], s) then Products.Times(TpWeight(e, us[0].now, us[0].decay), mass) else mass;
      Retained(kept, Experience(e, us[0]), us[1..], s)
  }

  // The longest stay in `s` that some departure ended; zero if there was none.
  function LongestDwell(e: Edge, us: seq<Sighting>, s: MarkovState): nat
    decreases |us|
  {
    if us == [] then 0
    else
      var rest := LongestDwell(Experience(e, us[0]), us[1..], s);
      var dwell := SatSub(us[0].now, e.lastChange);
      if Departs(e, us[0], s) && dwell > rest then dwell else rest
  }

  lemma ExperienceFacts(e: Edge, u: Sighting, s: MarkovState)
    requires GoodStats(e)
    ensures var e' := Experience(e, u);
            && GoodStats(e')
            && Lacking(e'.tp[s.Index()])
               == if Departs(e, u, s) then Products.Times(TpWeight(e, u.now, u.decay), Lacking(e.tp[s.Index()])) else Lacking(e.tp[s.Index()])
  {
    hide Transition, TpWeight, Lacking;
    if u.Sighted? {
      TransitionKeepsStatsGood(e, u.next, u.now, u.decay);
    }
  }

  // Over any history rows stay sub-stochastic with a zero diagonal, and the probability
  // mass a row has not yet learned is the mass it started without (all of it, for a new
  // edge) times the weights of all departures from its state.
  lemma {:induction false} UnlearnedMass(e: Edge, us: seq<Sighting>, s: MarkovState)
    requires GoodStats(e)
    ensures GoodStats(Replay(e, us))
    ensures Lacking(Replay(e, us).tp[s.Index()]) == Retained(Lacking(e.tp[s.Index()]), e, us, s)
    decreases |us|
  {
    hide Experience, TpWeight, Lacking, GoodStats, Products.Times;
    if us != [] {
      ExperienceFacts(e, us[0], s);
      UnlearnedMass(Experience(e, us[0]), us[1..], s);
    }
  }

  lemma {:induction false} ReplayIgnoresBoth(e: Edge, both: U64, us: seq<Sighting>)
    ensures Replay(e.(both := both), us) == Replay(e, us).(both := both)
    decreases |us|
  {
    hide Transition;
    if us != [] {
      if us[0].Sighted? {
        TransitionIgnoresBoth(e, both, us[0].next, us[0].now, us[0].decay);
      }
      ReplayIgnoresBoth(Experience(e, us[0]), both, us[1..]);
    }
  }

  lemma BlendIs(weight: real, prev: real, sample: real)
    ensures Blend(weight, prev, sample) == Products.Times(weight, prev) + Products.Times(1.0 - weight, sample)
  {
  }

  lemma BlendBetween(weight: real, prev: real, sample: real, bound: real)
    requires 0.0 <= weight <= 1.0 && 0.0 <= prev <= bound && 0.0 <= sample <= bound
    ensures 0.0 <= Blend(weight, prev, sample) <= bound
  {
    hide Blend, Products.Times;
    BlendIs(weight, prev, sample);
    Products.TimesNonNeg(weight, prev);
    Products.TimesNonNeg(1.0 - weight, sample);
    Products.TimesMono(weight, prev, bound);
    Products.TimesMono(1.0 - weight, sample, bound);
    Products.TimesRests(weight, bound);
  }

  lemma DwellStaysBounded(e: Edge, u: Sighting, s: MarkovState, bound: real)
    requires 0.0 <= e.ttl[s.Index()] <= bound
    requires Departs(e, u, s) ==> SatSub(u.now, e.lastChange) as real <= bound
    ensures 0.0 <= Experience(e, u).ttl[s.Index()] <= bound
  {
    hide Weight, Blend, BlendRow;
    if Departs(e, u, s) {
      BlendBetween(TtlWeight(e, u.now, u.decay), e.ttl[s.Index()], SatSub(u.now, e.lastChange) as real, bound);
    }
  }

  // Over any history, the mean dwell time of a state never exceeds what it started
  // with and the longest stay ever observed in that state.
  lemma {:induction false} MeanDwellBounded(e: Edge, us: seq<Sighting>, s: MarkovState, bound: real)
    requires GoodStats(e)
    requires e.ttl[s.Index()] <= bound && LongestDwell(e, us, s) as real <= bound
    ensures 0.0 <= Replay(e, us).ttl[s.Index()] <= bound
    decreases |us|
  {
    assert 0.0 <= e.ttl[s.Index()];
    if us != [] {
      ExperienceFacts(e, us[0], s);
      hide Experience, GoodStats, TpWeight, Lacking;
      DwellStaysBounded(e, us[0], s, bound);
      MeanDwellBounded(Experience(e, us[0]), us[1..], s, bound);
    }
  }
}
