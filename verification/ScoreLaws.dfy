/**
 The scores told apart from the way they are computed: the chance of one edge in closed
 form, what a longer dwell time does to it, and how the scores of executables and maps grow by
 one edge and one executable at a time.
 */
module ScoreLaws {
  import opened Domain
  import opened Reals
  import opened Products
  import opened FastExp
  import opened FastExpOrder
  import opened MarkovEdge
  import opened Model
  import opened Runs
  import opened Correlation
  import opened Predictor

  /* ---------- one edge ---------- */

  // The chance of leaving a state within a cycle, when it lasts `ttl` on average.
  lemma LeaveChance(cycle: real, ttl: real)
    requires 0.0 <= cycle && 0.0 < ttl
    ensures cycle / ttl >= 0.0 && LeaveWeight(cycle, ttl) == FastExpNeg(-(cycle / ttl))
  {
    QuotientNonNeg(cycle, ttl);
    hide FastExpNeg;
  }

  // The probability of the two states in which the target runs.
  function Arrival(e: Edge, state: MarkovState, target: MarkovState): real {
    e.tp[state.Index()][target.Index()] + e.tp[state.Index()][3]
  }

  lemma UnclampedIs(e: Edge, state: MarkovState, target: MarkovState, cycle: real)
    requires 0.0 <= cycle && 0.0 < e.ttl[state.Index()]
    ensures Unclamped(e, state, target, cycle) == Times(1.0 - LeaveWeight(cycle, e.ttl[state.Index()]), Arrival(e, state, target))
  {
    hide LeaveWeight;
  }

  lemma WeighedIs(chance: real, strength: real)
    ensures Weighed(chance, strength) == Clamp(Times(chance, strength))
  {
    hide Clamp;
  }

  lemma ChanceClamped(e: Edge, state: MarkovState, target: MarkovState, cycle: real)
    requires 0.0 <= cycle && 0.0 < e.ttl[state.Index()]
    ensures PNeeded(e, state, target, cycle) == Clamp(Times(1.0 - LeaveWeight(cycle, e.ttl[state.Index()]), Arrival(e, state, target)))
  {
    UnclampedIs(e, state, target, cycle);
    hide LeaveWeight, Clamp, Unclamped, Times;
  }

  lemma ChanceByWeight(e: Edge, state: MarkovState, target: MarkovState, cycle: real)
    requires 0.0 <= cycle && 0.0 < e.ttl[state.Index()] && GoodStats(e) && target != Both
    ensures PNeeded(e, state, target, cycle) == Times(1.0 - LeaveWeight(cycle, e.ttl[state.Index()]), Arrival(e, state, target))
    ensures 0.0 <= Arrival(e, state, target) <= 1.0
  {
    TwoEntriesInUnit(e.tp[state.Index()], state.Index(), target.Index());
    ChanceClamped(e, state, target, cycle);
    hide LeaveWeight, PNeeded, GoodStats, GoodRow, Times;
    TimesUnit(1.0 - LeaveWeight(cycle, e.ttl[state.Index()]), Arrival(e, state, target));
  }

  // On sane statistics the chance is that of leaving the state within the cycle, times the
  // probability of the two states in which the target runs.
  lemma ChanceIs(e: Edge, state: MarkovState, target: MarkovState, cycle: real)
    requires 0.0 <= cycle && GoodStats(e) && target != Both
    ensures var i, ttl := state.Index(), e.ttl[state.Index()];
            if ttl > 0.0 then
              QuotientNonNeg(cycle, ttl);
              PNeeded(e, state, target, cycle) == Times(1.0 - FastExpNeg(-(cycle / ttl)), e.tp[i][target.Index()] + e.tp[i][3])
            else PNeeded(e, state, target, cycle) == 0.0
  {
    hide FastExpNeg, Times, GoodStats;
    if e.ttl[state.Index()] > 0.0 {
      ChanceByWeight(e, state, target, cycle);
      LeaveChance(cycle, e.ttl[state.Index()]);
      hide PNeeded, LeaveWeight;
    }
  }

  // Time has no unit: the chance depends on how much of the dwell time a cycle is, so scaling
  // both alike changes nothing.
  lemma SameRatioSameChance(e: Edge, e': Edge, state: MarkovState, target: MarkovState, cycle: real, cycle': real)
    requires 0.0 <= cycle && 0.0 <= cycle' && e'.tp == e.tp
    requires 0.0 < e.ttl[state.Index()] && 0.0 < e'.ttl[state.Index()]
    requires cycle' / e'.ttl[state.Index()] == cycle / e.ttl[state.Index()]
    ensures PNeeded(e', state, target, cycle') == PNeeded(e, state, target, cycle)
  {
    LeaveChance(cycle, e.ttl[state.Index()]);
    LeaveChance(cycle', e'.ttl[state.Index()]);
    hide FastExpNeg, LeaveWeight, PNeeded, Clamp, Times;
    ChanceClamped(e, state, target, cycle);
    ChanceClamped(e', state, target, cycle');
  }

  lemma QuotientScales(c: real, x: real, y: real)
    requires 0.0 < c && 0.0 < y
    ensures Times(c, y) > 0.0 && Times(c, x) / Times(c, y) == x / y
  {
    MulPos(c, y);
    var q := x / y;
    assert x == q * y;
    assert c * x == q * (c * y);
  }

  lemma ChanceScales(e: Edge, e': Edge, state: MarkovState, target: MarkovState, cycle: real, c: real)
    requires 0.0 <= cycle && 0.0 < c && e'.tp == e.tp
    requires 0.0 < e.ttl[state.Index()] && e'.ttl[state.Index()] == Times(c, e.ttl[state.Index()])
    ensures Times(c, cycle) >= 0.0 && PNeeded(e', state, target, Times(c, cycle)) == PNeeded(e, state, target, cycle)
  {
    hide Times, PNeeded;
    TimesNonNeg(c, cycle);
    QuotientScales(c, cycle, e.ttl[state.Index()]);
    SameRatioSameChance(e, e', state, target, cycle, Times(c, cycle));
  }

  lemma LongerWeighsMore(cycle: real, ttl: real, longer: real)
    requires 0.0 <= cycle && 0.0 < ttl && 0.0 < longer && cycle / longer + GAP <= cycle / ttl
    ensures LeaveWeight(cycle, ttl) <= LeaveWeight(cycle, longer)
  {
    LeaveChance(cycle, ttl);
    LeaveChance(cycle, longer);
    hide FastExpNeg, LeaveWeight;
    FarApartInOrder(-(cycle / ttl), -(cycle / longer));
  }

  lemma TimesFalls(a: real, b: real, arrive: real)
    requires a <= b && 0.0 <= arrive
    ensures Times(1.0 - b, arrive) <= Times(1.0 - a, arrive)
  {
    hide Times;
    TimesComm(arrive, 1.0 - a);
    TimesComm(arrive, 1.0 - b);
    TimesMono(arrive, 1.0 - b, 1.0 - a);
  }

  // A state that lasts longer is no likelier to be left within the cycle, provided that the
  // two exponents are far enough apart for the fast exponential to tell them in order.
  lemma LongerDwellStays(e: Edge, e': Edge, state: MarkovState, target: MarkovState, cycle: real)
    requires 0.0 <= cycle && GoodStats(e) && GoodStats(e') && target != Both && e'.tp == e.tp
    requires 0.0 < e.ttl[state.Index()] && 0.0 < e'.ttl[state.Index()]
    requires cycle / e'.ttl[state.Index()] + GAP <= cycle / e.ttl[state.Index()]
    ensures PNeeded(e', state, target, cycle) <= PNeeded(e, state, target, cycle)
  {
    LongerWeighsMore(cycle, e.ttl[state.Index()], e'.ttl[state.Index()]);
    hide LeaveWeight, GoodStats, PNeeded, Times;
    ChanceByWeight(e, state, target, cycle);
    ChanceByWeight(e', state, target, cycle);
    TimesFalls(LeaveWeight(cycle, e.ttl[state.Index()]), LeaveWeight(cycle, e'.ttl[state.Index()]), Arrival(e, state, target));
  }

  // How strongly a pair is correlated: the size of the coefficient, next to nothing when there
  // is none, and one when correlation is not asked for.
  lemma StrengthIs(m: State, k: EdgeKey, setup: Setup)
    requires k in m.edges
    ensures var c := Phi(m.modelTime, Total(m, k.a), Total(m, k.b), m.edges[k].both, setup.root(k));
            var strength := Correlated(m, k, setup);
            && strength >= 0.0
            && (!setup.useCorrelation ==> strength == 1.0)
            && (setup.useCorrelation && c.Some? ==> strength == c.value || strength == -c.value)
            && (setup.useCorrelation && c.None? ==> 0.0 < strength < 0.000000001)
  {
    hide Phi;
  }

  // The number of the state in which an end of the pair runs alone.
  function Alone(first: bool): nat {
    if first then 1 else 2
  }

  // The number of the state that the flags of the two ends make.
  function Present(exes: seq<Exe>, k: EdgeKey): (i: nat)
    ensures i < 4
  {
    (if IsRunning(exes, k.a) then 1 else 0) + (if IsRunning(exes, k.b) then 2 else 0)
  }

  lemma PresentIndex(exes: seq<Exe>, k: EdgeKey)
    ensures PairState(exes, k).Index() == Present(exes, k)
  {
    StateOfEnds(IsRunning(exes, k.a), IsRunning(exes, k.b));
  }

  // The chance of leaving the present state of a pair for one in which the given end runs.
  function Chance(e: Edge, i: nat, first: bool, cycle: real): real
    requires i < 4 && 0.0 <= cycle
  {
    if e.ttl[i] > 0.0 then
      QuotientNonNeg(cycle, e.ttl[i]);
      Times(1.0 - FastExpNeg(-(cycle / e.ttl[i])), e.tp[i][Alone(first)] + e.tp[i][3])
    else 0.0
  }

  // What an edge says of its first or second end is that chance, weighed by the strength of
  // the correlation.
  lemma EdgeNeedIs(m: State, k: EdgeKey, first: bool, setup: Setup)
    requires k in m.edges && GoodStats(m.edges[k]) && 0.0 <= setup.cycle
    ensures EdgeNeed(m, k, first, setup)
            == Clamp(Times(Chance(m.edges[k], Present(m.exes, k), first, setup.cycle), Correlated(m, k, setup)))
  {
    PresentIndex(m.exes, k);
    hide FastExpNeg, PNeeded, Correlated, GoodStats, PairState, Present, Clamp;
    ChanceIs(m.edges[k], PairState(m.exes, k), if first then AOnly else BOnly, setup.cycle);
    WeighedIs(PNeeded(m.edges[k], PairState(m.exes, k), if first then AOnly else BOnly, setup.cycle), Correlated(m, k, setup));
    hide Weighed, Times;
  }

  /* ---------- one executable ---------- */

  // The score without one of the edges.
  function WithoutEdge(m: State, k: EdgeKey): State {
    m.(edges := m.edges - {k})
  }

  // Without edges there is nothing to foretell an executable, and each edge multiplies the
  // chance that it is not needed by one minus its own.
  lemma MarkovScoreByEdges(m: State, id: ExeId, setup: Setup, k: EdgeKey)
    requires 0.0 <= setup.cycle
    ensures Incident(m, id) == {} ==> MarkovScore(m, id, setup) == 0.0
    ensures k in Incident(m, id) ==>
              1.0 - MarkovScore(m, id, setup)
              == Times(1.0 - EdgeNeed(m, k, k.a == id, setup), 1.0 - MarkovScore(WithoutEdge(m, k), id, setup))
  {
    hide EdgeNeed, Times;
    if k in Incident(m, id) {
      var rest := WithoutEdge(m, k);
      assert Incident(rest, id) == Incident(m, id) - {k};
      ProdRemove(Incident(m, id), Spared(m, id, setup), k);
      forall j | j in Incident(rest, id)
        ensures Spared(rest, id, setup)(j) == Spared(m, id, setup)(j)
      {
        EdgeNeedIsOwn(m, rest, j, j.a == id, setup);
      }
      ProdSame(Incident(rest, id), Spared(rest, id, setup), Spared(m, id, setup));
    }
  }

  lemma EdgeNeedIsOwn(m: State, m': State, k: EdgeKey, first: bool, setup: Setup)
    requires k in m.edges && k in m'.edges && m'.edges[k] == m.edges[k] && 0.0 <= setup.cycle
    requires m'.exes == m.exes && m'.modelTime == m.modelTime
    ensures EdgeNeed(m', k, first, setup) == EdgeNeed(m, k, first, setup)
  {
    hide PNeeded, Phi, Weighed;
  }

  // The score of an executable that is not running is the largest of what its edges foretell,
  // the share of the model's time it has run, and a floor.
  lemma ExeScoreIs(m: State, id: ExeId, setup: Setup)
    requires TotalsOk(m) && id < |m.exes| && !m.exes[id].running && m.modelTime > 0
    ensures var score, share := ExeScore(m, id, setup), m.exes[id].total as real / m.modelTime as real;
            && score >= MarkovScore(m, id, setup) && score >= share && score >= 0.000001
            && (score == MarkovScore(m, id, setup) || score == share || score == 0.000001)
  {
    hide MarkovScore;
    ShareInUnit(m.exes[id].total as real, m.modelTime as real);
  }

  lemma ShareInUnit(x: real, y: real)
    requires 0.0 <= x <= y && 0.0 < y
    ensures 0.0 <= x / y <= 1.0
  {
    QuotientNonNeg(x, y);
    var q := x / y;
    assert q * y == x;
    if q > 1.0 {
      MulPos(q - 1.0, y);
    }
  }

  /* ---------- one map ---------- */

  function WithoutLink(m: State, id: ExeId, key: MapKey): State {
    m.(links := m.links - {(id, key)})
  }

  // A map nobody is linked to scores nothing, and each linked executable multiplies the
  // chance that the map is not needed by one minus its own score.
  lemma MapScoreByLinks(m: State, key: MapKey, setup: Setup, id: ExeId)
    requires 0.0 <= setup.cycle && id < |m.exes|
    ensures LinkedExes(m, key) == {} ==> MapScore(m, key, setup) == 0.0
    ensures (id, key) in m.links ==>
              1.0 - MapScore(m, key, setup)
              == Times(1.0 - ExeScore(m, id, setup), 1.0 - MapScore(WithoutLink(m, id, key), key, setup))
  {
    hide ExeScore, Times;
    if (id, key) in m.links {
      var rest := WithoutLink(m, id, key);
      LinkRemoved(m, id, key);
      ProdRemove<ExeId>(LinkedExes(m, key), Unwanted(m, setup), id);
      forall j | j in LinkedExes(rest, key)
        ensures Unwanted(rest, setup)(j) == Unwanted(m, setup)(j)
      {
        if j < |m.exes| {
          ExeScoreIgnoresLinks(m, rest, j, setup);
        }
      }
      ProdSame<ExeId>(LinkedExes(rest, key), Unwanted(rest, setup), Unwanted(m, setup));
    }
  }

  lemma LinkRemoved(m: State, id: ExeId, key: MapKey)
    requires (id, key) in m.links
    ensures id in LinkedExes(m, key) && LinkedExes(WithoutLink(m, id, key), key) == LinkedExes(m, key) - {id}
  {
    assert (id, key).0 == id && (id, key).1 == key;
    forall j | j in LinkedExes(m, key) - {id}
      ensures j in LinkedExes(WithoutLink(m, id, key), key)
    {
      var l :| l in m.links && l.1 == key && l.0 == j;
      assert l in WithoutLink(m, id, key).links;
    }
  }

  lemma ExeScoreIgnoresLinks(m: State, m': State, id: ExeId, setup: Setup)
    requires m' == m.(links := m'.links) && id < |m.exes|
    ensures ExeScore(m', id, setup) == ExeScore(m, id, setup)
  {
    hide EdgeNeed;
    forall j | j in Incident(m, id)
      ensures Spared(m', id, setup)(j) == Spared(m, id, setup)(j)
    {
      if 0.0 <= setup.cycle {
        EdgeNeedIsOwn(m, m', j, j.a == id, setup);
      }
    }
    assert Incident(m', id) == Incident(m, id);
    ProdSame(Incident(m, id), Spared(m', id, setup), Spared(m, id, setup));
  }
}
