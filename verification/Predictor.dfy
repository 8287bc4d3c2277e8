/**
 Scores for the next cycle: a noisy-or over the edges of each executable, then a noisy-or
 over the executables of each map.  Scores are exact reals.
 */
module Predictor {
  import opened Domain
  import opened Reals
  import opened Products
  import opened FastExp
  import opened MarkovEdge
  import opened MarkovGraphStore
  import opened Model
  import opened Runs
  import opened Correlation
  import opened KeyStores
  import opened ExeMapIndexStore
  import opened StoresModule

  // The smallest positive normal single: 2^-126.
  const MIN_POSITIVE: real := 1.0 / 85070591730234615865843651857942052864.0
  const MIN_SCORE: real := 0.000001

  function Clamp(x: real): (r: real)
    ensures 0.0 <= r <= 1.0
    ensures 0.0 <= x <= 1.0 ==> r == x
  {
    if x < 0.0 then 0.0 else if x > 1.0 then 1.0 else x
  }

  function Abs(x: real): real {
    if x < 0.0 then -x else x
  }

  function Max(x: real, y: real): real {
    if x < y then y else x
  }

  // How the predictor is set up; `root` gives the square root of the radicand of each pair.
  datatype Setup = Setup(useCorrelation: bool, cycle: real, root: EdgeKey -> real)

  function Correlated(m: State, k: EdgeKey, setup: Setup): real
    requires k in m.edges
  {
    if setup.useCorrelation then
      match Phi(m.modelTime, Total(m, k.a), Total(m, k.b), m.edges[k].both, setup.root(k))
      case Some(c) => Abs(c)
      case None => MIN_POSITIVE
    else 1.0
  }

  // The chance of leaving the current state within a cycle, for one in which the target runs.
  function Unclamped(e: Edge, state: MarkovState, target: MarkovState, cycle: real): real
    requires 0.0 <= cycle && e.ttl[state.Index()] > 0.0
  {
    (1.0 - LeaveWeight(cycle, e.ttl[state.Index()])) * (e.tp[state.Index()][target.Index()] + e.tp[state.Index()][Both.Index()])
  }

  function LeaveWeight(cycle: real, ttl: real): (r: real)
    requires 0.0 <= cycle && 0.0 < ttl
    ensures 0.0 <= r <= 1.0
    ensures r == 1.0 <==> cycle == 0.0
  {
    QuotientNonNeg(cycle, ttl);
    FastExpNeg(-(cycle / ttl))
  }

  lemma QuotientNonNeg(x: real, y: real)
    requires 0.0 <= x && 0.0 < y
    ensures 0.0 <= x / y && (x / y == 0.0 <==> x == 0.0)
  {
    var q := x / y;
    assert q * y == x;
    if q < 0.0 {
      MulPos(-q, y);
    }
  }

  function PNeeded(e: Edge, state: MarkovState, target: MarkovState, cycle: real): (r: real)
    requires 0.0 <= cycle
    ensures 0.0 <= r <= 1.0
  {
    if e.ttl[state.Index()] <= 0.0 then 0.0 else Clamp(Unclamped(e, state, target, cycle))
  }

  lemma TwoEntriesInUnit(row: Row, self: nat, i: nat)
    requires self < 4 && i < 3 && GoodRow(row, self)
    ensures 0.0 <= row[i] + row[3] <= 1.0
  {
    assert row[0] >= 0.0 && row[1] >= 0.0 && row[2] >= 0.0 && row[3] >= 0.0;
  }

  // On a sub-stochastic row the clamp never acts.
  lemma PNeededNeedsNoClamp(e: Edge, state: MarkovState, target: MarkovState, cycle: real)
    requires 0.0 <= cycle && GoodStats(e) && target != Both && e.ttl[state.Index()] > 0.0
    ensures PNeeded(e, state, target, cycle) == Unclamped(e, state, target, cycle)
  {
    hide LeaveWeight, GoodRow;
    var row := e.tp[state.Index()];
    TwoEntriesInUnit(row, state.Index(), target.Index());
    var leave, arrive := 1.0 - LeaveWeight(cycle, e.ttl[state.Index()]), row[target.Index()] + row[Both.Index()];
    assert Unclamped(e, state, target, cycle) == leave * arrive;
    hide Unclamped;
    MulUnit(leave, arrive);
  }

  lemma ProductPositive(x: real, y: real)
    requires 0.0 <= x && 0.0 <= y
    ensures x * y > 0.0 <==> x > 0.0 && y > 0.0
  {
    if x > 0.0 && y > 0.0 {
      MulPos(x, y);
    }
  }

  // There is a chance exactly when the present state has been left before, and for a state
  // in which the target runs.
  lemma PNeededPositiveIff(e: Edge, state: MarkovState, target: MarkovState, cycle: real)
    requires 0.0 < cycle && GoodStats(e) && target != Both
    ensures PNeeded(e, state, target, cycle) > 0.0
            <==> e.ttl[state.Index()] > 0.0
                 && (e.tp[state.Index()][target.Index()] > 0.0 || e.tp[state.Index()][Both.Index()] > 0.0)
  {
    hide FastExpNeg, LeaveWeight;
    var row := e.tp[state.Index()];
    assert GoodRow(row, state.Index());
    assert row[target.Index()] >= 0.0 && row[Both.Index()] >= 0.0;
    if e.ttl[state.Index()] > 0.0 {
      hide GoodRow, PNeeded;
      PNeededNeedsNoClamp(e, state, target, cycle);
      hide GoodStats;
      var leave, arrive := 1.0 - LeaveWeight(cycle, e.ttl[state.Index()]), row[target.Index()] + row[Both.Index()];
      assert Unclamped(e, state, target, cycle) == leave * arrive;
      hide Unclamped;
      ProductPositive(leave, arrive);
      assert leave > 0.0;
    }
  }

  // A chance weighed by the strength of the correlation.
  function Weighed(chance: real, correlation: real): (r: real)
    ensures 0.0 <= r <= 1.0
  {
    Clamp(chance * correlation)
  }

  // The chance an edge gives that one of its ends is needed; `a` says which end.
  function EdgeNeed(m: State, k: EdgeKey, a: bool, setup: Setup): (r: real)
    requires k in m.edges && 0.0 <= setup.cycle
    ensures 0.0 <= r <= 1.0
  {
    Weighed(PNeeded(m.edges[k], PairState(m.exes, k), if a then AOnly else BOnly, setup.cycle), Correlated(m, k, setup))
  }

  // The edges a non-running executable is judged by.
  function Incident(m: State, id: ExeId): set<EdgeKey> {
    set k | k in m.edges && (k.a == id || k.b == id)
  }

  // The chance, by one incident edge, that the executable is not needed.
  ghost function Spared(m: State, id: ExeId, setup: Setup): EdgeKey -> real {
    (k: EdgeKey) => if k in m.edges && 0.0 <= setup.cycle then 1.0 - EdgeNeed(m, k, k.a == id, setup) else 1.0
  }

  // The noisy-or over all incident edges, in no order.
  ghost function MarkovScore(m: State, id: ExeId, setup: Setup): real {
    1.0 - ProdOver(Incident(m, id), Spared(m, id, setup))
  }

  // In `next` the first or the second end of the pair runs.
  predicate EndRuns(next: MarkovState, first: bool) {
    next == Both || next == if first then AOnly else BOnly
  }

  // The pair's present state has been left before, and for one in which this end runs.
  ghost predicate Foretells(m: State, k: EdgeKey, id: ExeId)
    requires k in m.edges
  {
    var e, s := m.edges[k], PairState(m.exes, k);
    e.ttl[s.Index()] > 0.0 && exists next :: EndRuns(next, k.a == id) && e.tp[s.Index()][next.Index()] > 0.0
  }

  lemma EdgeNeedPositiveIff(m: State, k: EdgeKey, id: ExeId, setup: Setup)
    requires k in m.edges && 0.0 < setup.cycle && GoodStats(m.edges[k])
    ensures EdgeNeed(m, k, k.a == id, setup) > 0.0 <==> Foretells(m, k, id) && Correlated(m, k, setup) > 0.0
  {
    var e, s := m.edges[k], PairState(m.exes, k);
    var target := if k.a == id then AOnly else BOnly;
    PNeededPositiveIff(e, s, target, setup.cycle);
    assert EndRuns(target, k.a == id) && EndRuns(Both, k.a == id);
    hide PNeeded, Phi, GoodStats;
    assert 0.0 <= Correlated(m, k, setup);
    ProductPositive(PNeeded(e, s, target, setup.cycle), Correlated(m, k, setup));
  }

  // The Markov score is positive exactly when some correlated partner's edge foretells that
  // the executable will run.
  lemma MarkovScorePositiveIff(m: State, id: ExeId, setup: Setup)
    requires EdgesOk(m) && 0.0 < setup.cycle
    ensures MarkovScore(m, id, setup) > 0.0
            <==> exists k :: k in Incident(m, id) && Foretells(m, k, id) && Correlated(m, k, setup) > 0.0
  {
    var f := Spared(m, id, setup);
    forall k | k in Incident(m, id)
      ensures 0.0 <= f(k) <= 1.0
      ensures f(k) == 1.0 <==> !(Foretells(m, k, id) && Correlated(m, k, setup) > 0.0)
    {
      assert EdgeOk(m.edges[k], k, m.exes, m.modelTime);
      hide EdgeNeed, Foretells, Correlated;
      EdgeNeedPositiveIff(m, k, id, setup);
    }
    hide Spared, Foretells, Correlated, EdgesOk;
    ProdInUnit(Incident(m, id), f);
    ProdIsOne(Incident(m, id), f);
  }

  // An executable has run for no longer than the model's time, so the clamp never acts.
  lemma UsageNeedsNoClamp(m: State, id: ExeId)
    requires TotalsOk(m) && id < |m.exes| && m.modelTime > 0
    ensures UsageScore(m, id) * m.modelTime as real == m.exes[id].total as real
  {
    var q := m.exes[id].total as real / m.modelTime as real;
    assert q * m.modelTime as real == m.exes[id].total as real;
    QuotientNonNeg(m.exes[id].total as real, m.modelTime as real);
    if q > 1.0 {
      MulPos(q - 1.0, m.modelTime as real);
    }
  }

  function UsageScore(m: State, id: ExeId): (r: real)
    requires id < |m.exes|
    ensures 0.0 <= r <= 1.0
  {
    if m.modelTime > 0 then Clamp(m.exes[id].total as real / m.modelTime as real) else 0.0
  }

  ghost function ExeScore(m: State, id: ExeId, setup: Setup): real
    requires id < |m.exes|
  {
    if m.exes[id].running then 0.0
    else Max(Max(MarkovScore(m, id, setup), UsageScore(m, id)), MIN_SCORE)
  }

  function LinkedExes(m: State, key: MapKey): set<ExeId> {
    set l | l in m.links && l.1 == key :: l.0
  }

  ghost function Unwanted(m: State, setup: Setup): ExeId -> real {
    (id: ExeId) => if id < |m.exes| then 1.0 - ExeScore(m, id, setup) else 1.0
  }

  ghost function MapScore(m: State, key: MapKey, setup: Setup): real {
    1.0 - ProdOver<ExeId>(LinkedExes(m, key), Unwanted(m, setup))
  }

  lemma MarkovScoreInUnit(m: State, id: ExeId, setup: Setup)
    ensures 0.0 <= MarkovScore(m, id, setup) <= 1.0
  {
    hide EdgeNeed;
    ProdInUnit(Incident(m, id), Spared(m, id, setup));
  }

  // An executable's score is zero exactly when it is running, and at most one.
  lemma ExeScoreZeroIffRunning(m: State, id: ExeId, setup: Setup)
    requires id < |m.exes|
    ensures 0.0 <= ExeScore(m, id, setup) <= 1.0
    ensures ExeScore(m, id, setup) == 0.0 <==> m.exes[id].running
  {
    hide MarkovScore, UsageScore;
    MarkovScoreInUnit(m, id, setup);
  }

  // A map's score is positive exactly when some executable linked to it is not running.
  lemma MapScorePositiveIffWanted(m: State, key: MapKey, setup: Setup)
    requires forall l :: l in m.links ==> l.0 < |m.exes|
    ensures 0.0 <= MapScore(m, key, setup) <= 1.0
    ensures MapScore(m, key, setup) > 0.0 <==> exists id :: (id, key) in m.links && !IsRunning(m.exes, id)
  {
    hide ExeScore;
    var exes := LinkedExes(m, key);
    forall id | id in exes
      ensures id < |m.exes| && 0.0 <= Unwanted(m, setup)(id) <= 1.0
      ensures Unwanted(m, setup)(id) == 1.0 <==> m.exes[id].running
      ensures (id, key) in m.links
    {
      ExeScoreZeroIffRunning(m, id, setup);
    }
    assert forall id :: (id, key) in m.links ==> id in exes by {
      forall id | (id, key) in m.links
        ensures id in exes
      {
        assert (id, key).1 == key && (id, key).0 == id;
      }
    }
    ProdInUnit<ExeId>(exes, Unwanted(m, setup));
    ProdIsOne<ExeId>(exes, Unwanted(m, setup));
  }

  /* ---------- the predictor as the daemon computes it ---------- */

  function NotNeededOf(notNeeded: map<ExeId, real>, id: ExeId): real {
    if id in notNeeded then notNeeded[id] else 1.0
  }

  function IncidentIn(done: set<EdgeKey>, id: ExeId): set<EdgeKey> {
    set k | k in done && (k.a == id || k.b == id)
  }

  // The table after the edges in `done`: for each executable that is not running, the
  // product over its edges met so far.
  ghost predicate Multiplied(m: State, setup: Setup, done: set<EdgeKey>, notNeeded: map<ExeId, real>) {
    && (forall id: ExeId :: !IsRunning(m.exes, id) ==>
          NotNeededOf(notNeeded, id) == ProdOver(IncidentIn(done, id), Spared(m, id, setup)))
  }

  // Multiplying the entry of one end of an edge, unless that end is running.
  function MultiplyEnd(notNeeded: map<ExeId, real>, id: ExeId, running: bool, p: real): map<ExeId, real> {
    if running then notNeeded else notNeeded[id := Times(NotNeededOf(notNeeded, id), 1.0 - p)]
  }

  lemma MultipliedStep(m: State, setup: Setup, done: set<EdgeKey>, notNeeded: map<ExeId, real>, k: EdgeKey)
    requires Multiplied(m, setup, done, notNeeded) && k in m.edges && k !in done && k.a != k.b && 0.0 <= setup.cycle
    ensures var first := MultiplyEnd(notNeeded, k.a, IsRunning(m.exes, k.a), EdgeNeed(m, k, true, setup));
            var both := MultiplyEnd(first, k.b, IsRunning(m.exes, k.b), EdgeNeed(m, k, false, setup));
            Multiplied(m, setup, done + {k}, both)
  {
    hide EdgeNeed, Times;
    var first := MultiplyEnd(notNeeded, k.a, IsRunning(m.exes, k.a), EdgeNeed(m, k, true, setup));
    var both := MultiplyEnd(first, k.b, IsRunning(m.exes, k.b), EdgeNeed(m, k, false, setup));
    forall id: ExeId | !IsRunning(m.exes, id)
      ensures NotNeededOf(both, id) == ProdOver(IncidentIn(done + {k}, id), Spared(m, id, setup))
    {
      if id == k.a || id == k.b {
        assert IncidentIn(done + {k}, id) == IncidentIn(done, id) + {k};
        ProdAdd(IncidentIn(done, id), Spared(m, id, setup), k);
        assert Spared(m, id, setup)(k) == 1.0 - EdgeNeed(m, k, k.a == id, setup);
      } else {
        assert IncidentIn(done + {k}, id) == IncidentIn(done, id);
      }
    }
  }

  lemma TimesAssoc(a: real, b: real, c: real)
    ensures Times(a, Times(b, c)) == Times(Times(a, b), c)
  {
  }

  lemma TimesAcross(a: real, x: real, b: real)
    ensures Times(Times(a, x), b) == Times(Times(a, b), x)
  {
  }

  // Four running products whose own product is what counts.
  function Lanes(acc: seq<real>): real
    requires |acc| == 4
  {
    Times(Times(Times(acc[0], acc[1]), acc[2]), acc[3])
  }

  lemma LaneStep(acc: seq<real>, lane: nat, x: real)
    requires |acc| == 4 && lane < 4
    ensures Lanes(acc[lane := Times(acc[lane], x)]) == Times(Lanes(acc), x)
  {
    hide Times;
    var a, b, c, d := acc[0], acc[1], acc[2], acc[3];
    if lane == 0 {
      TimesAcross(a, x, b);
      TimesAcross(Times(a, b), x, c);
      TimesAcross(Times(Times(a, b), c), x, d);
    } else if lane == 1 {
      TimesAssoc(a, b, x);
      TimesAcross(Times(a, b), x, c);
      TimesAcross(Times(Times(a, b), c), x, d);
    } else if lane == 2 {
      TimesAssoc(Times(a, b), c, x);
      TimesAcross(Times(Times(a, b), c), x, d);
    } else {
      TimesAssoc(Times(Times(a, b), c), d, x);
    }
  }

  class MarkovPredictor {
    const setup: Setup

    ghost predicate Valid() {
      0.0 <= setup.cycle
    }

    constructor (setup: Setup)
      requires 0.0 <= setup.cycle
      ensures Valid() && this.setup == setup
    {
      this.setup := setup;
    }

    // What one edge contributes for each of its ends.
    method EdgeNeeds(e: Edge, key: EdgeKey, exes: seq<Exe>, modelTime: U64, ghost m: State) returns (needA: real, needB: real)
      requires Valid() && key in m.edges && e == m.edges[key] && exes == m.exes && modelTime == m.modelTime
      ensures needA == EdgeNeed(m, key, true, setup) && needB == EdgeNeed(m, key, false, setup)
    {
      hide PNeeded, Phi, Weighed;
      var state := FromRunning(IsRunning(exes, key.a), IsRunning(exes, key.b));
      var corr := 1.0;
      if setup.useCorrelation {
        var aTime := if key.a < |exes| then exes[key.a].total else 0;
        var bTime := if key.b < |exes| then exes[key.b].total else 0;
        var c := Phi(modelTime, aTime, bTime, e.both, setup.root(key));
        corr := if c.Some? then Abs(c.value) else MIN_POSITIVE;
      }
      needA := Weighed(PNeeded(e, state, AOnly, setup.cycle), corr);
      needB := Weighed(PNeeded(e, state, BOnly, setup.cycle), corr);
    }

    // The product table, over the edges in the order the vectors hold them.
    method MultiplyEdges(markov: MarkovGraph, exes: seq<Exe>, modelTime: U64, ghost m: State) returns (notNeeded: map<ExeId, real>)
      requires Valid() && markov.Valid() && m.edges == markov.View() && m.exes == exes && m.modelTime == modelTime
      requires forall k :: k in m.edges ==> k.a != k.b
      ensures Multiplied(m, setup, m.edges.Keys, notNeeded)
    {
      ghost var done: set<EdgeKey> := {};
      notNeeded := map[];
      NothingMultiplied(m, setup);
      KeysListed(markov);
      hide Multiplied, EdgeNeed, MarkovGraph.Valid, MarkovGraph.View, Times;
      for i := 0 to |markov.keys|
        invariant forall k :: k in done <==> exists j :: 0 <= j < i && markov.keys[j] == k
        invariant Multiplied(m, setup, done, notNeeded)
      {
        var key, e := markov.GetAt(i);
        var needA, needB := EdgeNeeds(e, key, exes, modelTime, m);
        MultipliedStep(m, setup, done, notNeeded, key);
        notNeeded := MultiplyEnd(notNeeded, key.a, IsRunning(exes, key.a), needA);
        notNeeded := MultiplyEnd(notNeeded, key.b, IsRunning(exes, key.b), needB);
        done := done + {key};
      }
      assert done == m.edges.Keys;
    }

    method ScoreExes(exes: seq<Exe>, modelTime: U64, notNeeded: map<ExeId, real>, ghost m: State) returns (scores: map<ExeId, real>)
      requires exes == m.exes && modelTime == m.modelTime
      requires Multiplied(m, setup, m.edges.Keys, notNeeded)
      ensures forall id: ExeId :: id in scores <==> id < |exes|
      ensures forall id: ExeId :: id < |exes| ==> scores[id] == ExeScore(m, id, setup)
    {
      scores := map[];
      for id := 0 to |exes|
        invariant forall j: ExeId :: j in scores <==> j < id
        invariant forall j: ExeId :: j < id ==> scores[j] == ExeScore(m, j, setup)
      {
        if exes[id].running {
          scores := scores[id := 0.0];
        } else {
          var markovNeeded := if id in notNeeded then Clamp(1.0 - notNeeded[id]) else 0.0;
          MarkovScoreInUnit(m, id, setup);
          assert IncidentIn(m.edges.Keys, id) == Incident(m, id);
          var base := if modelTime > 0 then Clamp(exes[id].total as real / modelTime as real) else 0.0;
          scores := scores[id := Max(Max(markovNeeded, base), MIN_SCORE)];
        }
      }
    }

    // One map: four rotating accumulators over its executables, in whatever order they come.
    method ScoreMap(linked: set<ExeId>, scores: map<ExeId, real>, ghost m: State) returns (score: real)
      requires forall id :: id in linked ==> id < |m.exes| && id in scores && scores[id] == ExeScore(m, id, setup)
      ensures score == Clamp(1.0 - ProdOver<ExeId>(linked, Unwanted(m, setup)))
    {
      hide ExeScore, Times;
      var acc := [1.0, 1.0, 1.0, 1.0];
      var lane: nat := 0;
      var todo := linked;
      ghost var done: set<ExeId> := {};
      TimesOne(1.0);
      while todo != {}
        invariant |acc| == 4 && lane < 4
        invariant done + todo == linked && done !! todo
        invariant Lanes(acc) == ProdOver<ExeId>(done, Unwanted(m, setup))
        decreases todo
      {
        var id :| id in todo;
        LaneStep(acc, lane, 1.0 - scores[id]);
        ProdAdd<ExeId>(done, Unwanted(m, setup), id);
        todo, done := todo - {id}, done + {id};
        acc := acc[lane := Times(acc[lane], 1.0 - scores[id])];
        lane := (lane + 1) % 4;
      }
      assert done == linked;
      score := Clamp(1.0 - Lanes(acc));
    }

    // The whole prediction equals the order-free scores.
    method Predict(stores: Stores) returns (exeScores: map<ExeId, real>, mapScores: map<MapId, real>)
      requires Valid() && stores.Valid()
      requires forall k :: k in stores.View().edges ==> k.a != k.b
      ensures forall id: ExeId :: id in exeScores <==> id < |stores.exes.exes|
      ensures forall id: ExeId :: id < |stores.exes.exes| ==> exeScores[id] == ExeScore(stores.View(), id, setup)
      ensures mapScores.Keys == stores.maps.maps.Keys
      ensures forall id :: id in mapScores ==> mapScores[id] == MapScore(stores.View(), stores.maps.maps[id].Key(), setup)
    {
      hide Multiplied, ExeScore, MapScore;
      ghost var m := stores.View();
      var notNeeded := MultiplyEdges(stores.markov, stores.exes.exes, stores.modelTime, m);
      exeScores := ScoreExes(stores.exes.exes, stores.modelTime, notNeeded, m);
      mapScores := ScoreMaps(stores, exeScores, m);
    }

    method ScoreMaps(stores: Stores, scores: map<ExeId, real>, ghost m: State) returns (mapScores: map<MapId, real>)
      requires stores.Valid() && m == stores.View()
      requires forall j: ExeId :: j in scores <==> j < |m.exes|
      requires forall j: ExeId :: j < |m.exes| ==> scores[j] == ExeScore(m, j, setup)
      ensures mapScores.Keys == stores.maps.maps.Keys
      ensures forall id :: id in mapScores ==> mapScores[id] == MapScore(m, stores.maps.maps[id].Key(), setup)
    {
      hide ExeScore, MapScore, Stores.Valid, Stores.View;
      mapScores := map[];
      var todo := stores.maps.maps.Keys;
      while todo != {}
        invariant todo <= stores.maps.maps.Keys && mapScores.Keys == stores.maps.maps.Keys - todo
        invariant forall id :: id in mapScores ==> mapScores[id] == MapScore(m, stores.maps.maps[id].Key(), setup)
        decreases todo
      {
        var id :| id in todo;
        var score := ScoreOneMap(stores, id, scores, m);
        mapScores := mapScores[id := score];
        todo := todo - {id};
      }
    }

    // The executables linked to a map, as the index has them.
    method LinkedTo(stores: Stores, id: MapId) returns (linked: set<ExeId>)
      requires stores.Valid() && id in stores.maps.maps
      ensures linked == LinkedExes(stores.View(), stores.maps.maps[id].Key())
      ensures forall l :: l in stores.View().links ==> l.0 < |stores.View().exes|
    {
      hide MarkovGraph.Valid, MarkovGraph.View, ExeStore.Valid, MapStore.View;
      linked := stores.exeMaps.ExesForMap(id);
      assert forall e: ExeId :: e in linked <==> Has(stores.exeMaps.exeToMaps, e, id) by {
        assert forall e: ExeId :: stores.exeMaps.Related(e, id) <==> Has(stores.exeMaps.exeToMaps, e, id);
      }
      LinksByMapId(stores.exeMaps.exeToMaps, stores.maps.maps, id, linked);
      LinksKnown(stores);
    }

    method ScoreOneMap(stores: Stores, id: MapId, scores: map<ExeId, real>, ghost m: State) returns (score: real)
      requires stores.Valid() && m == stores.View() && id in stores.maps.maps
      requires forall j: ExeId :: j in scores <==> j < |m.exes|
      requires forall j: ExeId :: j < |m.exes| ==> scores[j] == ExeScore(m, j, setup)
      ensures score == MapScore(m, stores.maps.maps[id].Key(), setup)
    {
      hide ExeScore, IsRunning, Stores.Valid, Stores.View;
      var linked := LinkedTo(stores, id);
      score := ScoreMap(linked, scores, m);
      MapScorePositiveIffWanted(m, stores.maps.maps[id].Key(), setup);
    }
  }

  lemma NothingMultiplied(m: State, setup: Setup)
    ensures Multiplied(m, setup, {}, map[])
  {
    forall id: ExeId
      ensures IncidentIn({}, id) == {}
    {
    }
  }
}
