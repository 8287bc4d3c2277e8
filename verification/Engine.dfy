/**
 The engine: scan, update, predict, plan and prefetch in a tick that may be dropped while
 prefetching; reloads, saves and restarts.  Its methods are proved to take the steps of Runs.
 */
module EngineModule {
  import opened Domain
  import opened Enumeration
  import opened Observation
  import opened Model
  import opened Snapshot
  import opened Runs
  import opened KeyStores
  import opened StoresModule
  import opened ModelUpdater
  import Fanotify = FanotifyWatcherModule
  import opened ProcfsScannerModule
  import opened Predictor
  import opened Planner
  import opened PlanContents
  import opened Persistence

  // What a reload replaces: the configuration and the services built from it.
  datatype Bundle = Bundle(config: Config, dopredict: bool, updater: DefaultModelUpdater, predictor: MarkovPredictor,
                           strategy: SortStrategy, memory: MemoryPolicy)
  {
    ghost predicate Valid() {
      updater.Valid() && updater.Tuned() == config.tuning && predictor.Valid()
    }
  }

  // The first memory reading among the events.
  function FirstMem(events: seq<Event>): (r: Option<MemStat>)
    ensures r.None? <==> forall i :: 0 <= i < |events| ==> !events[i].MemSeen?
    ensures r.Some? ==> exists i :: 0 <= i < |events| && events[i] == MemSeen(r.value)
                                    && forall j :: 0 <= j < i ==> !events[j].MemSeen?
  {
    if events == [] then None
    else if events[0].MemSeen? then Some(events[0].mem)
    else FirstMem(events[1..])
  }

  // The failed maps whose files are gone.
  function Missing(failures: seq<MapKey>, onDisk: set<Path>): set<MapKey> {
    set k | k in failures && k.path !in onDisk
  }

  function KeySet(keys: seq<MapKey>): set<MapKey> {
    set k | k in keys
  }

  lemma RemoveOneMore(m: State, keys: set<MapKey>, key: MapKey)
    ensures RemoveMap(RemoveMaps(m, keys), key) == RemoveMaps(m, keys + {key})
  {
  }

  lemma RemoveNone(m: State)
    ensures RemoveMaps(m, {}) == m
  {
  }

  lemma MissingStep(failures: seq<MapKey>, onDisk: set<Path>, i: nat)
    requires i < |failures|
    ensures Missing(failures[..i + 1], onDisk)
            == if failures[i].path in onDisk then Missing(failures[..i], onDisk) else Missing(failures[..i], onDisk) + {failures[i]}
  {
  }

  // Failure purge: of the maps whose prefetch failed, those without a file are removed.
  method PurgeMissing(stores: Stores, failures: seq<MapKey>, onDisk: set<Path>)
    requires stores.Valid()
    modifies stores.maps, stores.exeMaps
    ensures stores.Valid() && stores.View() == RemoveMaps(old(stores.View()), Missing(failures, onDisk))
  {
    hide Stores.Valid, Stores.View, RemoveMaps, RemoveMap;
    ghost var m := stores.View();
    RemoveNone(m);
    assert Missing(failures[..0], onDisk) == {};
    for i := 0 to |failures|
      invariant stores.Valid() && stores.View() == RemoveMaps(m, Missing(failures[..i], onDisk))
    {
      MissingStep(failures, onDisk, i);
      hide Missing;
      if failures[i].path !in onDisk {
        RemoveOneMore(m, Missing(failures[..i], onDisk), failures[i]);
        stores.RemoveMapByKey(failures[i]);
      }
    }
    assert failures[..|failures|] == failures;
  }

  // What the failure purge leaves: of the maps whose prefetch failed exactly those with a file,
  // of the others all, and the links to what is left.
  lemma PurgeKeepsFiles(m: State, failures: seq<MapKey>, onDisk: set<Path>)
    requires Linked(m)
    ensures var m' := RemoveMaps(m, Missing(failures, onDisk));
            && (forall k :: k in m'.maps <==> k in m.maps && (k !in failures || k.path in onDisk))
            && (forall l :: l in m'.links <==> l in m.links && (l.1 !in failures || l.1.path in onDisk))
            && m' == m.(maps := m'.maps, links := m'.links)
  {
  }

  method TurnClock(stores: Stores, cycle: U64)
    requires stores.Valid()
    modifies stores
    ensures stores.Valid() && stores.View() == AdvanceClock(old(stores.View()), cycle)
  {
    stores.modelTime := SatAdd(stores.modelTime, cycle);
    assert stores.Links() == old(stores.Links());
  }

  // Policy purge: after a load no denied map remains, and exactly the links to denied maps go.
  method PurgeDenied(stores: Stores, allowMap: Path -> bool)
    requires stores.Valid()
    modifies stores.maps, stores.exeMaps
    ensures stores.Valid() && stores.View() == RemoveMaps(old(stores.View()), Denied(old(stores.View()), allowMap))
  {
    ghost var m := stores.View();
    var denied := DeniedKeys(stores.maps, allowMap);
    assert KeySet(denied) == Denied(m, allowMap);
    hide Stores.Valid, Stores.View, RemoveMaps, RemoveMap, Denied;
    RemoveNone(m);
    assert KeySet(denied[..0]) == {};
    for i := 0 to |denied|
      invariant stores.Valid() && stores.View() == RemoveMaps(m, KeySet(denied[..i]))
    {
      assert KeySet(denied[..i + 1]) == KeySet(denied[..i]) + {denied[i]};
      hide KeySet;
      RemoveOneMore(m, KeySet(denied[..i]), denied[i]);
      stores.RemoveMapByKey(denied[i]);
    }
    assert denied[..|denied|] == denied;
  }

  method DeniedKeys(maps: MapStore, allowMap: Path -> bool) returns (denied: seq<MapKey>)
    requires maps.Valid()
    ensures forall k :: k in denied <==> k in maps.View() && !allowMap(maps.View()[k].path)
  {
    var order := Enumerate(maps.maps.Keys);
    denied := [];
    for i := 0 to |order|
      invariant forall k :: k in denied <==> exists j :: 0 <= j < i && order[j] in maps.maps
                                                         && maps.maps[order[j]].Key() == k && !allowMap(k.path)
    {
      assert order[i] in order;
      var s := maps.maps[order[i]];
      if !allowMap(s.path) {
        denied := denied + [s.Key()];
      }
    }
    forall k
      ensures k in denied <==> k in maps.View() && !allowMap(maps.View()[k].path)
    {
      if k in maps.View() {
        var id := maps.byKey[k];
        assert id in order;
        var j :| 0 <= j < |order| && order[j] == id;
        assert maps.maps[order[j]].Key() == k;
      }
    }
  }

  lemma PurgeLeavesNoDenied(m: State, allowMap: Path -> bool)
    requires Linked(m)
    ensures var m' := RemoveMaps(m, Denied(m, allowMap));
            && (forall k :: k in m'.maps <==> k in m.maps && allowMap(k.path))
            && (forall l :: l in m'.links <==> l in m.links && allowMap(l.1.path))
            && m' == m.(maps := m'.maps, links := m'.links)
  {
  }

  /* ---------- the engine ---------- */

  datatype TickReport = TickReport(scanId: U64, delta: ModelDelta, plan: Plan, mem: Option<MemStat>)

  // Every planned map is a known one that some executable not running is linked to.
  ghost predicate WantedPlan(plan: Plan, m: State, maps: map<MapId, MapSegment>) {
    forall id :: id in plan.maps ==>
      id in maps && exists exe :: (exe, maps[id].Key()) in m.links && !IsRunning(m.exes, exe)
  }

  lemma InvIsWellKeyed(m: State)
    requires Inv(m)
    ensures WellKeyed(m) && Keyed(m) && (forall k :: k in m.edges ==> k.a != k.b)
  {
  }

  // What the planner chose is wanted.
  lemma ChosenAreWanted(m: State, maps: map<MapId, MapSegment>, setup: Setup, scores: map<MapId, real>,
                        items: seq<Item>, picks: seq<bool>, plan: Plan)
    requires Ranking(items, scores) && scores.Keys == maps.Keys
    requires forall i :: i in maps ==> scores[i] == MapScore(m, maps[i].Key(), setup)
    requires forall l :: l in m.links ==> l.0 < |m.exes|
    requires Live(items, picks, maps) && Planned(plan.maps, items, picks, scores)
    ensures WantedPlan(plan, m, maps)
  {
    hide MapScore, Ranking, Descending;
    forall id | id in plan.maps
      ensures id in maps && exists exe :: (exe, maps[id].Key()) in m.links && !IsRunning(m.exes, exe)
    {
      var i :| 0 <= i < |picks| && picks[i] && items[i].id == id;
      CandidatesAreWanted(m, maps, setup, scores, items, id);
    }
  }

  // What a tick should plan, given the model, its maps by id and the memory reading: nothing
  // without prediction or without a reading, and otherwise what serves the scores of the maps.
  ghost predicate PlansFor(plan: Plan, m: State, maps: map<MapId, MapSegment>, services: Bundle, mem: Option<MemStat>,
                           less: (Path, Path) -> bool)
  {
    if !services.dopredict || mem.None? then plan == Plan([], 0, 0)
    else
      var budget := AvailableKb(services.memory, mem.value);
      && WantedPlan(plan, m, maps)
      && Serves(plan, maps, ScoresOf(m, maps, services.predictor.setup), budget, services.strategy, less)
      && NothingOverlooked(plan, m, maps, services.predictor.setup, budget)
  }

  // The score of every map, in no order.
  ghost function ScoresOf(m: State, maps: map<MapId, MapSegment>, setup: Setup): map<MapId, real> {
    map id | id in maps :: MapScore(m, maps[id].Key(), setup)
  }

  // Every map that an executable not running is linked to is planned, or does not fit beside
  // the planned maps that score no worse.
  ghost predicate NothingOverlooked(plan: Plan, m: State, maps: map<MapId, MapSegment>, setup: Setup, budget: nat) {
    forall id, exe :: id in maps && (exe, maps[id].Key()) in m.links && !IsRunning(m.exes, exe) && id !in plan.maps ==>
      Crowded(plan.maps, maps, ScoresOf(m, maps, setup), budget, id)
  }

  lemma ServedOverlooksNothing(plan: Plan, m: State, maps: map<MapId, MapSegment>, setup: Setup, budget: nat,
                               strategy: SortStrategy, less: (Path, Path) -> bool)
    requires Serves(plan, maps, ScoresOf(m, maps, setup), budget, strategy, less)
    requires forall l :: l in m.links ==> l.0 < |m.exes|
    ensures NothingOverlooked(plan, m, maps, setup, budget)
  {
    hide MapScore, WellOrdered, Crowded;
    forall id, exe | id in maps && (exe, maps[id].Key()) in m.links && !IsRunning(m.exes, exe) && id !in plan.maps
      ensures Crowded(plan.maps, maps, ScoresOf(m, maps, setup), budget, id)
    {
      MapScorePositiveIffWanted(m, maps[id].Key(), setup);
    }
  }

  // The maps of the model by id: every stored map under exactly one.
  ghost predicate Pictures(maps: map<MapId, MapSegment>, m: State) {
    && (forall id :: id in maps ==> maps[id].Key() in m.maps && m.maps[maps[id].Key()] == maps[id])
    && (forall key :: key in m.maps ==> exists id :: id in maps && maps[id].Key() == key)
    && (forall i, j :: i in maps && j in maps && maps[i].Key() == maps[j].Key() ==> i == j)
  }

  lemma StorePictures(stores: Stores)
    requires stores.Valid()
    ensures Pictures(stores.maps.maps, stores.View())
  {
    forall key | key in stores.View().maps
      ensures exists id :: id in stores.maps.maps && stores.maps.maps[id].Key() == key
    {
      assert stores.maps.byKey[key] in stores.maps.maps;
    }
  }

  ghost predicate NoReading(events: seq<Event>) {
    forall i :: 0 <= i < |events| ==> !events[i].MemSeen?
  }

  lemma NoReadingJoin(xs: seq<Event>, ys: seq<Event>)
    requires NoReading(xs) && NoReading(ys)
    ensures NoReading(xs + ys)
  {
  }

  lemma ScanHasNoReading(events: seq<Event>)
    requires forall e :: e in events ==> e.ExeSeen? || e.MapSeen?
    ensures NoReading(events)
  {
    assert forall i :: 0 <= i < |events| ==> events[i] in events;
  }

  // After events without a reading, the first reading is the one that follows.
  lemma ReadingIsFirst(before: seq<Event>, mem: Option<MemStat>, end: Event)
    requires NoReading(before) && !end.MemSeen?
    ensures FirstMem(before + (if mem.Some? then [MemSeen(mem.value)] else []) + [end]) == mem
  {
    var events := before + (if mem.Some? then [MemSeen(mem.value)] else []) + [end];
    assert forall i :: 0 <= i < |before| ==> events[i] == before[i];
    if mem.Some? {
      assert events[|before|] == MemSeen(mem.value);
    }
  }

  lemma NowIsModelTime(stores: Stores)
    requires stores.Valid()
    ensures stores.View().modelTime == stores.modelTime
  {
  }

  // What the scanner knows: its cache, how often it has scanned, and what the watcher has buffered.
  datatype Eyes = Eyes(cache: Cache, scanCount: nat, interval: nat, buffer: Option<Fanotify.Buffer>)

  // The scanner after one more scan.
  function Looked(x: Eyes, procs: seq<Process>): Eyes {
    Eyes(Found(x.cache, procs, x.scanCount + 1, x.interval), x.scanCount + 1, x.interval,
         if x.buffer.Some? then Some(Fanotify.EMPTY_BUFFER) else None)
  }

  // The events of one scan, given those of the buffered openings.
  function Whole(x: Eyes, procs: seq<Process>, mem: Option<MemStat>, now: U64, id: U64, opens: seq<Event>): seq<Event> {
    [ObsBegin(now, id)] + Events(x.cache, procs, x.scanCount + 1, x.interval, now) + opens
    + (if mem.Some? then [MemSeen(mem.value)] else []) + [ObsEnd(now, id)]
  }

  ghost predicate Delivered(buffer: Option<Fanotify.Buffer>, now: U64, opens: seq<Event>) {
    if buffer.Some? then Fanotify.Delivers(buffer.value, now, opens) else opens == []
  }

  // The observation of a tick: the scan of the processes with everything buffered, or the
  // markers alone when scanning is off.
  ghost predicate Observed(x: Eyes, x': Eyes, doscan: bool, procs: seq<Process>, mem: Option<MemStat>, now: U64, id: U64,
                           events: seq<Event>)
  {
    if doscan then
      x' == Looked(x, procs)
      && exists opens :: Delivered(x.buffer, now, opens) && events == Whole(x, procs, mem, now, id, opens)
    else x' == x && events == [ObsBegin(now, id), ObsEnd(now, id)]
  }

  lemma WholeMem(x: Eyes, procs: seq<Process>, mem: Option<MemStat>, now: U64, id: U64, opens: seq<Event>)
    requires Delivered(x.buffer, now, opens)
    ensures FirstMem(Whole(x, procs, mem, now, id, opens)) == mem
  {
    EventsAnnounced(x.cache, procs, x.scanCount + 1, x.interval, now);
    if x.buffer.Some? {
      DeliveredKinds(x.buffer.value, now, opens);
    }
    hide Events, Announced, Fanotify.Delivers, FirstMem, NoReading;
    var process := Events(x.cache, procs, x.scanCount + 1, x.interval, now);
    ScanHasNoReading(process);
    ScanHasNoReading(opens);
    assert NoReading([ObsBegin(now, id)]) by { NoReadingBegin(now, id); }
    NoReadingJoin([ObsBegin(now, id)], process);
    NoReadingJoin([ObsBegin(now, id)] + process, opens);
    ReadingIsFirst([ObsBegin(now, id)] + process + opens, mem, ObsEnd(now, id));
  }

  lemma NoReadingBegin(now: U64, id: U64)
    ensures NoReading([ObsBegin(now, id)])
  {
  }

  // The memory reading of an observation is the one the scan was given.
  lemma ObservedMem(x: Eyes, x': Eyes, doscan: bool, procs: seq<Process>, mem: Option<MemStat>, now: U64, id: U64, events: seq<Event>)
    requires Observed(x, x', doscan, procs, mem, now, id, events)
    ensures FirstMem(events) == if doscan then mem else None
  {
    if doscan {
      hide FirstMem, Whole, Delivered, Looked;
      var opens :| Delivered(x.buffer, now, opens) && events == Whole(x, procs, mem, now, id, opens);
      WholeMem(x, procs, mem, now, id, opens);
    }
  }

  // It holds a map event for every opening that was buffered.
  lemma ObservedOpenings(x: Eyes, x': Eyes, procs: seq<Process>, mem: Option<MemStat>, now: U64, id: U64, events: seq<Event>)
    requires Observed(x, x', true, procs, mem, now, id, events) && x.buffer.Some?
    ensures forall pair :: pair in x.buffer.value.maps ==> Fanotify.MapEvent(x.buffer.value, pair, now) in events
  {
    hide Fanotify.MapEvent, Fanotify.ExeEvent, Events;
    var opens :| Delivered(x.buffer, now, opens) && events == Whole(x, procs, mem, now, id, opens);
    assert forall e :: e in opens ==> e in events;
  }

  // What a tick reports of the update: everything that changed, or nothing if it did not scan.
  ghost predicate DeltaReported(e: Engine, events: seq<Event>, policy: Policy, order: seq<Path>, delta: ModelDelta)
    requires LegalScan(e, events, policy, order)
  {
    if e.config.doscan then
      Reported(e.m, Scanned(e, events, policy, order), Collect(e.m.modelTime, events, policy), policy, order, delta)
    else delta == NO_DELTA
  }

  class PreloadEngine {
    const stores: Stores
    const scanner: ProcfsScanner
    var services: Bundle
    var scanId: U64

    ghost predicate Valid()
      reads this, stores, stores.exes, stores.maps, stores.exeMaps, stores.markov, stores.active, scanner, scanner.fanotify
    {
      && stores.Valid() && Inv(stores.View())
      && scanner.Valid()
      && services.Valid() && services.config.tuning.Valid()
    }

    ghost function View(): Engine
      requires Valid()
      reads this, stores, stores.exes, stores.maps, stores.exeMaps, stores.markov, stores.active, scanner, scanner.fanotify
    {
      Engine(stores.View(), services.config, scanId)
    }

    ghost function Looks(): Eyes
      requires scanner.Valid()
      reads this, scanner, scanner.fanotify
    {
      Eyes(scanner.cache, scanner.scanCount, scanner.mapRescanInterval,
           if scanner.fanotify != null then Some(scanner.fanotify.View()) else None)
    }

    constructor (services: Bundle, scanner: ProcfsScanner)
      requires services.Valid() && services.config.tuning.Valid() && scanner.Valid()
      ensures Valid() && View() == Start(services.config) && fresh(stores) && this.services == services
    {
      stores := new Stores();
      this.scanner, this.services, scanId := scanner, services, 0;
      new;
      StartIsInv(services.config);
    }

    constructor FromStores(stores: Stores, services: Bundle, scanner: ProcfsScanner)
      ensures this.stores == stores && this.services == services && this.scanner == scanner && scanId == 0
    {
      this.stores, this.services, this.scanner, scanId := stores, services, scanner, 0;
    }

    method ScanOnce(procs: seq<Process>, mem: Option<MemStat>, now: U64) returns (events: seq<Event>)
      requires scanner.Valid()
      modifies scanner, scanner.fanotify
      ensures scanner.Valid() && TimedAt(events, now) && Announced(events)
      ensures Observed(old(Looks()), Looks(), true, procs, mem, now, scanId, events)
    {
      hide Announced, Fanotify.Delivers, Found, Events;
      ghost var x := Looks();
      ghost var opens;
      events, opens := scanner.Scan(procs, mem, now, scanId);
      assert Delivered(x.buffer, now, opens) && events == Whole(x, procs, mem, now, scanId, opens);
    }

    // Scan, and fold the observation into the stores.
    method ScanAndUpdate(procs: seq<Process>, mem: Option<MemStat>, policy: Policy, ghost e: Engine)
      returns (delta: ModelDelta, events: seq<Event>, ghost order: seq<Path>)
      requires stores.Valid() && scanner.Valid() && services.Valid() && e.config == services.config
      requires e.m == stores.View() && WellKeyed(e.m) && e.config.tuning.Valid()
      modifies stores, stores.exes, stores.maps, stores.exeMaps, stores.markov, stores.active, scanner, scanner.fanotify
      ensures stores.Valid() && scanner.Valid()
      ensures LegalScan(e, events, policy, order) && stores.View() == Scanned(e, events, policy, order)
      ensures Announced(events) && DeltaReported(e, events, policy, order, delta)
      ensures Observed(old(Looks()), Looks(), services.config.doscan, procs, mem, e.m.modelTime, scanId, events)
    {
      assert services.updater.Valid() && services.updater.Tuned() == services.config.tuning;
      hide Stores.Valid, Stores.View, ProcfsScanner.Valid, Bundle.Valid, Collect, Model.Update, WellKeyed, Reported, Looked, Whole,
           Announced;
      var now := stores.modelTime;
      assert now == e.m.modelTime by { NowIsModelTime(stores); }
      order := [];
      if services.config.doscan {
        ghost var batch;
        events := ScanOnce(procs, mem, now);
        delta, batch, order := services.updater.Apply(stores, events, policy);
      } else {
        events, delta := [ObsBegin(now, scanId), ObsEnd(now, scanId)], NO_DELTA;
      }
    }

    // A tick up to its only await.
    method Observe(procs: seq<Process>, mem: Option<MemStat>, policy: Policy)
      returns (delta: ModelDelta, events: seq<Event>, ghost order: seq<Path>)
      requires Valid()
      modifies this`scanId, stores, stores.exes, stores.maps, stores.exeMaps, stores.markov, stores.active, scanner, scanner.fanotify
      ensures Valid() && services == old(services)
      ensures Legal(old(View()), Step.Dropped(events, policy, order))
      ensures View() == After(old(View()), Step.Dropped(events, policy, order))
      ensures Announced(events) && DeltaReported(old(View()), events, policy, order, delta)
      ensures Observed(old(Looks()), Looks(), services.config.doscan, procs, mem, old(View()).m.modelTime, scanId, events)
    {
      hide Inv, Stores.Valid, Stores.View, ProcfsScanner.Valid, Bundle.Valid, LegalScan, Scanned, WellKeyed, Keyed, Announced, Observed, DeltaReported;
      ghost var e := View();
      InvIsWellKeyed(stores.View());
      scanId := SatAdd(scanId, 1);
      delta, events, order := ScanAndUpdate(procs, mem, policy, e);
      StepKeepsInv(e, Step.Dropped(events, policy, order));
    }

    // Predict and plan; nothing is planned without a memory reading.
    method PlanPrefetch(mem: Option<MemStat>, less: (Path, Path) -> bool) returns (plan: Plan)
      requires Valid() && StrictTotal(less)
      ensures PlansFor(plan, stores.View(), stores.maps.maps, services, mem, less)
    {
      ghost var m := stores.View();
      InvIsWellKeyed(m);
      LinksKnown(stores);
      assert m.links == stores.Links() && |m.exes| == |stores.exes.exes|;
      assert services.predictor.Valid();
      hide Inv, Stores.Valid, Stores.View, ProcfsScanner.Valid, MapScore, ExeScore, StrictTotal, Stores.Links, Serves, WantedPlan,
           NothingOverlooked, Ranking, Planned, Live, PlannedIds;
      plan := Plan([], 0, 0);
      if services.dopredict {
        var exeScores, mapScores := services.predictor.Predict(stores);
        assert mapScores == ScoresOf(m, stores.maps.maps, services.predictor.setup);
        if mem.Some? {
          plan := PlanFor(mapScores, mem.value, less, m);
        }
      }
    }

    method PlanFor(mapScores: map<MapId, real>, mem: MemStat, less: (Path, Path) -> bool, ghost m: State) returns (plan: Plan)
      requires StrictTotal(less) && mapScores == ScoresOf(m, stores.maps.maps, services.predictor.setup)
      requires forall l :: l in m.links ==> l.0 < |m.exes|
      ensures WantedPlan(plan, m, stores.maps.maps)
      ensures var budget := AvailableKb(services.memory, mem);
              && Serves(plan, stores.maps.maps, mapScores, budget, services.strategy, less)
              && NothingOverlooked(plan, m, stores.maps.maps, services.predictor.setup, budget)
    {
      hide MapScore, StrictTotal, Serves, WantedPlan, NothingOverlooked, Ranking, Planned, Live, AvailableKb, Chosen, Ordered, Greedy;
      ghost var items, picks;
      plan, items, picks := MakePlan(mapScores, stores.maps.maps, mem, services.memory, services.strategy, less);
      var budget := AvailableKb(services.memory, mem);
      PlanServes(plan, items, picks, stores.maps.maps, mapScores, budget, services.strategy, less);
      ChosenAreWanted(m, stores.maps.maps, services.predictor.setup, mapScores, items, picks, plan);
      ServedOverlooksNothing(plan, m, stores.maps.maps, services.predictor.setup, budget, services.strategy, less);
    }

    // What follows the await: purge the maps whose files are gone, then advance the clock.
    method Finish(failures: seq<MapKey>, onDisk: set<Path>)
      requires Valid()
      modifies stores, stores.maps, stores.exeMaps
      ensures Valid() && services == old(services) && scanId == old(scanId)
      ensures stores.View() == AdvanceClock(RemoveMaps(old(stores.View()), Missing(failures, onDisk)), services.config.cycle)
    {
      ghost var m := stores.View();
      RemoveMapsKeepsInv(m, Missing(failures, onDisk));
      AdvanceClockKeepsInv(RemoveMaps(m, Missing(failures, onDisk)), services.config.cycle);
      hide Inv, RemoveMaps, Missing, ProcfsScanner.Valid, Bundle.Valid;
      PurgeMissing(stores, failures, onDisk);
      TurnClock(stores, services.config.cycle);
    }

    // One tick.  If it is dropped, what precedes the await has happened and the rest has not.
    method Tick(procs: seq<Process>, mem: Option<MemStat>, policy: Policy, less: (Path, Path) -> bool,
                dropped: bool, failures: seq<MapKey>, onDisk: set<Path>)
      returns (report: Option<TickReport>, ghost step: Step, ghost live: map<MapId, MapSegment>)
      requires Valid() && StrictTotal(less)
      modifies this`scanId, stores, stores.exes, stores.maps, stores.exeMaps, stores.markov, stores.active, scanner, scanner.fanotify
      ensures Valid() && services == old(services)
      ensures step.IsTick() && (step.Dropped? <==> dropped) && (dropped <==> report.None?) && step.policy == policy
      ensures step.Completed? ==> step.missing == Missing(failures, onDisk)
      ensures Legal(old(View()), step) && View() == After(old(View()), step)
      ensures Announced(step.events) && Welcomes(old(View()), step)
      ensures Observed(old(Looks()), Looks(), services.config.doscan, procs, mem, old(View()).m.modelTime, scanId, step.events)
      ensures report.Some? ==>
                var m := Scanned(old(View()), step.events, policy, step.order);
                && report.value.scanId == scanId
                && DeltaReported(old(View()), step.events, policy, step.order, report.value.delta)
                && report.value.mem == (if services.config.doscan then mem else None)
                && Pictures(live, m) && PlansFor(report.value.plan, m, live, services, report.value.mem, less)
    {
      hide Inv, RemoveMaps, AdvanceClock, Missing, StrictTotal, Scanned, Stores.Valid, Stores.View, Announced, Observed, Welcomes,
           DeltaReported, Pictures, PlansFor, Looked;
      ghost var e, x, order := View(), Looks(), [];
      var delta, events;
      delta, events, order := Observe(procs, mem, policy);
      live := stores.maps.maps;
      StorePictures(stores);
      ObservedMem(x, Looks(), services.config.doscan, procs, mem, e.m.modelTime, scanId, events);
      var plan := PlanPrefetch(FirstMem(events), less);
      if dropped {
        step, report := Step.Dropped(events, policy, order), None;
        TickWelcomes(e, step);
        return;
      }
      Finish(failures, onDisk);
      step := Completed(events, policy, order, Missing(failures, onDisk));
      TickWelcomes(e, step);
      report := Some(TickReport(scanId, delta, plan, FirstMem(events)));
    }

    method ApplyReload(bundle: Bundle)
      requires Valid() && bundle.Valid() && bundle.config.tuning.Valid()
      modifies this`services
      ensures Valid() && services == bundle
      ensures View() == After(old(View()), Reload(bundle.config))
    {
      services := bundle;
    }

    method Save() returns (snapshot: Snap)
      requires Valid()
      ensures Keyed(stores.View()) && Lists(snapshot, stores.View())
    {
      InvIsKeyed(stores.View());
      hide Inv;
      snapshot := SnapshotFromStores(stores);
    }

    // The main loop: whatever branches it takes, and whatever the reader thread inserts in
    // between, it makes a legal run, in which every accepted candidate ends its tick active.
    // Every turn is the one its choice asks for, on the model and on what the scanner knows.
    method RunUntil(choices: seq<Choice>, less: (Path, Path) -> bool) returns (ghost steps: seq<Step>, ghost trace: seq<Moment>)
      requires Valid() && StrictTotal(less)
      requires forall c :: c in choices && c.Reloading? ==> c.bundle.Valid() && c.bundle.config.tuning.Valid()
      modifies this`scanId, this`services, stores, stores.exes, stores.maps, stores.exeMaps, stores.markov, stores.active,
               scanner, scanner.fanotify
      ensures Valid() && TakesAll(choices, steps)
      ensures LegalRun(old(View()), steps) && View() == Exec(old(View()), steps)
      ensures ScansAnnounce(steps) && AllWelcome(old(View()), steps)
      ensures Unfolds(choices, trace) && trace[0] == Moment(old(View()), old(Looks())) && trace[|choices|] == Moment(View(), Looks())
    {
      hide StrictTotal, View, Looks, Turn, Legal, After, LegalRun, Exec, Inv, ScansAnnounce, AllWelcome, TakesAll, Takes, Announced;
      ghost var e := View();
      assert Inv(e.m) by { ViewKeepsInv(); }
      hide Valid;
      steps, trace := [], [Moment(View(), Looks())];
      NoSteps(e);
      assert choices[..0] == [];
      for i := 0 to |choices|
        invariant Valid() && TakesAll(choices[..i], steps) && ScansAnnounce(steps)
        invariant LegalRun(e, steps) && View() == Exec(e, steps)
        invariant Unfolds(choices[..i], trace) && trace[0] == Moment(old(View()), old(Looks())) && trace[i] == Moment(View(), Looks())
      {
        ghost var before := trace;
        assert choices[i] in choices;
        assert choices[..i + 1] == choices[..i] + [choices[i]];
        TakesMore(choices[..i], steps, choices[i]);
        if choices[i].Opening? {
          ReceiveOpening(choices[i].o, choices[i].selfPid);
        } else {
          ghost var step := TakeOne(choices[i], less);
          ExecAppend(e, steps, step);
          AnnounceMore(steps, step);
          steps := steps + [step];
        }
        trace := trace + [Moment(View(), Looks())];
        UnfoldsMore(choices[..i], before, choices[i], Moment(View(), Looks()));
      }
      assert choices[..|choices|] == choices;
      RunWelcomes(e, steps);
    }

    lemma ViewKeepsInv()
      requires Valid()
      ensures Inv(View().m)
    {
    }

    // The reader thread records one opening; the model does not change.
    method ReceiveOpening(o: Fanotify.Opening, selfPid: int)
      requires Valid()
      modifies scanner.fanotify
      ensures Valid() && View() == old(View())
      ensures scanner.fanotify != null ==> scanner.fanotify.View() == Fanotify.Insert(old(scanner.fanotify.View()), o, selfPid)
      ensures Turn(Moment(old(View()), old(Looks())), Opening(o, selfPid), Moment(View(), Looks()))
    {
      hide Inv, Stores.Valid, Stores.View, Bundle.Valid, Fanotify.Insert;
      if scanner.fanotify != null {
        scanner.fanotify.Record(o, selfPid);
      }
    }

    method TakeOne(choice: Choice, less: (Path, Path) -> bool) returns (ghost step: Step)
      requires Valid() && StrictTotal(less) && !choice.Opening?
      requires choice.Reloading? ==> choice.bundle.Valid() && choice.bundle.config.tuning.Valid()
      modifies this`scanId, this`services, stores, stores.exes, stores.maps, stores.exeMaps, stores.markov, stores.active,
               scanner, scanner.fanotify
      ensures Valid() && Takes(choice, step) && (step.IsTick() ==> Announced(step.events))
      ensures Legal(old(View()), step) && View() == After(old(View()), step)
      ensures Turn(Moment(old(View()), old(Looks())), choice, Moment(View(), Looks()))
    {
      hide Announced, Observed;
      match choice {
        case Ticking(_, _, _, _, _, _) =>
          hide StrictTotal, Valid, View, Legal, After, Missing, Takes, Looks, Turn;
          step := TakeTick(choice, less);
        case Reloading(bundle) =>
          ApplyReload(bundle);
          step := Reload(bundle.config);
        case Saving =>
          var snapshot := Save();
          step := Step.Save;
        case Opening(_, _) =>
          assert false;
      }
    }

    method TakeTick(choice: Choice, less: (Path, Path) -> bool) returns (ghost step: Step)
      requires Valid() && StrictTotal(less) && choice.Ticking?
      modifies this`scanId, stores, stores.exes, stores.maps, stores.exeMaps, stores.markov, stores.active, scanner, scanner.fanotify
      ensures Valid() && Takes(choice, step) && (step.IsTick() ==> Announced(step.events))
      ensures Legal(old(View()), step) && View() == After(old(View()), step)
      ensures Turn(Moment(old(View()), old(Looks())), choice, Moment(View(), Looks()))
    {
      ghost var a := Moment(View(), Looks());
      assert a.e.config == services.config;
      hide Announced, Observed, StrictTotal, Valid, Legal, After, Missing, Takes, Looks;
      var report;
      ghost var live;
      report, step, live := Tick(choice.procs, choice.mem, choice.policy, less, choice.dropped, choice.failures, choice.onDisk);
      TickTakes(choice, step);
    }
  }

  // The branches of the main loop, with what the outside world contributes to each, and the
  // reader thread's turn.  An opening recorded while a scan is under way counts before it if
  // it comes before the drain, and after it otherwise.
  datatype Choice =
    | Ticking(procs: seq<Process>, mem: Option<MemStat>, policy: Policy, dropped: bool, failures: seq<MapKey>, onDisk: set<Path>)
    | Reloading(bundle: Bundle)
    | Saving
    | Opening(o: Fanotify.Opening, selfPid: int)

  ghost predicate Takes(choice: Choice, step: Step) {
    match choice
    case Ticking(_, _, policy, dropped, failures, onDisk) =>
      && (if dropped then step.Dropped? else step.Completed? && step.missing == Missing(failures, onDisk))
      && step.policy == policy
    case Reloading(bundle) => step == Reload(bundle.config)
    case Saving => step == Step.Save
    case Opening(_, _) => false
  }

  // The model and the scanner at one moment.
  datatype Moment = Moment(e: Engine, x: Eyes)

  // One turn of the loop, or one opening.
  ghost predicate Turn(a: Moment, choice: Choice, b: Moment) {
    match choice
    case Ticking(procs, mem, _, _, _, _) =>
      exists step :: Takes(choice, step) && step.IsTick() && Legal(a.e, step) && b.e == After(a.e, step)
                     && Observed(a.x, b.x, a.e.config.doscan, procs, mem, a.e.m.modelTime, b.e.scanId, step.events)
    case Reloading(bundle) => b == a.(e := a.e.(config := bundle.config))
    case Saving => b == a
    case Opening(o, selfPid) =>
      b == a.(x := a.x.(buffer := if a.x.buffer.Some? then Some(Fanotify.Insert(a.x.buffer.value, o, selfPid)) else None))
  }

  ghost predicate Unfolds(choices: seq<Choice>, trace: seq<Moment>) {
    |trace| == |choices| + 1 && forall i :: 0 <= i < |choices| ==> Turn(trace[i], choices[i], trace[i + 1])
  }

  lemma UnfoldsMore(choices: seq<Choice>, trace: seq<Moment>, choice: Choice, next: Moment)
    requires Unfolds(choices, trace) && Turn(trace[|choices|], choice, next)
    ensures Unfolds(choices + [choice], trace + [next])
  {
    hide Turn;
  }

  lemma TickTakes(choice: Choice, step: Step)
    requires choice.Ticking? && step.IsTick() && (step.Dropped? <==> choice.dropped) && step.policy == choice.policy
    requires step.Completed? ==> step.missing == Missing(choice.failures, choice.onDisk)
    ensures Takes(choice, step)
  {
  }

  // The choices of the main loop itself.
  function Turns(choices: seq<Choice>): seq<Choice> {
    if choices == [] then []
    else
      var before, last := Turns(choices[..|choices| - 1]), choices[|choices| - 1];
      if last.Opening? then before else before + [last]
  }

  // One step for each of them.
  ghost predicate TakesAll(choices: seq<Choice>, steps: seq<Step>) {
    |steps| == |Turns(choices)| && forall i :: 0 <= i < |steps| ==> Takes(Turns(choices)[i], steps[i])
  }

  lemma TakesMore(choices: seq<Choice>, steps: seq<Step>, choice: Choice)
    requires TakesAll(choices, steps)
    ensures choice.Opening? ==> TakesAll(choices + [choice], steps)
    ensures forall step :: !choice.Opening? && Takes(choice, step) ==> TakesAll(choices + [choice], steps + [step])
  {
    hide Takes;
    assert (choices + [choice])[..|choices|] == choices;
  }

  lemma AnnounceMore(steps: seq<Step>, step: Step)
    requires ScansAnnounce(steps) && (step.IsTick() ==> Announced(step.events))
    ensures ScansAnnounce(steps + [step])
  {
    hide Announced;
  }

  lemma NoSteps(e: Engine)
    ensures LegalRun(e, []) && Exec(e, []) == e
    ensures TakesAll([], []) && ScansAnnounce([])
  {
  }

  /* ---------- restarting ---------- */

  // Reading the saved state back and purging what the policy denies.
  method Load(snapshot: Snap, services: Bundle, scanner: ProcfsScanner, allowMap: Path -> bool)
    returns (engine: PreloadEngine?, done: Result<bool>)
    requires services.Valid() && services.config.tuning.Valid() && scanner.Valid()
    ensures var want := Restore(snapshot, services.config.tuning.window);
            && Attempted(want, done)
            && (want.Success? ==>
                  && engine != null && engine.services == services && engine.scanId == 0 && engine.stores.Valid()
                  && engine.stores.View() == RemoveMaps(want.value, Denied(want.value, allowMap))
                  && ActiveBySight(engine.stores.View().exes, engine.stores.View().active, snapshot.modelTime,
                                   services.config.tuning.window))
            && (want.Success? && Inv(want.value) ==>
                  engine.Valid() && engine.View() == Engine(engine.stores.View(), services.config, 0))
  {
    LoadedActive(snapshot, services.config.tuning.window, allowMap);
    hide Restore, Inv, RemoveMaps, Denied, Stores.Valid, Stores.View, ProcfsScanner.Valid, ActiveBySight;
    engine := null;
    var stores;
    stores, done := StoresFromSnapshot(snapshot, services.config.tuning.window);
    if done.Success? {
      ghost var m := stores.View();
      PurgeDenied(stores, allowMap);
      if Inv(m) {
        RemoveMapsKeepsInv(m, Denied(m, allowMap));
      }
      engine := new PreloadEngine.FromStores(stores, services, scanner);
    }
  }

  lemma LoadedActive(snapshot: Snap, window: U64, allowMap: Path -> bool)
    ensures var want := Restore(snapshot, window);
            want.Success? ==>
              var m := RemoveMaps(want.value, Denied(want.value, allowMap));
              ActiveBySight(m.exes, m.active, snapshot.modelTime, window)
  {
    if Restore(snapshot, window).Success? {
      RestoredActive(snapshot, window);
      hide RestoreExes, RestoreMaps, RestoreLinks, RestoreEdges, ActiveBySight;
    }
  }

  lemma RestartIs(e: Engine, config: Config, allowMap: Path -> bool)
    requires config.tuning.Valid()
    ensures var m := Reloaded(e.m, config.tuning.window);
            After(e, Step.Restart(config, allowMap)) == Engine(RemoveMaps(m, Denied(m, allowMap)), config, 0)
  {
  }

  // Saving and loading again never fails, and is the restart step of a run.
  method Restart(before: PreloadEngine, services: Bundle, scanner: ProcfsScanner, allowMap: Path -> bool)
    returns (engine: PreloadEngine?, done: Result<bool>)
    requires before.Valid() && services.Valid() && services.config.tuning.Valid() && scanner.Valid()
    ensures done.Success? && engine != null && engine.Valid()
    ensures engine.View() == After(before.View(), Step.Restart(services.config, allowMap))
    ensures Recalled(before.View().m, engine.View().m, services.config.tuning.window, allowMap)
  {
    ghost var e := before.View();
    assert Linked(e.m);
    hide Linked, After, Recalled, Inv, RemoveMaps, Denied, Stores.Valid, Stores.View, ProcfsScanner.Valid, Restore, Reloaded, Lists;
    var snapshot := before.Save();
    SaveThenLoad(before.stores.View(), snapshot, services.config.tuning.window);
    ReloadKeepsInv(before.stores.View(), services.config.tuning.window);
    engine, done := Load(snapshot, services, scanner, allowMap);
    RestartRecalls(e, services.config, allowMap);
    RestartIs(e, services.config, allowMap);
  }
}
