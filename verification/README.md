# A verified model of preload-ng

preload-ng watches which executables run together and prefetches the files they will map
next. This project models its learning core in Dafny and proves what that core keeps.

The model has two layers. The first is a layer of values: one model state (executables,
maps, links, pairwise Markov edges, active set, clocks), one update step on it, and whole runs of ticks,
dropped ticks, reloads, saves and restarts. The second layer has the form of the daemon: classes for
the stores, the edge graph kept in parallel vectors, the scanner, the file-open watcher, the
admission policy, the updater, the predictor and the engine, with their loops and updates in
place. Each method of the second layer is proved equal to a function of the first, or against an outright
specification, and the properties are proved about those.

| file | models |
|---|---|
| Domain, Enumeration, Reals, Products | identifiers, 64-bit saturating counters, iteration in arbitrary order, exact products |
| FastExp, FastExpOrder, MarkovEdge | the fast exponential, when it keeps the order of its arguments, and one edge with its decayed statistics |
| MarkovGraph, KeyStores, ExeMapIndex, ActiveSet, Stores | the stores and the one state they represent |
| Observation, ProcfsScanner, FanotifyWatcher, Admission | what a scan reports, and what the policy makes of it |
| Model, UpdateEffect, OrderOfCandidates, ModelUpdater, UpdateReport | the update step, what it does by path and key, what the order of the candidates can change, the loops that perform it, and what they report |
| Snapshot, Persistence | saving by path and rebuilding with new ids |
| Runs, EdgeHistory, Engine | whole runs, what they teach the edges, and the engine whose main loop takes their steps |
| Correlation, ForgottenOverlap, Predictor, ScoreLaws | the phi coefficient, a run that drives it out of range, the noisy-or scores, and the laws that fix them |
| Planner, PlanContents, Prefetcher, Readahead, PlanExecution | the greedy plan, what it contains, the uncached ranges, the kernel requests and the report, and a plan carried out |

Executables are never removed, so an executable id is a position. A map id is a natural
number that is never issued twice, which stands for a slot and its generation. Floating-point
numbers are exact reals. Hash tables are iterated in arbitrary order. What the kernel, the file
system and the square root answer is arbitrary within their contracts.

## Where the code does not do what one would expect

Each of these is proved, by a concrete input or in general, and with the exact condition where there is one.

- The coefficient of `correlation` can leave [-1, 1]. Pruning an edge forgets the time both
  ends ran while their totals stay. `PhiOutOfRangeReachable` is a legal run of five steps from
  the empty model that ends with a coefficient of -9 (`PhiOutOfRange` has its times).
  `PhiInRangeIff` gives the condition for any times, `PhiOfForgottenEdge` for a reborn edge, and
  `RunPhiBounded` shows that pairs that never lost their edge are safe on every run.
- `execute_concurrent` builds a fresh buffer for each result and drops it with the tasks still
  in it. With more than one worker the report misses results, so failed files may not be
  purged (`ExecuteConcurrent`, `ReportCompleteIff`).
- The scanner never rereads the executable of a process it knows. A process that starts another
  program in place keeps its start time, so it is reported under the old program for as long as
  it lives, with the maps of the new one (`ExeNeverReread`, `ReplacedProgramMisreported`). `AgreesIff` is
  the condition for one process, `SteadyScanIsFull` what suffices for a whole scan.
- A cached rejection can outlive its cause (`RejectionOutlivesCause`), but never turns into a
  wrong acceptance, and the denial of an executable is never stale (`CacheOnlyDelaysAcceptance`). A decision is the one
  the candidate deserves exactly when the first rejected question about its path that was not
  evicted since, if there is one, had that verdict (`DecidedRightIff`).
- The comment on `fast_exp_neg` speaks of rounding down and of a remainder within half of ln 2.
  The code rounds to nearest, the remainder is bounded here by 0.347, and the result is not
  monotone (`ReductionInRange`, `NotMonotone`). `MonotoneIff` says for which arguments order is kept;
  arguments at least 0.000002 apart always keep it, so with a decay of at least that much
  per second a longer time never weighs more (`FarApartInOrder`, `LongerWeighsLess`).
- The order in which the candidate table is iterated shows in the stored description of a new
  map: the first accepted candidate that has it decides. It cannot show exactly when the
  accepted candidates agree on the description (`StoredAlikeIff`); apart from it only ids depend
  on the order (`UpdatedAlike`, `EdgesAlike`).
- Ties between an allowing and a denying rule depend on the order of the rules
  (`TieMeansOrderMatters`); the configuration's sort makes absolute ones deny (`SortedTieDenies`).

## Main results

- Every state of every run keeps the invariant: `Runs.RunKeepsInv`, carried to the daemon's loops by
  `ModelUpdater.DefaultModelUpdater.Apply`, `EngineModule.PreloadEngine.Tick` and `EngineModule.PreloadEngine.RunUntil`.
- Over every run: running times add up (`Runs.RunTotals`, `Runs.RunKeepsBalance`), model time is the
  completed cycles (`Runs.RunClock`), correlation stays in range where no edge is lost
  (`Correlation.RunPhiBounded`), and whatever a tick accepts it leaves running and active (`Runs.RunWelcomes`).
- Edges: each tells which of its ends run (`EdgeHistory.RunStatesTell`), an update teaches it exactly what it saw
  (`EdgeHistory.UpdateTeaches`), and over every run that keeps it, it is the replay of what it was shown
  (`EdgeHistory.RunReplaysEdge`), so the laws of edge histories hold on runs (`EdgeHistory.RunEdgeLearns`).
- One update by path, pair and key, whatever the order of the candidates: `UpdateEffect.AdmitAllExact`,
  `Model.EdgesAfterUpdate`, `OrderOfCandidates.UpdatedAlike`, `OrderOfCandidates.EdgesAlike`, `OrderOfCandidates.StoredAlikeIff`.
- Saving and loading never fails and brings back exactly what it should: `Snapshot.SaveThenLoad`, `Runs.RestartRecalls`,
  `EngineModule.Restart`.
- Scanning from a cache: `ProcfsScannerModule.ReportsAreRecent`, `ProcfsScannerModule.SteadyScanIsFull`,
  and the watcher over every interleaving, `FanotifyWatcherModule.DrainReportsOpenings`.
- Admission: `Admission.OrderIrrelevant` and `Admission.TieMeansOrderMatters`; `Admission.DecidedRightIff`.
- Prediction is the order-free noisy-or (`Predictor.MarkovPredictor.Predict`) of the chances in `ScoreLaws.ChanceIs`
  and `ScoreLaws.EdgeNeedIs`, composed as `ScoreLaws.MarkovScoreByEdges` and `ScoreLaws.MapScoreByLinks` say.
- The plan is the best greedy choice in its one sorted order (`Planner.GreedyLexBest`, `Planner.SortedIsUnique`,
  `PlanContents.PlanServes`), every tick makes it (`EngineModule.PreloadEngine.Tick`), and carrying it out asks the kernel for each
  uncached byte once and for no more than the budget (`Prefetcher.UncachedRanges`, `Readahead.PrefetchMap`,
  `PlanExecution.PlanAndExecute`).
- The fast exponential: `FastExp.SecondOrder`, `FastExpOrder.MonotoneIff`.

## Model

| member | source | states |
|---|---|---|
| Domain.PairKeyCanonical | crates/orchestrator/src/stores/edge_key.rs:9-20 | A pair of executables has one canonical name in either order, and different pairs have different names |
| Domain.StateOfEnds | crates/orchestrator/src/domain/markov.rs:14-27 | The state of a pair tells which of its two ends run, each of the four by name; it is numbered in binary, the first end counting one and the second two; exchanging the ends exchanges the two one-sided states |
| FastExp.FastExpNeg | crates/orchestrator/src/math.rs:17-38 | For every x <= 0 the result lies in [0, 1], is 1 only at 0, and is 0 only below -87 |
| FastExp.ReductionInRange | crates/orchestrator/src/math.rs:26-36 | On [-87, 0] the reduced argument stays within 0.347 of zero and the biased exponent lies in 1..127 |
| FastExp.SecondOrder | crates/orchestrator/src/math.rs:26-37 | With x = n ln 2 + r in the code's constants, the result is 2^n (1 + r + theta r^2) with theta between 0.43 and 0.57, as for the exponential |
| FastExp.PolynomialInRange | crates/orchestrator/src/math.rs:31-32 | On the reduced range the polynomial stays between 0.5 and 1.5, below 1 for negative arguments |
| FastExp.ScaleIsPowerOfTwo | crates/orchestrator/src/math.rs:34-37 | The assembled bits are a normal number (IEEE 754-2019, section 3.4) equal to the power of two |
| FastExpOrder.NotMonotone | crates/orchestrator/src/math.rs:27-29 | Two concrete arguments at a reduction breakpoint, of which the larger gives the smaller result |
| FastExpOrder.MonotoneIff | crates/orchestrator/src/math.rs:17-38 | For all x <= y <= 0 the results are in order exactly when x is below -87, or the multiples of ln 2 taken out of x and y are not neighbours, or P(r(x)) <= 2 P(r(y)) for the polynomial of the remainders |
| FastExpOrder.FarApartInOrder | crates/orchestrator/src/math.rs:17-38 | Arguments at least 0.000002 apart give results in order |
| FastExpOrder.LongerWeighsLess | crates/orchestrator/src/stores/markov_graph.rs:114-115 | With a decay of at least 0.000002 per second a longer time never weighs more |
| FastExpOrder.WeightIsExponential | crates/orchestrator/src/stores/markov_graph.rs:114-115 | To second order the weight is the exponential of minus the decay times the elapsed seconds |
| MarkovEdge.Weight | crates/orchestrator/src/stores/markov_graph.rs:114-115 | The weight of an old statistic lies in [0, 1] and is 1 when no time has passed |
| MarkovEdge.TransitionKeepsStatsGood | crates/orchestrator/src/stores/markov_graph.rs:102-144 | A transition keeps every row sub-stochastic with a zero diagonal, touches only the row and dwell time of the state being left, and scales what that row lacks to one by the mix factor |
| MarkovEdge.TransitionFacts | crates/orchestrator/src/stores/markov_graph.rs:102-144 | A transition reaches its target state, leaves the simultaneous running time alone and dates nothing in the future |
| MarkovEdge.TransitionLearns | crates/orchestrator/src/stores/markov_graph.rs:102-144 | Leaving a state leaves, of the gap between each of its statistics and the new observation, the weight: for the dwell time that of the time since the state was last left, for the row that of the time since the last change; both stamps become now and nothing else changes |
| MarkovEdge.ImmediateTransitionOnlyMovesState | crates/orchestrator/src/stores/markov_graph.rs:111-144 | A transition in the second the edge was created changes the state and no statistic |
| MarkovEdge.UnlearnedMass | crates/orchestrator/src/stores/markov_graph.rs:102-144 | Over every history of an edge, at whatever decays and through restarts, one minus the sum of a row is what it was at the start times the mix factors of all departures from that state, and rows stay sub-stochastic with a zero diagonal |
| MarkovEdge.MeanDwellBounded | crates/orchestrator/src/stores/markov_graph.rs:117-121 | Over every such history the mean dwell time of a state lies between 0 and the longest stay observed in it (or its initial value) |
| MarkovEdge.TransitionFavoursTarget | crates/orchestrator/src/stores/markov_graph.rs:128-139 | Leaving a state for another makes that one no less likely from there, and nothing else likelier |
| MarkovEdge.OldStatisticsForgotten | crates/orchestrator/src/stores/markov_graph.rs:111-143 | The dwell time is weighed by the time since the state was last left, the row by the time since the last change: once those are long enough only the new observation is left |
| MarkovGraphStore.MarkovGraph.EnsureEdge | crates/orchestrator/src/stores/markov_graph.rs:148-163 | The seven vectors and the index behave as a map from canonical pairs to edges: a new pair gets a fresh record, a known one changes nothing |
| MarkovGraphStore.MarkovGraph.UpdateState | crates/orchestrator/src/stores/markov_graph.rs:102-145 | Writing through the columns of one index is the edge transition on that key of the map and nothing else |
| MarkovGraphStore.MarkovGraph.SetStats | crates/orchestrator/src/stores/markov_graph.rs:89-99 | Writing statistics through the mutable view changes those fields of that edge only |
| MarkovGraphStore.MarkovGraph.AddBoth | crates/orchestrator/src/observation/model_updater.rs:194-196 | Charging simultaneous time through iteration changes that field of that edge only |
| MarkovGraphStore.MarkovGraph.PruneInactive | crates/orchestrator/src/stores/markov_graph.rs:228-238 | Exactly the edges with both ends active remain, each with its whole record, despite the swaps; the index stays the inverse of the key vector |
| MarkovGraphStore.MarkovGraph.SwapRemove | crates/orchestrator/src/stores/markov_graph.rs:240-256 | Removes exactly the key in that column; the last column takes its place in all seven vectors |
| MarkovGraphStore.RewriteMatrix | crates/orchestrator/src/stores/markov_graph.rs:128-139 | Of the four rows only the one of the state being left changes |
| MarkovGraphStore.LeaveState | crates/orchestrator/src/stores/markov_graph.rs:107-143 | The columns written on leaving a state are those of the edge transition |
| KeyStores.ExeStore.Ensure | crates/orchestrator/src/stores/exe_store.rs:14-22 | Finds the executable with that path or appends one; ids are never reused and the key index stays inverse to the table |
| KeyStores.ExeStore.IdByKey | crates/orchestrator/src/stores/exe_store.rs:32-34 | The index answers what a search of the table would |
| KeyStores.MapStore.EnsureWithFlag | crates/orchestrator/src/stores/map_store.rs:18-26 | Adds the segment exactly when its key is new, says so, and never overwrites a known one |
| KeyStores.MapStore.IdByKey | crates/orchestrator/src/stores/map_store.rs:32-34 | Answers the one id with that key, or that no live map has it |
| KeyStores.MapStore.Remove | crates/orchestrator/src/stores/map_store.rs:36-43 | Removes the id and its key together |
| ExeMapIndexStore.ExeMapIndex.Attach | crates/orchestrator/src/stores/exe_map_index.rs:13-16 | Adds one pair to the relation; its two sides stay mutually inverse without empty sets |
| ExeMapIndexStore.ExeMapIndex.DetachMap | crates/orchestrator/src/stores/exe_map_index.rs:32-43 | Removes exactly the pairs of that map from both sides |
| ExeMapIndexStore.ExeMapIndex.RemoveExe | crates/orchestrator/src/stores/exe_map_index.rs:45-56 | Removes exactly the pairs of that executable from both sides |
| ExeMapIndexStore.ExeMapIndex.MapsForExe | crates/orchestrator/src/stores/exe_map_index.rs:18-23 | Exactly the maps related to an executable |
| ExeMapIndexStore.ExeMapIndex.ExesForMap | crates/orchestrator/src/stores/exe_map_index.rs:25-30 | Exactly the executables related to a map |
| ActiveSetStore.ActiveSet.Update | crates/orchestrator/src/stores/active_set.rs:12-16 | Dates the given executables now and nobody else |
| ActiveSetStore.ActiveSet.Prune | crates/orchestrator/src/stores/active_set.rs:18-29 | Keeps exactly those seen within the window and returns the others |
| StoresModule.Stores.EnsureExe | crates/orchestrator/src/stores/mod.rs:32-34 | On all stores together: adds at most that executable |
| StoresModule.Stores.EnsureMapWithFlag | crates/orchestrator/src/stores/mod.rs:40-42 | On all stores together: adds at most that map; no link changes |
| StoresModule.Stores.AttachMap | crates/orchestrator/src/stores/mod.rs:44-46 | On all stores together: adds that link and nothing else |
| StoresModule.Stores.RemoveMapByKey | crates/orchestrator/src/stores/mod.rs:52-57 | Removes the map with that key and exactly the links to it; no index entry dangles |
| Observation.CollectFacts | crates/orchestrator/src/observation/model_updater.rs:62-89 | An observation runs at its begin time; the running paths are exactly those of its executable events, and each is a candidate |
| Observation.BatchTime | crates/orchestrator/src/observation/model_updater.rs:62-68 | An observation is dated by its last begin marker, or else by the model time |
| Observation.CandidateGathersMaps | crates/orchestrator/src/observation/model_updater.rs:75-85 | A candidate holds exactly the allowed maps reported for it, in order, names the denied ones, and its size is their total length capped at 64 bits |
| Observation.AnnouncedCandidatesRun | crates/orchestrator/src/observation/model_updater.rs:69-85 | When executables are announced before their maps, the candidates are exactly the running paths: the fallback for an unannounced map is dead code |
| ProcfsScannerModule.ProcfsScanner.Scan | crates/orchestrator/src/observation/procfs_scanner.rs:165-271 | Replaces the cache by the processes just visited; the events are the markers, the processes, the drained opens and the memory reading, dated at the given time, every map after its executable |
| ProcfsScannerModule.ProcfsScanner.Visit | crates/orchestrator/src/observation/procfs_scanner.rs:182-244 | One process: the branch taken, what is remembered and what is reported |
| ProcfsScannerModule.ReportsAreRecent | crates/orchestrator/src/observation/procfs_scanner.rs:191-248 | Over every history of scans, the maps reported for a process were read for the same pid and start time fewer than the rescan interval scans ago |
| ProcfsScannerModule.MapsKeptForInterval | crates/orchestrator/src/observation/procfs_scanner.rs:203-218 | The maps of a living process are kept for exactly the rescan interval and then read again |
| ProcfsScannerModule.CachedExeWasRead | crates/orchestrator/src/observation/procfs_scanner.rs:197-218 | Over every history of scans, a cached executable path was read in some scan for that pid and start time |
| ProcfsScannerModule.SteadyScanIsFull | crates/orchestrator/src/observation/procfs_scanner.rs:175-248 | A scan reports what a scan with an empty cache would if, for the processes in it, the readings of the last rescan interval agree on the maps and the readable executables seen for the same pid and start time are the present one; what other processes did, or these did earlier, does not matter |
| ProcfsScannerModule.AgreesIff | crates/orchestrator/src/observation/procfs_scanner.rs:197-218 | For a cached process the report equals a full scan exactly when the executable is still the cached one and the maps are reread or unchanged |
| ProcfsScannerModule.ExeNeverReread | crates/orchestrator/src/observation/procfs_scanner.rs:197-218 | Through any number of scans a living process keeps the executable path first cached for it |
| ProcfsScannerModule.ReplacedProgramMisreported | crates/orchestrator/src/observation/procfs_scanner.rs:185-218 | A concrete process that starts another program in place is reported under the old one, unlike in a full scan |
| ProcfsScannerModule.EventsAnnounced | crates/orchestrator/src/observation/procfs_scanner.rs:197-237 | Every map event of a scan is preceded by an event of its executable |
| ProcfsScannerModule.AnnouncesReadings | crates/orchestrator/src/observation/procfs_scanner.rs:219-237 | A process is announced by its executable under its pid, and then each map read, in order, with path, offset, length, device and inode, dated at the scan |
| ProcfsScannerModule.ScanAll | crates/orchestrator/src/observation/procfs_scanner.rs:165-271 | A scanner taken through any sequence of scans reports in each what the theorems on histories say of its cache |
| FanotifyWatcherModule.FanotifyWatcher.Record | crates/orchestrator/src/observation/fanotify_watcher.rs:134-194 | A relevant opening is inserted, keeping the first pid and the first metadata; any other is ignored |
| FanotifyWatcherModule.FanotifyWatcher.Drain | crates/orchestrator/src/observation/fanotify_watcher.rs:200-226 | Empties the buffer and delivers each buffered executable and pair once, maps after executables |
| FanotifyWatcherModule.BufferHoldsPending | crates/orchestrator/src/observation/fanotify_watcher.rs:188-207 | For every interleaving of inserts and drains the buffer holds exactly the pairs opened since the last drain, each with the metadata of its first opening |
| FanotifyWatcherModule.BufferHoldsOpeners | crates/orchestrator/src/observation/fanotify_watcher.rs:188-207 | Likewise the executables, each with the pid of its first opening |
| FanotifyWatcherModule.DrainReportsOpenings | crates/orchestrator/src/observation/fanotify_watcher.rs:134-226 | For every interleaving, a drain reports exactly the files opened since the last one, each as a map of the whole file with the size, device and inode of its first opening |
| FanotifyWatcherModule.DrainReportsOpeners | crates/orchestrator/src/observation/fanotify_watcher.rs:200-226 | Likewise the executables, each under the pid of its first opening |
| FanotifyWatcherModule.ReportedIsForeign | crates/orchestrator/src/observation/fanotify_watcher.rs:134-186 | Only non-empty regular files outside the virtual and session directories, opened by another process, are ever reported |
| FanotifyWatcherModule.ForeignIsBuffered | crates/orchestrator/src/observation/fanotify_watcher.rs:134-194 | Every such opening is buffered with its executable |
| FanotifyWatcherModule.BufferAnnounces | crates/orchestrator/src/observation/fanotify_watcher.rs:192-193 | For every interleaving, no buffered pair lacks its executable |
| FanotifyWatcherModule.Follow | crates/orchestrator/src/observation/fanotify_watcher.rs:134-226 | A watcher taken through any interleaving of openings and drains ends with the buffer the theorems on logs speak of |
| Admission.AcceptPath | crates/orchestrator/src/observation/admission.rs:89-109 | The verdict is that of the first rule with the longest non-empty matching prefix, acceptance when no rule matches |
| Admission.WinnerUnique | crates/orchestrator/src/observation/admission.rs:95-108 | At most one rule wins, and the verdict is its polarity |
| Admission.OrderIrrelevant | crates/orchestrator/src/observation/admission.rs:95-108 | Permuting the rules cannot change a verdict unless an allowing and a denying rule share the longest matching prefix |
| Admission.TieMeansOrderMatters | crates/orchestrator/src/observation/admission.rs:103-105 | Whenever two rules tie so, some permutation of the rules reverses the verdict |
| Admission.SortedTieDenies | crates/config/src/lib.rs:65-69 | After the configuration sorts its rules, such a tie on an absolute prefix denies |
| Admission.JudgedByEvents | crates/orchestrator/src/observation/admission.rs:146-170 | A candidate built from a scan is accepted exactly when its executable is allowed, some reported map is, and the allowed ones reach the minimum size; completely exactly when no reported map was denied; and each reason for rejection has its condition |
| Admission.DefaultAdmissionPolicy.Decide | crates/orchestrator/src/observation/admission.rs:138-176 | The cached reason if there is one, else the verdict on the candidate, which is then recorded or cleared; every lookup is a hit or a miss and every miss inserts or invalidates |
| Admission.DefaultAdmissionPolicy.Serve | crates/orchestrator/src/observation/admission.rs:138-213 | The policy taken through any log answers each question as decided from the cache that the theorems on logs speak of, and ends with that cache |
| Admission.CacheHoldsIff | crates/orchestrator/src/observation/admission.rs:138-213 | Over every log of questions and evictions, a path is cached exactly when some question about it was rejected and not evicted since, with the reason of the first such question |
| Admission.DecidedRightIff | crates/orchestrator/src/observation/admission.rs:138-176 | A decision is the deserved one exactly when the first rejected and unevicted question about the path, if any, had the same verdict |
| Admission.CacheOnlyDelaysAcceptance | crates/orchestrator/src/observation/admission.rs:138-176 | Whatever is accepted deserves it; an executable denial is given exactly when deserved; a wrong decision is exactly the different verdict of the first rejected and unevicted question about the path |
| Admission.RejectionOutlivesCause | crates/orchestrator/src/observation/admission.rs:139-144 | A concrete program first seen without maps stays rejected after its maps appear |
| Admission.OtherQuestionsIrrelevant | crates/orchestrator/src/observation/admission.rs:138-176 | Deciding on other paths first never changes a decision, so during one update the policy is a function of the candidate |
| ModelUpdater.CollectEvents | crates/orchestrator/src/observation/model_updater.rs:54-89 | The event loop computes the batch of candidates and running paths |
| ModelUpdater.DefaultModelUpdater.Apply | crates/orchestrator/src/observation/model_updater.rs:51-208 | The whole update on the stores equals the update step on the model state, and the report names exactly what changed; each edge absent after pruning is named once |
| UpdateReport.ReportTells | crates/orchestrator/src/observation/model_updater.rs:91-152 | The report names exactly the executables that started and that stopped running, the candidates rejected with their reasons, those admitted in part, and the maps that are new |
| ModelUpdater.DefaultModelUpdater.AdmitCandidates | crates/orchestrator/src/observation/model_updater.rs:91-132 | Admission in some order of the candidates, with the new executables, new maps, rejections and partial admissions it reports |
| ModelUpdater.DefaultModelUpdater.UpdateFlags | crates/orchestrator/src/observation/model_updater.rs:134-152 | Sets every running flag, reports each flip once, and collects the running executables |
| ModelUpdater.EnsureEdges | crates/orchestrator/src/observation/model_updater.rs:160-177 | The pair loop adds exactly the missing pairs of active executables, naming each once |
| ModelUpdater.DefaultModelUpdater.AccountTotals | crates/orchestrator/src/observation/model_updater.rs:179-190 | Charges the period to exactly the running executables |
| ModelUpdater.DefaultModelUpdater.AdvanceEdges | crates/orchestrator/src/observation/model_updater.rs:191-199 | Every edge is charged and moved to the state of its ends, whatever the column order |
| UpdateEffect.AdmitAllExact | crates/orchestrator/src/observation/model_updater.rs:94-132 | By path: exactly the accepted candidates become known, exactly their maps are added, and exactly the links between the two |
| UpdateEffect.AdmitAllDates | crates/orchestrator/src/observation/model_updater.rs:110-112 | The last-seen time moves to now for accepted candidates and for nobody else |
| UpdateEffect.OrderOfCandidatesIrrelevant | crates/orchestrator/src/observation/model_updater.rs:94-132 | Two iteration orders of the candidate table admit the same executables by path, the same map keys and the same links by path and key |
| OrderOfCandidates.UpdatedAlike | crates/orchestrator/src/observation/model_updater.rs:51-208 | Over a whole update, two iteration orders leave every program with the same record, activity and links, under the same id if it was known before; clocks and map keys agree |
| OrderOfCandidates.EdgesAlike | crates/orchestrator/src/observation/model_updater.rs:158-199 | Every pair of programs has an edge under both orders or neither, with the same statistics; its state is mirrored exactly when the ids of the ends are in the opposite order, which takes two new programs |
| OrderOfCandidates.StoredAlikeIff | crates/orchestrator/src/observation/model_updater.rs:114-125 | Every iteration order stores the same description of a map exactly when it was stored before or all accepted candidates that have it describe it alike |
| UpdateEffect.RunningAfterUpdate | crates/orchestrator/src/observation/model_updater.rs:134-152 | After an update running means seen running, and change times move exactly on a flip |
| Model.AcceptedIsActive | crates/orchestrator/src/observation/model_updater.rs:94-158 | When executables are announced first, every accepted candidate is left running and active |
| Model.ActiveAfterUpdate | crates/orchestrator/src/observation/model_updater.rs:154-157 | The active executables are those running and those seen within the window |
| OrderOfCandidates.UpdatedActivity | crates/orchestrator/src/observation/model_updater.rs:154-157 | A running executable is dated now, another active one keeps its date |
| Model.EdgesAfterUpdate | crates/orchestrator/src/observation/model_updater.rs:158-199 | The edges are exactly the unordered pairs of distinct active executables, canonical, n(n-1)/2 of them, each in the state of its ends |
| Model.BirthStateIrrelevant | crates/orchestrator/src/observation/model_updater.rs:166-199 | An edge born in the wrong orientation ends the same update identical to one born right |
| Model.UpdateKeepsInv | crates/orchestrator/src/observation/model_updater.rs:51-208 | The update keeps the invariant: stores agree, running executables are active, totals fit in the accounted time, every edge has the state of its ends, sane statistics and a simultaneous time no larger than either total |
| Model.AdmitAllGrows | crates/orchestrator/src/observation/model_updater.rs:94-132 | Admission only adds executables, maps and links, and of a known executable moves only the last-seen time |
| Snapshot.SaveThenLoad | crates/orchestrator/src/engine.rs:323-460 | Loading what was saved never fails: executables keep path, total and last-seen time under their ids and none runs; exactly those last seen within the window are active, dated at the model time; an edge is kept exactly when both ends are, with dwell times, probabilities and simultaneous time, in state Neither and stamped at the model time; maps keep key and update time, and links are the same |
| Snapshot.RestoredActive | crates/orchestrator/src/engine.rs:411-418 | Whatever snapshot is restored, exactly the executables last seen within the window are active, dated at the model time, and edges join active executables only |
| Snapshot.ReloadIdempotent | crates/orchestrator/src/engine.rs:390-460 | Loading twice is loading once |
| Snapshot.ReloadKeepsInv | crates/orchestrator/src/engine.rs:390-460 | A restored model satisfies the invariant of runs, so edges again match their ends |
| Snapshot.OrientationNeedsIdOrder | crates/orchestrator/src/engine.rs:434-453 | For any list of edge records that restores, a pair's edge takes the statistics of the first record that names it, and is the right way round exactly when that record's first executable was issued no larger an id |
| Persistence.SnapshotFromStores | crates/orchestrator/src/engine.rs:323-388 | The saving loops list exactly the executables in id order, the maps, the links and the edges |
| Snapshot.SavedRecords | crates/orchestrator/src/engine.rs:323-388 | What a snapshot holds, record by record; an edge names the end with the smaller id first |
| Persistence.ListLinks | crates/orchestrator/src/engine.rs:343-354 | Every link is listed, and nothing else |
| Persistence.ListEdges | crates/orchestrator/src/engine.rs:356-371 | Every edge is listed with its ends in stored order, and nothing else |
| Persistence.Load | crates/orchestrator/src/engine.rs:390-460 | The loading loops compute the restored state, or fail on the first record whose executable or map is missing |
| Persistence.LoadLinks | crates/orchestrator/src/engine.rs:420-432 | Links are rebuilt record by record until one names something unknown |
| Persistence.LoadEdges | crates/orchestrator/src/engine.rs:434-454 | Edges are rebuilt record by record until one names something unknown |
| Runs.RunKeepsInv | crates/orchestrator/src/engine.rs:196-254 | Every state of every run of ticks (completed or dropped), reloads, saves and restarts satisfies the invariant |
| Runs.RestartRecalls | crates/orchestrator/src/engine.rs:76-102 | A restart brings back all of that except the maps denied by then and their links |
| EdgeHistory.RunStatesTell | crates/orchestrator/src/observation/model_updater.rs:197-198 | In every state of every run an edge is in AOnly exactly when its first end runs and its second does not, and likewise for the other three states |
| EdgeHistory.UpdateTeaches | crates/orchestrator/src/observation/model_updater.rs:191-199 | An update charges a kept edge the period if both ends run, and changes nothing else unless the state changed, which it then learns at the configured decay; a new edge starts with empty statistics stamped now |
| EdgeHistory.RunReplaysEdge | crates/orchestrator/src/observation/model_updater.rs:191-199 | Over every run that keeps a pair's edge, through dropped ticks, reloads and restarts, the edge is the replay of the states it was shown at the decays configured then, plus the periods in which both ends ran |
| EdgeHistory.RunEdgeLearns | crates/orchestrator/src/stores/markov_graph.rs:102-144 | So on runs a row lacks what it lacked times the weights of its departures, and a mean dwell time stays within the longest stay |
| Runs.RunWelcomes | crates/orchestrator/src/observation/model_updater.rs:69-158 | On every run whose scans announce executables first, every tick's candidates are the running paths and every accepted one ends the tick running and active |
| Runs.RunTotals | crates/orchestrator/src/observation/model_updater.rs:179-190 | Over every run, an executable has gained exactly the accounting periods of the ticks, completed or dropped, that left it running |
| Runs.RepeatedTickChargesNothing | crates/orchestrator/src/engine.rs:105-184 | The tick after a dropped one charges nobody |
| Runs.RunClock | crates/orchestrator/src/engine.rs:180-184 | Over every run, model time has grown by one cycle per completed tick and by nothing else, up to saturation |
| Runs.RunScanIds | crates/orchestrator/src/engine.rs:105-107 | Between restarts every tick, dropped or not, takes the next scan id |
| Runs.UpdateBothTime | crates/orchestrator/src/observation/model_updater.rs:191-196 | A pair has an edge exactly when both ends are active, and its simultaneous time grows by the period exactly when both run |
| Runs.RunKeepsBalance | crates/orchestrator/src/observation/model_updater.rs:158-200 | As long as a pair never loses its edge, the two totals less their simultaneous time fit in the accounted time |
| EngineModule.PreloadEngine.Observe | crates/orchestrator/src/engine.rs:105-138 | A tick up to its only await is the dropped-tick step of a run, on the events of the scan with everything buffered before it |
| EngineModule.PreloadEngine.Finish | crates/orchestrator/src/engine.rs:166-184 | After the await: exactly the failed maps without a file and their links go, and model time moves by one cycle |
| EngineModule.PreloadEngine.Tick | crates/orchestrator/src/engine.rs:105-193 | A tick, completed or dropped while prefetching, is the corresponding step of a run on the events of its one scan, and what it accepts ends running and active; its report has the scan's memory reading, everything the update changed, and the plan that the scores after the update call for |
| EngineModule.PreloadEngine.PlanPrefetch | crates/orchestrator/src/engine.rs:140-162 | With prediction and a memory reading the plan serves the scores: every map that a stopped executable is linked to is planned or does not fit beside the planned maps that score no worse, the order is best first and then the strategy's, and the byte counts are those of the plan and of the budget; otherwise nothing is planned |
| EngineModule.PreloadEngine.ApplyReload | crates/orchestrator/src/engine.rs:285-301 | A reload replaces configuration and services and leaves the model alone |
| EngineModule.PreloadEngine.Save | crates/orchestrator/src/engine.rs:257-260 | The saved snapshot lists exactly the model |
| EngineModule.PreloadEngine.RunUntil | crates/orchestrator/src/engine.rs:196-254 | Whatever branches the main loop takes, and whatever the file-open reader inserts in between, each turn is the one asked for on the model, the scanner's cache and the buffer; together they make a legal run with announced scans that leaves everything it accepts running and active |
| EngineModule.PreloadEngine.ReceiveOpening | crates/orchestrator/src/observation/fanotify_watcher.rs:188-194 | An opening inserted by the reader between scans leaves the model, the configuration and the scan counter alone |
| EngineModule.Load | crates/orchestrator/src/engine.rs:76-102 | Whatever restores is purged of exactly the denied maps and their links, with exactly those seen within the window active, also when the snapshot is inconsistent; a snapshot that does not restore fails likewise; a restored state that satisfies the invariant makes a valid engine |
| EngineModule.Restart | crates/orchestrator/src/engine.rs:76-102 | Saving and loading again always succeeds, is the restart step of a run, and recalls what was saved less the denied maps |
| EngineModule.PurgeDenied | crates/orchestrator/src/engine.rs:81-93 | Removes exactly the denied maps and the links to them |
| EngineModule.PurgeLeavesNoDenied | crates/orchestrator/src/engine.rs:81-93 | After the purge the maps are exactly the allowed ones and the links exactly those to them; nothing else changes |
| EngineModule.PurgeMissing | crates/orchestrator/src/engine.rs:166-178 | Removes exactly the failed maps whose file is gone |
| EngineModule.PurgeKeepsFiles | crates/orchestrator/src/engine.rs:166-178 | Afterwards a map is stored exactly when it was and its prefetch did not fail or its file exists, and so for the links |
| EngineModule.FirstMem | crates/orchestrator/src/engine.rs:125-128 | The memory reading used is the first among the events |
| EngineModule.ChosenAreWanted | crates/orchestrator/src/prefetch/planner.rs:50-76 | Every planned map is live and wanted by an executable that is not running |
| EngineModule.PreloadEngine.ScanAndUpdate | crates/orchestrator/src/engine.rs:109-138 | With scanning on, the stores become the update by the events of one scan dated at model time, and the delta reports it; with scanning off they stay as they are and nothing is reported |
| Correlation.PhiBounded | crates/orchestrator/src/prediction/predictor.rs:32-53 | Consistent running times give a coefficient between -1 and 1 |
| Correlation.PhiInRangeIff | crates/orchestrator/src/prediction/predictor.rs:32-53 | For any times, the coefficient is in range exactly when t.both^2 <= a.b.(t - a - b + 2.both) |
| Correlation.PhiOfForgottenEdge | crates/orchestrator/src/prediction/predictor.rs:49-52 | With the simultaneous time forgotten, the coefficient is in range exactly when a + b <= t |
| Correlation.PhiOutOfRange | crates/orchestrator/src/prediction/predictor.rs:49-52 | Totals 9 and 9 within a model time of 10, with no simultaneous time, give a coefficient of -9 |
| ForgottenOverlap.PhiOutOfRangeReachable | crates/orchestrator/src/prediction/predictor.rs:32-53 | A concrete legal run from the empty model (tick, reload, tick, a dropped tick that prunes the edge, a dropped tick that bears it again) ends with the edge present and a coefficient of -9 |
| Correlation.RunPhiBounded | crates/orchestrator/src/prediction/predictor.rs:32-53 | At the end of every run from an empty model the coefficient of a pair that never lost its edge is between -1 and 1 |
| Correlation.PhiSign | crates/orchestrator/src/prediction/predictor.rs:49-52 | The coefficient is positive exactly when the pair ran together longer than independent executables would, negative exactly when shorter |
| Correlation.PhiExtremes | crates/orchestrator/src/prediction/predictor.rs:49-52 | Executables that always run together get 1, executables that take turns get -1 |
| Predictor.PNeededNeedsNoClamp | crates/orchestrator/src/prediction/predictor.rs:66-71 | For an edge with sane statistics the clamp never acts |
| ScoreLaws.ChanceIs | crates/orchestrator/src/prediction/predictor.rs:55-72 | On sane statistics the chance is one minus the fast exponential of minus cycle over mean dwell time, times the probability of the two states in which the target runs; without a dwell time it is zero |
| ScoreLaws.ChanceScales | crates/orchestrator/src/prediction/predictor.rs:61-71 | Scaling the dwell time and the cycle alike leaves the chance unchanged |
| ScoreLaws.LongerDwellStays | crates/orchestrator/src/prediction/predictor.rs:61-71 | A longer dwell time, with exponents at least 0.000002 apart, never raises the chance |
| ScoreLaws.StrengthIs | crates/orchestrator/src/prediction/predictor.rs:91-97 | The weight of an edge is the size of its coefficient, next to nothing without one, and one when correlation is not used |
| ScoreLaws.EdgeNeedIs | crates/orchestrator/src/prediction/predictor.rs:98-113 | What an edge says of an end is the chance of leaving the state that the running flags make for one in which that end runs, times the strength, clamped |
| Predictor.MarkovPredictor.MultiplyEdges | crates/orchestrator/src/prediction/predictor.rs:84-115 | The table holds, for each executable not running, the product over its incident edges, whatever the order of the columns |
| Predictor.MarkovPredictor.ScoreMap | crates/orchestrator/src/prediction/predictor.rs:143-152 | Four rotating accumulators over the executables in any order give one minus the product of the complements |
| Predictor.MarkovPredictor.Predict | crates/orchestrator/src/prediction/predictor.rs:76-157 | The prediction equals the order-free noisy-or scores of the model |
| ScoreLaws.MarkovScoreByEdges | crates/orchestrator/src/prediction/predictor.rs:87-126 | Each incident edge multiplies the chance that an executable is not needed by one minus its own; without edges the Markov term is zero |
| ScoreLaws.ExeScoreIs | crates/orchestrator/src/prediction/predictor.rs:119-138 | The score of an executable not running is the largest of its Markov term, its share of the model time, and 0.000001 |
| ScoreLaws.MapScoreByLinks | crates/orchestrator/src/prediction/predictor.rs:143-154 | Each linked executable multiplies the chance that a map is not needed by one minus its score; without links the map scores zero |
| Predictor.ExeScoreZeroIffRunning | crates/orchestrator/src/prediction/predictor.rs:119-138 | Scores lie in [0, 1], and a score is zero exactly when the executable runs |
| Predictor.MapScorePositiveIffWanted | crates/orchestrator/src/prediction/predictor.rs:143-154 | A map score lies in [0, 1] and is positive exactly when some linked executable is not running |
| Predictor.PNeededPositiveIff | crates/orchestrator/src/prediction/predictor.rs:61-71 | There is a chance exactly when the present state has been left before, for a state in which the target runs |
| Predictor.MarkovScorePositiveIff | crates/orchestrator/src/prediction/predictor.rs:87-126 | The Markov term is positive exactly when some correlated incident edge has been seen to leave its present state for one in which the executable runs |
| Predictor.UsageNeedsNoClamp | crates/orchestrator/src/prediction/predictor.rs:127-132 | On states of runs the usage term is the running time over the model time, unclamped |
| Planner.BudgetBounded | crates/orchestrator/src/prefetch/planner.rs:37-41 | The budget never exceeds total plus available memory, and the signed products do not overflow below 2^54 KiB |
| Planner.TruncDiv | crates/orchestrator/src/prefetch/planner.rs:38-39 | Signed division rounds toward zero |
| Planner.TruncationIsNotFloor | crates/orchestrator/src/prefetch/planner.rs:38-39 | A concrete negative share where rounding down would give another budget |
| Planner.Kb | crates/orchestrator/src/prefetch/planner.rs:43-45 | The least number of KiB that holds the bytes |
| Planner.Rank | crates/orchestrator/src/prefetch/planner.rs:50-56 | The candidates are exactly the maps with a positive score, best first |
| Planner.Select | crates/orchestrator/src/prefetch/planner.rs:58-76 | The selection loop takes the greedy choice under the budget; bytes selected never exceed it |
| Planner.GreedyFeasible | crates/orchestrator/src/prefetch/planner.rs:62-76 | The greedy choice takes live maps only and fits the budget |
| Planner.GreedyLexBest | crates/orchestrator/src/prefetch/planner.rs:62-76 | Among all choices that fit, the greedy one is lexicographically best in score order |
| Planner.GreedyLeavesNoRoom | crates/orchestrator/src/prefetch/planner.rs:66-70 | No live map that was passed over fits in what is left of the budget |
| Planner.BeforeIsStrictTotal | crates/orchestrator/src/prefetch/planner.rs:176-191 | The comparator is a strict total order on selected entries |
| Planner.SortedIsUnique | crates/orchestrator/src/prefetch/planner.rs:176-191 | A selection has one arrangement in comparator order, so any sort gives the same plan |
| Planner.OrderedFacts | crates/orchestrator/src/prefetch/planner.rs:78-123 | Under all four strategies the result is a permutation of the selection, scores never increase and no map repeats |
| Planner.MakePlan | crates/orchestrator/src/prefetch/planner.rs:49-134 | The plan lists exactly the picked maps, each once, best score first; total bytes never exceed budget bytes |
| Planner.CandidatesAreWanted | crates/orchestrator/src/prefetch/planner.rs:50-56 | A live map is a candidate exactly when some executable linked to it is not running |
| Planner.BudgetTracksPolicy | crates/orchestrator/src/prefetch/planner.rs:37-41 | A positive budget is within two KiB of the policy's percentages of total and available memory, and it is zero when they come to less than minus two |
| Planner.PlanReadsInDiskOrder | crates/orchestrator/src/prefetch/planner.rs:78-123 | Among equal scores the plan follows the order of choice, the paths, device and offset, or file by file in offset order; maps of unknown files come last |
| PlanContents.PlanServes | crates/orchestrator/src/prefetch/planner.rs:49-134 | Every map with a positive score that is not planned does not fit beside the planned maps that score no worse; the plan fits the budget, is best first and then in the strategy's order, and its totals are those of its maps |
| Prefetcher.UncachedRanges | crates/orchestrator/src/prefetch/prefetcher.rs:248-367 | Non-empty ranges in order with gaps between them, inside the map, covering exactly its bytes on uncached pages (all of them if the kernel cannot say), starting at the map or on a page boundary; the branch for a page outside the map is never taken |
| Prefetcher.PageOverlaps | crates/orchestrator/src/prefetch/prefetcher.rs:327-341 | Every page of the bitmap overlaps the map |
| Prefetcher.PageCountFacts | crates/orchestrator/src/prefetch/prefetcher.rs:272-276 | The aligned length is a whole number of pages, the first and the last of which touch the map |
| Readahead.DoReadahead | crates/orchestrator/src/prefetch/prefetcher.rs:120-152 | Requests the chunks of a range in order up to the first that the kernel refuses; it succeeds exactly when the file opens and none is refused |
| Readahead.ChunksExact | crates/orchestrator/src/prefetch/prefetcher.rs:139-149 | The chunks ask for every byte of the range once, none is empty and none exceeds 128 KiB |
| Readahead.RangesExact | crates/orchestrator/src/prefetch/prefetcher.rs:408-410 | Over separated ranges each covered byte is requested once and no other byte is |
| Readahead.RangesVolume | crates/orchestrator/src/prefetch/prefetcher.rs:408-410 | Separated ranges ask for no more bytes than lie between their bounds |
| Readahead.PrefetchMap | crates/orchestrator/src/prefetch/prefetcher.rs:399-412 | If no call fails every uncached byte of the map is requested exactly once; a cached byte never is; the requests together are no longer than the map; it fails only if the kernel refuses to open the file or takes the last call amiss |
| Readahead.ReadLoop | crates/orchestrator/src/prefetch/prefetcher.rs:44-72 | With short reads and end of file, the bytes read are once each those of the range that the file has; it fails only if the file does not open or a read fails |
| Readahead.ExecuteConcurrent | crates/orchestrator/src/prefetch/prefetcher.rs:424-434 | Exactly one result is reported for each batch of at most `concurrency` tasks, because every pass builds and drops its own buffer; the failures are those of the tasks heard of that failed, in order, and the rest of those heard of are counted as done |
| Readahead.FailuresFailed | crates/orchestrator/src/prefetch/prefetcher.rs:424-434 | A key is reported as failed exactly when it belongs to a call that was heard of and failed |
| Readahead.ReportCompleteIff | crates/orchestrator/src/prefetch/prefetcher.rs:424-434 | The report accounts for every task exactly when there is one worker or at most one task |
| PlanExecution.PlanLength | crates/orchestrator/src/prefetch/planner.rs:62-134 | Under every strategy the maps of a plan are together as long as the items chosen |
| PlanExecution.ExecutePlan | crates/orchestrator/src/prefetch/prefetcher.rs:373-438 | Each live planned map asks for its own uncached bytes, once each unless the kernel refuses; the report tallies one task of each batch, and its failures are failed tasks; all requests together are no longer than the planned maps |
| PlanExecution.PlanAndExecute | crates/orchestrator/src/engine.rs:140-165 | From scores to requests: every map of a plan that serves the scores is asked for, and the bytes asked of the kernel never exceed the plan's total bytes, nor these the budget in bytes |

## Left out

- Rounding, saturation and NaN of 16- and 32-bit floats: all arithmetic is on exact reals, and a half converted to single precision and back is the same number.
- Overflow of 64-bit signed offsets in the prefetcher and of the scan counter: both are unbounded here. `BudgetBounded` and the byte budget are stated below 2^54 KiB of memory.
- SQLite and rkyv persistence: the persisted value is the in-memory snapshot. It is given back with the executables in the order saved and everything else in any order; a database that reorders executables would swap edge ends, as `OrientationNeedsIdOrder` says.
- The eviction rules of the rejection cache: it is a partial map that may lose any entries at any time. During one update the policy is a function of the candidate, which `OtherQuestionsIrrelevant` justifies when nothing is evicted meanwhile.
- Reading /proc, fanotify, mmap, mincore, readahead and files: their answers are parameters or arbitrary choices. Entries that cannot be read are represented; `sanitize_path` is not, so paths arrive already cleaned, and non-UTF-8 paths do not occur.
- A scan or update that returns an error: it ends the daemon, and the model has no state after it.
- Sleeping, cancellation, wall-clock autosave and signals: only the choice among the branches of the main loop is kept. `DumpStatus` and the admission statistics report change nothing.
- The madvise backend: it makes one call per range. `UncachedRanges` states the alignment its mmap needs.
- Page sizes that are not powers of two: masking is written as division, which agrees on powers of two.
- Library sorts and path comparison: any strict total order on paths is allowed, and since sorted plans are unique the sort is written as insertion. Prefix lengths count characters; among prefixes of one path this orders as bytes do.
- The square root in `correlation`: a number that is not negative and whose square is the radicand. In `Predict` it is arbitrary, because the scores are clamped.
- Which dropped prefetch tasks still finish in the background: `ExecuteConcurrent` models which results are reported, and `ExecutePlan` lets every task run, which asks for the most.
- The summary of the prediction in a tick's report. The failures a tick acts on are any failures, not only those `ExecutePlan` reports.
- Configuration parsing and merging, logging, priorities, backend probing and the metadata of snapshots.
