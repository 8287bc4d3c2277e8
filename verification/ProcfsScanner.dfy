/**
 The process scanner with its differential cache: the executable of a process is read once,
 its maps every few scans, and in between the cached maps are reported again.
 What /proc says during a scan is arbitrary.
 */
module ProcfsScannerModule {
  import opened Domain
  import opened Observation
  import opened FanotifyWatcherModule

  datatype MapData = MapData(path: Path, offset: U64, length: U64, device: U64, inode: U64)

  // What /proc shows of a process: any of the reads may fail.
  datatype Process = Process(pid: nat, starttime: Option<U64>, exe: Option<Path>, maps: Option<seq<MapData>>)

  datatype CachedProcess = CachedProcess(starttime: U64, exePath: Path, maps: seq<MapData>, lastMapScan: nat)

  type Cache = map<nat, CachedProcess>

  const NO_CACHE: Cache := map[]

  const DEFAULT_MAP_RESCAN_INTERVAL: nat := 5

  function SegmentOf(d: MapData, time: U64): MapSegment {
    MapSegment(d.path, d.offset, d.length, time, d.device, d.inode)
  }

  function MapEvents(exePath: Path, maps: seq<MapData>, time: U64): seq<Event> {
    if maps == [] then []
    else MapEvents(exePath, maps[..|maps| - 1], time) + [MapSeen(exePath, SegmentOf(maps[|maps| - 1], time))]
  }

  // An executable, then its maps.
  function Announce(pid: nat, c: CachedProcess, time: U64): seq<Event> {
    [ExeSeen(c.exePath, pid)] + MapEvents(c.exePath, c.maps, time)
  }

  function ReadMaps(p: Process): seq<MapData> {
    if p.maps.Some? then p.maps.value else []
  }

  predicate Known(cache: Cache, p: Process) {
    p.starttime.Some? && p.pid in cache && cache[p.pid].starttime == p.starttime.value
  }

  predicate Due(c: CachedProcess, count: nat, interval: nat) {
    (if c.lastMapScan <= count then count - c.lastMapScan else 0) >= interval
  }

  // What the scanner remembers of a process after visiting it; nothing if it was skipped.
  function Refresh(cache: Cache, p: Process, count: nat, interval: nat): Option<CachedProcess> {
    if p.starttime.None? then None
    else if Known(cache, p) then
      var c := cache[p.pid];
      if Due(c, count, interval) then Some(c.(maps := ReadMaps(p), lastMapScan := count)) else Some(c)
    else if p.exe.None? then None
    else Some(CachedProcess(p.starttime.value, p.exe.value, ReadMaps(p), count))
  }

  function Seen(cache: Cache, p: Process, count: nat, interval: nat, time: U64): seq<Event> {
    var c := Refresh(cache, p, count, interval);
    if c.None? then [] else Announce(p.pid, c.value, time)
  }

  function Remember(seen: Cache, pid: nat, c: Option<CachedProcess>): Cache {
    if c.None? then seen else seen[pid := c.value]
  }

  // The cache after a scan, and the process events of the scan.
  function Found(cache: Cache, procs: seq<Process>, count: nat, interval: nat): Cache {
    if procs == [] then map[]
    else
      var p := procs[|procs| - 1];
      Remember(Found(cache, procs[..|procs| - 1], count, interval), p.pid, Refresh(cache, p, count, interval))
  }

  function Events(cache: Cache, procs: seq<Process>, count: nat, interval: nat, time: U64): seq<Event> {
    if procs == [] then []
    else Events(cache, procs[..|procs| - 1], count, interval, time)
         + Seen(cache, procs[|procs| - 1], count, interval, time)
  }

  /* ---------- bounded staleness ---------- */

  // The cache after a history of scans, one list of processes each.
  function CacheAfter(history: seq<seq<Process>>, interval: nat): Cache {
    if history == [] then map[]
    else
      var n := |history| - 1;
      Found(CacheAfter(history[..n], interval), history[n], n + 1, interval)
  }

  lemma {:induction false} FoundFrom(cache: Cache, procs: seq<Process>, count: nat, interval: nat, pid: nat)
    requires pid in Found(cache, procs, count, interval)
    ensures exists p :: p in procs && p.pid == pid
                        && Refresh(cache, p, count, interval) == Some(Found(cache, procs, count, interval)[pid])
  {
    var n := |procs| - 1;
    var p := procs[n];
    if !(p.pid == pid && Refresh(cache, p, count, interval).Some?) {
      FoundFrom(cache, procs[..n], count, interval, pid);
    }
  }

  // In scan number `k` the maps of `c` were read for the same pid and start time.
  ghost predicate ReadAt(history: seq<seq<Process>>, k: int, pid: nat, c: CachedProcess) {
    1 <= k <= |history|
    && exists p :: p in history[k - 1] && p.pid == pid && p.starttime == Some(c.starttime) && c.maps == ReadMaps(p)
  }

  ghost predicate RecentlyRead(history: seq<seq<Process>>, interval: nat, pid: nat, c: CachedProcess) {
    ReadAt(history, c.lastMapScan, pid, c) && |history| - c.lastMapScan < interval
  }

  // Whatever a scan reports of a process comes from reading its maps, for the same pid and
  // start time, fewer than `interval` scans ago.
  lemma {:induction false} ReportsAreRecent(history: seq<seq<Process>>, interval: nat, p: Process)
    requires interval > 0 && history != [] && p in history[|history| - 1]
    ensures var n := |history| - 1;
            var c := Refresh(CacheAfter(history[..n], interval), p, n + 1, interval);
            c.Some? ==> RecentlyRead(history, interval, p.pid, c.value) && Some(c.value.starttime) == p.starttime
    decreases |history|
  {
    var n := |history| - 1;
    var prev := history[..n];
    var cache := CacheAfter(prev, interval);
    if Known(cache, p) && !Due(cache[p.pid], n + 1, interval) {
      var c := cache[p.pid];
      FoundFrom(CacheAfter(prev[..n - 1], interval), prev[n - 1], n, interval, p.pid);
      var q: Process :| q in prev[n - 1] && q.pid == p.pid && Refresh(CacheAfter(prev[..n - 1], interval), q, n, interval) == Some(c);
      ReportsAreRecent(prev, interval, q);
      assert ReadAt(prev, c.lastMapScan, p.pid, c);
      assert ReadAt(history, c.lastMapScan, p.pid, c);
    } else if p.starttime.Some? && (Known(cache, p) || p.exe.Some?) {
      var c := Refresh(cache, p, n + 1, interval).value;
      assert ReadAt(history, n + 1, p.pid, c);
    }
  }

  /* ---------- equality with a full rescan ---------- */

  // Two readings of one process.
  predicate SameProcess(p: Process, q: Process) {
    p.pid == q.pid && p.starttime == q.starttime && p.starttime.Some?
  }

  // The maps of this process have not changed in the last `interval` scans.
  ghost predicate MapsSteady(history: seq<seq<Process>>, interval: nat, p: Process) {
    forall i, q :: 0 <= i < |history| && |history| - i <= interval && q in history[i] && SameProcess(p, q)
      ==> ReadMaps(q) == ReadMaps(p)
  }

  // Whenever the executable of this process could be read, it was the present one.
  ghost predicate ExeSteady(history: seq<seq<Process>>, p: Process) {
    forall i, q :: 0 <= i < |history| && q in history[i] && SameProcess(p, q) && q.exe.Some? ==> q.exe == p.exe
  }

  // Scan number `k` read this executable for this pid and start time.
  ghost predicate ExeReadAt(history: seq<seq<Process>>, k: int, pid: nat, c: CachedProcess) {
    1 <= k <= |history|
    && exists p :: p in history[k - 1] && p.pid == pid && p.starttime == Some(c.starttime) && p.exe == Some(c.exePath)
  }

  // A cached executable was read at some scan, for the same pid and start time.
  lemma {:induction false} CachedExeWasRead(history: seq<seq<Process>>, interval: nat, pid: nat)
    requires pid in CacheAfter(history, interval)
    ensures exists k :: ExeReadAt(history, k, pid, CacheAfter(history, interval)[pid])
    decreases |history|
  {
    var n := |history| - 1;
    var prev := history[..n];
    var cache, c := CacheAfter(prev, interval), CacheAfter(history, interval)[pid];
    FoundFrom(cache, history[n], n + 1, interval, pid);
    var p: Process :| p in history[n] && p.pid == pid && Refresh(cache, p, n + 1, interval) == Some(c);
    if Known(cache, p) {
      CachedExeWasRead(prev, interval, pid);
      var k :| ExeReadAt(prev, k, pid, cache[pid]);
      assert prev[k - 1] == history[k - 1];
      assert ExeReadAt(history, k, pid, c);
    } else {
      assert ExeReadAt(history, n + 1, pid, c);
    }
  }

  // If a process is steady, its cache entry tells what reading it would.
  lemma KnownIsCurrent(history: seq<seq<Process>>, interval: nat, p: Process)
    requires history != [] && p in history[|history| - 1]
    requires MapsSteady(history, interval, p) && ExeSteady(history, p)
    requires Known(CacheAfter(history[..|history| - 1], interval), p)
    ensures var c := CacheAfter(history[..|history| - 1], interval)[p.pid];
            p.exe == Some(c.exePath) && (Due(c, |history|, interval) || c.maps == ReadMaps(p))
  {
    var n := |history| - 1;
    var prev := history[..n];
    var c := CacheAfter(prev, interval)[p.pid];
    CachedExeWasRead(prev, interval, p.pid);
    if !Due(c, n + 1, interval) {
      ReportsAreRecent(history, interval, p);
      assert ReadAt(history, c.lastMapScan, p.pid, c);
    }
    hide CacheAfter;
    var k :| ExeReadAt(prev, k, p.pid, c);
    assert prev[k - 1] == history[k - 1];
  }

  // For one process, the differential scan reports what a full scan would exactly when the
  // executable is still the cached one and the maps are reread or unchanged.
  lemma AgreesIff(cache: Cache, p: Process, count: nat, interval: nat, time: U64)
    requires Known(cache, p)
    ensures Seen(cache, p, count, interval, time) == Seen(NO_CACHE, p, count, interval, time)
            <==> p.exe == Some(cache[p.pid].exePath)
                 && (Due(cache[p.pid], count, interval) || cache[p.pid].maps == ReadMaps(p))
  {
    var c := cache[p.pid];
    if p.exe.Some? {
      var maps := if Due(c, count, interval) then ReadMaps(p) else c.maps;
      var reported := CachedProcess(c.starttime, c.exePath, maps, count);
      var reread := CachedProcess(c.starttime, p.exe.value, ReadMaps(p), count);
      assert Seen(cache, p, count, interval, time) == Announce(p.pid, reported, time);
      assert Seen(NO_CACHE, p, count, interval, time) == Announce(p.pid, reread, time);
      AnnounceInjective(p.pid, reported, reread, time);
    }
  }

  lemma AnnounceInjective(pid: nat, c: CachedProcess, d: CachedProcess, time: U64)
    ensures Announce(pid, c, time) == Announce(pid, d, time) <==> c.exePath == d.exePath && c.maps == d.maps
  {
    if Announce(pid, c, time) == Announce(pid, d, time) {
      assert Announce(pid, c, time)[0] == Announce(pid, d, time)[0];
      assert Announce(pid, c, time)[1..] == MapEvents(c.exePath, c.maps, time);
      assert Announce(pid, d, time)[1..] == MapEvents(d.exePath, d.maps, time);
      MapEventsInjective(c.exePath, c.maps, d.maps, time);
    }
  }

  lemma {:induction false} MapEventsInjective(exePath: Path, xs: seq<MapData>, ys: seq<MapData>, time: U64)
    requires MapEvents(exePath, xs, time) == MapEvents(exePath, ys, time)
    ensures xs == ys
    decreases |xs|
  {
    if xs != [] && ys != [] {
      var m, n := |xs| - 1, |ys| - 1;
      var es := MapEvents(exePath, xs, time);
      assert es[|es| - 1] == MapSeen(exePath, SegmentOf(xs[m], time)) == MapSeen(exePath, SegmentOf(ys[n], time));
      assert es[..|es| - 1] == MapEvents(exePath, xs[..m], time) == MapEvents(exePath, ys[..n], time);
      MapEventsInjective(exePath, xs[..m], ys[..n], time);
      assert xs == xs[..m] + [xs[m]] && ys == ys[..n] + [ys[n]];
    }
  }

  // A scan reports what a scan with an empty cache would, provided that no process it finds
  // has changed its maps in the last `interval` scans, or its executable while it lived.
  // What other processes ever did, or these long ago, does not matter.
  lemma SteadyScanIsFull(history: seq<seq<Process>>, interval: nat, time: U64)
    requires history != []
    requires forall p :: p in history[|history| - 1] ==> MapsSteady(history, interval, p) && ExeSteady(history, p)
    ensures var n := |history| - 1;
            Events(CacheAfter(history[..n], interval), history[n], n + 1, interval, time)
            == Events(NO_CACHE, history[n], n + 1, interval, time)
  {
    var n := |history| - 1;
    var cache := CacheAfter(history[..n], interval);
    hide MapsSteady, ExeSteady, CacheAfter, Announce, Events;
    forall p | p in history[n]
      ensures Seen(cache, p, n + 1, interval, time) == Seen(NO_CACHE, p, n + 1, interval, time)
    {
      if Known(cache, p) {
        KnownIsCurrent(history, interval, p);
        AgreesIff(cache, p, n + 1, interval, time);
      }
    }
    SameSeenSameEvents(cache, NO_CACHE, history[n], n + 1, interval, time);
  }

  lemma {:induction false} SameSeenSameEvents(c1: Cache, c2: Cache, procs: seq<Process>, count: nat, interval: nat, time: U64)
    requires forall p :: p in procs ==> Seen(c1, p, count, interval, time) == Seen(c2, p, count, interval, time)
    ensures Events(c1, procs, count, interval, time) == Events(c2, procs, count, interval, time)
  {
    if procs != [] {
      SameSeenSameEvents(c1, c2, procs[..|procs| - 1], count, interval, time);
    }
  }

  // The scan shows the process, and its start time can be read.
  ghost predicate Alive(procs: seq<Process>, pid: nat, starttime: U64) {
    && (exists p :: p in procs && p.pid == pid)
    && (forall p :: p in procs && p.pid == pid ==> p.starttime == Some(starttime))
  }

  lemma {:induction false} MapEventsAre(exePath: Path, maps: seq<MapData>, time: U64)
    ensures |MapEvents(exePath, maps, time)| == |maps|
    ensures forall i :: 0 <= i < |maps| ==>
              MapEvents(exePath, maps, time)[i]
              == MapSeen(exePath, MapSegment(maps[i].path, maps[i].offset, maps[i].length, time, maps[i].device, maps[i].inode))
    decreases |maps|
  {
    if maps != [] {
      MapEventsAre(exePath, maps[..|maps| - 1], time);
    }
  }

  // What announcing a process says: its executable under its pid, and then each of its maps
  // as it was read.
  lemma AnnouncesReadings(pid: nat, c: CachedProcess, time: U64)
    ensures var events := Announce(pid, c, time);
            && |events| == 1 + |c.maps| && events[0] == ExeSeen(c.exePath, pid)
            && forall i :: 0 <= i < |c.maps| ==>
                 var d := c.maps[i];
                 events[i + 1] == MapSeen(c.exePath, MapSegment(d.path, d.offset, d.length, time, d.device, d.inode))
  {
    MapEventsAre(c.exePath, c.maps, time);
  }

  // The maps of a living process are kept for exactly `interval` scans and then read again.
  lemma {:induction false} MapsKeptForInterval(cache: Cache, later: seq<seq<Process>>, count: nat, interval: nat, pid: nat)
    requires pid in cache && cache[pid].lastMapScan == count && |later| <= interval
    requires forall i :: 0 <= i < |later| ==> Alive(later[i], pid, cache[pid].starttime)
    ensures pid in CacheFrom(cache, later, count, interval)
    ensures var c := CacheFrom(cache, later, count, interval)[pid];
            if later == [] || |later| < interval then c == cache[pid]
            else c.lastMapScan == count + interval && exists p :: p in later[|later| - 1] && p.pid == pid && c.maps == ReadMaps(p)
    decreases |later|
  {
    if later != [] {
      var n := |later| - 1;
      MapsKeptForInterval(cache, later[..n], count, interval, pid);
      var prev := CacheFrom(cache, later[..n], count, interval);
      assert Alive(later[n], pid, cache[pid].starttime);
      var p: Process :| p in later[n] && p.pid == pid;
      assert Refresh(prev, p, count + n + 1, interval).Some?;
      VisitedIsFound(prev, later[n], count + n + 1, interval, p);
      FoundFrom(prev, later[n], count + n + 1, interval, pid);
    }
  }

  // The executable, unlike the maps, is never read again while the process lives: a process
  // that starts another program in place is reported under its old one for good.
  lemma {:induction false} ExeNeverReread(cache: Cache, later: seq<seq<Process>>, count: nat, interval: nat, pid: nat)
    requires pid in cache
    requires forall i :: 0 <= i < |later| ==> Alive(later[i], pid, cache[pid].starttime)
    ensures var c := CacheFrom(cache, later, count, interval);
            pid in c && c[pid].exePath == cache[pid].exePath && c[pid].starttime == cache[pid].starttime
    decreases |later|
  {
    if later != [] {
      var n := |later| - 1;
      ExeNeverReread(cache, later[..n], count, interval, pid);
      var prev := CacheFrom(cache, later[..n], count, interval);
      assert Alive(later[n], pid, cache[pid].starttime);
      var p: Process :| p in later[n] && p.pid == pid;
      assert Refresh(prev, p, count + n + 1, interval).Some?;
      VisitedIsFound(prev, later[n], count + n + 1, interval, p);
      FoundFrom(prev, later[n], count + n + 1, interval, pid);
    }
  }

  function CacheFrom(cache: Cache, later: seq<seq<Process>>, count: nat, interval: nat): Cache {
    if later == [] then cache
    else
      var n := |later| - 1;
      Found(CacheFrom(cache, later[..n], count, interval), later[n], count + n + 1, interval)
  }

  lemma {:induction false} VisitedIsFound(cache: Cache, procs: seq<Process>, count: nat, interval: nat, p: Process)
    requires p in procs && Refresh(cache, p, count, interval).Some?
    ensures p.pid in Found(cache, procs, count, interval)
  {
    var n := |procs| - 1;
    if procs[n] != p {
      assert procs == procs[..n] + [procs[n]];
      VisitedIsFound(cache, procs[..n], count, interval, p);
    }
  }

  // A shell that becomes an editor between two scans is still reported as a shell.
  lemma ReplacedProgramMisreported(time: U64)
    ensures var before := Process(7, Some(1), Some("/bin/sh"), Some([]));
            var after := before.(exe := Some("/bin/ed"));
            var cache := CacheAfter([[before]], DEFAULT_MAP_RESCAN_INTERVAL);
            && Events(cache, [after], 2, DEFAULT_MAP_RESCAN_INTERVAL, time) == [ExeSeen("/bin/sh", 7)]
            && Events(NO_CACHE, [after], 2, DEFAULT_MAP_RESCAN_INTERVAL, time) == [ExeSeen("/bin/ed", 7)]
  {
  }

  /* ---------- announcing ---------- */

  lemma AnnouncedJoin(xs: seq<Event>, ys: seq<Event>)
    requires Announced(xs) && Announced(ys)
    ensures Announced(xs + ys)
  {
    var es := xs + ys;
    forall i | 0 <= i < |es| && es[i].MapSeen?
      ensures exists j :: 0 <= j < i && es[j].ExeSeen? && es[j].path == es[i].exePath
    {
      if i < |xs| {
        var j :| 0 <= j < i && xs[j].ExeSeen? && xs[j].path == xs[i].exePath;
        assert es[j] == xs[j];
      } else {
        var k := i - |xs|;
        assert ys[k].MapSeen?;
        var j :| 0 <= j < k && ys[j].ExeSeen? && ys[j].path == ys[k].exePath;
        assert es[|xs| + j] == ys[j];
      }
    }
  }

  lemma {:induction false} MapEventsOf(exePath: Path, maps: seq<MapData>, time: U64)
    ensures forall e :: e in MapEvents(exePath, maps, time) ==> e.MapSeen? && e.exePath == exePath
  {
    if maps != [] {
      MapEventsOf(exePath, maps[..|maps| - 1], time);
    }
  }

  lemma SeenAnnounced(cache: Cache, p: Process, count: nat, interval: nat, time: U64)
    ensures Announced(Seen(cache, p, count, interval, time))
    ensures forall e :: e in Seen(cache, p, count, interval, time) ==> e.ExeSeen? || e.MapSeen?
  {
    var c := Refresh(cache, p, count, interval);
    if c.Some? {
      MapEventsOf(c.value.exePath, c.value.maps, time);
      var es := Announce(p.pid, c.value, time);
      forall i | 0 <= i < |es| && es[i].MapSeen?
        ensures exists j :: 0 <= j < i && es[j].ExeSeen? && es[j].path == es[i].exePath
      {
        assert es[i] in MapEvents(c.value.exePath, c.value.maps, time);
        assert es[0].ExeSeen? && es[0].path == es[i].exePath;
      }
    }
  }

  lemma {:induction false} EventsAnnounced(cache: Cache, procs: seq<Process>, count: nat, interval: nat, time: U64)
    ensures Announced(Events(cache, procs, count, interval, time))
    ensures forall e :: e in Events(cache, procs, count, interval, time) ==> e.ExeSeen? || e.MapSeen?
  {
    if procs != [] {
      var n := |procs| - 1;
      EventsAnnounced(cache, procs[..n], count, interval, time);
      SeenAnnounced(cache, procs[n], count, interval, time);
      hide Announced, Seen;
      AnnouncedJoin(Events(cache, procs[..n], count, interval, time), Seen(cache, procs[n], count, interval, time));
    }
  }

  class ProcfsScanner {
    const fanotify: FanotifyWatcher?
    const mapRescanInterval: nat
    var cache: Cache
    var scanCount: nat

    ghost predicate Valid()
      reads this, fanotify
    {
      fanotify != null ==> fanotify.Valid()
    }

    constructor (fanotify: FanotifyWatcher?)
      requires fanotify != null ==> fanotify.Valid()
      ensures Valid() && this.fanotify == fanotify
      ensures cache == map[] && scanCount == 0 && mapRescanInterval == DEFAULT_MAP_RESCAN_INTERVAL
    {
      this.fanotify, mapRescanInterval := fanotify, DEFAULT_MAP_RESCAN_INTERVAL;
      cache, scanCount := map[], 0;
    }

    // Reporting the maps just read, or the cached ones: the same loop over a list.
    method PushMaps(exePath: Path, maps: seq<MapData>, time: U64, events: seq<Event>) returns (pushed: seq<Event>)
      ensures pushed == events + MapEvents(exePath, maps, time)
    {
      pushed := events;
      for i := 0 to |maps|
        invariant pushed == events + MapEvents(exePath, maps[..i], time)
      {
        assert maps[..i + 1][..i] == maps[..i];
        pushed := pushed + [MapSeen(exePath, SegmentOf(maps[i], time))];
      }
      assert maps[..|maps|] == maps;
    }

    // One process: what to remember of it, and its events.
    method Visit(p: Process, time: U64, events: seq<Event>) returns (found: Option<CachedProcess>, pushed: seq<Event>)
      ensures found == Refresh(cache, p, scanCount, mapRescanInterval)
      ensures pushed == events + Seen(cache, p, scanCount, mapRescanInterval, time)
    {
      if p.starttime.None? {
        return None, events;
      }
      var starttime := p.starttime.value;
      if p.pid in cache && cache[p.pid].starttime == starttime {
        var cached := cache[p.pid];
        pushed := events + [ExeSeen(cached.exePath, p.pid)];
        var cyclesSince := if cached.lastMapScan <= scanCount then scanCount - cached.lastMapScan else 0;
        if cyclesSince >= mapRescanInterval {
          pushed := PushMaps(cached.exePath, ReadMaps(p), time, pushed);
          found := Some(CachedProcess(starttime, cached.exePath, ReadMaps(p), scanCount));
        } else {
          pushed := PushMaps(cached.exePath, cached.maps, time, pushed);
          found := Some(cached);
        }
      } else {
        if p.exe.None? {
          return None, events;
        }
        pushed := events + [ExeSeen(p.exe.value, p.pid)];
        pushed := PushMaps(p.exe.value, ReadMaps(p), time, pushed);
        found := Some(CachedProcess(starttime, p.exe.value, ReadMaps(p), scanCount));
      }
    }

    method VisitAll(procs: seq<Process>, time: U64) returns (seen: Cache, events: seq<Event>)
      ensures seen == Found(cache, procs, scanCount, mapRescanInterval)
      ensures events == Events(cache, procs, scanCount, mapRescanInterval, time)
    {
      seen, events := map[], [];
      for i := 0 to |procs|
        invariant seen == Found(cache, procs[..i], scanCount, mapRescanInterval)
        invariant events == Events(cache, procs[..i], scanCount, mapRescanInterval, time)
      {
        hide Refresh, Seen;
        assert procs[..i + 1][..i] == procs[..i];
        var found;
        found, events := Visit(procs[i], time, events);
        if found.Some? {
          seen := seen[procs[i].pid := found.value];
        }
      }
      assert procs[..|procs|] == procs;
    }

    // A scan: begin marker, processes, file-open events, memory, end marker.
    method Scan(procs: seq<Process>, mem: Option<MemStat>, time: U64, scanId: U64) returns (events: seq<Event>, ghost opens: seq<Event>)
      requires Valid()
      modifies this, fanotify
      ensures Valid() && scanCount == old(scanCount) + 1
      ensures cache == Found(old(cache), procs, scanCount, mapRescanInterval)
      ensures fanotify == null ==> opens == []
      ensures fanotify != null ==> fanotify.View() == EMPTY_BUFFER && Delivers(old(fanotify.View()), time, opens)
      ensures events == [ObsBegin(time, scanId)] + Events(old(cache), procs, scanCount, mapRescanInterval, time) + opens
                        + (if mem.Some? then [MemSeen(mem.value)] else []) + [ObsEnd(time, scanId)]
      ensures TimedAt(events, time) && Announced(events)
    {
      hide Found, Events, Announced, Delivers;
      scanCount := scanCount + 1;
      events, opens := [ObsBegin(time, scanId)], [];
      var seen, processEvents := VisitAll(procs, time);
      EventsAnnounced(cache, procs, scanCount, mapRescanInterval, time);
      NoMaps(events);
      AnnouncedJoin(events, processEvents);
      events := events + processEvents;
      cache := seen;
      if fanotify != null {
        var fanEvents := fanotify.Drain(time);
        opens := fanEvents;
        AnnouncedJoin(events, fanEvents);
        DeliveredKinds(old(fanotify.View()), time, fanEvents);
        events := events + fanEvents;
      }
      ghost var report := events;
      ghost var ending := (if mem.Some? then [MemSeen(mem.value)] else []) + [ObsEnd(time, scanId)];
      NoMaps(ending);
      AnnouncedJoin(report, ending);
      if mem.Some? {
        events := events + [MemSeen(mem.value)];
      }
      events := events + [ObsEnd(time, scanId)];
      assert events == report + ending;
    }
  }

  // What the outside world contributes to one scan.
  datatype Round = Round(procs: seq<Process>, mem: Option<MemStat>, time: U64, scanId: U64)

  function HistoryOf(rounds: seq<Round>): (history: seq<seq<Process>>)
    ensures |history| == |rounds|
  {
    seq(|rounds|, i requires 0 <= i < |rounds| => rounds[i].procs)
  }

  // After its begin marker a scan reports these process events.
  ghost predicate Reports(events: seq<Event>, processEvents: seq<Event>) {
    |processEvents| < |events| && events[0].ObsBegin? && events[1..|processEvents| + 1] == processEvents
  }

  // Scan number `i` of a life that started with an empty cache.
  ghost predicate ReportsRound(reports: seq<seq<Event>>, rounds: seq<Round>, interval: nat, i: nat)
    requires i < |reports| == |rounds|
  {
    && Announced(reports[i])
    && Reports(reports[i], Events(CacheAfter(HistoryOf(rounds[..i]), interval), rounds[i].procs, i + 1, interval, rounds[i].time))
  }

  ghost predicate AllReported(reports: seq<seq<Event>>, rounds: seq<Round>, interval: nat) {
    |reports| == |rounds| && forall i :: 0 <= i < |rounds| ==> ReportsRound(reports, rounds, interval, i)
  }

  lemma HistoryStep(rounds: seq<Round>, i: nat, interval: nat)
    requires i < |rounds|
    ensures CacheAfter(HistoryOf(rounds[..i + 1]), interval)
            == Found(CacheAfter(HistoryOf(rounds[..i]), interval), rounds[i].procs, i + 1, interval)
  {
    var history := HistoryOf(rounds[..i + 1]);
    assert history[..i] == HistoryOf(rounds[..i]);
  }

  // A life of the scanner: after any number of scans the cache is the one their history
  // explains, and every scan has reported its processes accordingly.
  method ScanAll(scanner: ProcfsScanner, rounds: seq<Round>) returns (reports: seq<seq<Event>>)
    requires scanner.Valid() && scanner.cache == map[] && scanner.scanCount == 0
    modifies scanner, scanner.fanotify
    ensures scanner.Valid() && scanner.scanCount == |rounds|
    ensures scanner.cache == CacheAfter(HistoryOf(rounds), scanner.mapRescanInterval)
    ensures AllReported(reports, rounds, scanner.mapRescanInterval)
  {
    ghost var interval := scanner.mapRescanInterval;
    reports := [];
    assert HistoryOf(rounds[..0]) == [];
    for i := 0 to |rounds|
      invariant scanner.Valid() && scanner.scanCount == i
      invariant scanner.cache == CacheAfter(HistoryOf(rounds[..i]), interval)
      invariant AllReported(reports, rounds[..i], interval)
    {
      hide Events, Found, Announced, CacheAfter, AllReported, HistoryOf, Delivers, ProcfsScanner.Valid;
      HistoryStep(rounds, i, interval);
      var events, opens := scanner.Scan(rounds[i].procs, rounds[i].mem, rounds[i].time, rounds[i].scanId);
      RoundReported(reports, events, rounds, interval, i, opens);
      reports := reports + [events];
    }
    assert rounds[..|rounds|] == rounds;
  }

  lemma RoundReported(reports: seq<seq<Event>>, events: seq<Event>, rounds: seq<Round>, interval: nat, i: nat, opens: seq<Event>)
    requires i < |rounds| && AllReported(reports, rounds[..i], interval) && Announced(events)
    requires var r := rounds[i];
             events == [ObsBegin(r.time, r.scanId)]
                       + Events(CacheAfter(HistoryOf(rounds[..i]), interval), r.procs, i + 1, interval, r.time) + opens
                       + (if r.mem.Some? then [MemSeen(r.mem.value)] else []) + [ObsEnd(r.time, r.scanId)]
    ensures AllReported(reports + [events], rounds[..i + 1], interval)
  {
    hide Events, CacheAfter, Announced;
    var more := rounds[..i + 1];
    forall j | 0 <= j < i + 1
      ensures ReportsRound(reports + [events], more, interval, j)
    {
      assert more[..j] == rounds[..j] && more[j] == rounds[j];
      if j < i {
        assert ReportsRound(reports, rounds[..i], interval, j);
        assert rounds[..i][..j] == rounds[..j];
      }
    }
  }

  lemma NoMaps(events: seq<Event>)
    requires forall i :: 0 <= i < |events| ==> !events[i].MapSeen?
    ensures Announced(events)
  {
  }

  lemma DeliveredKinds(b: Buffer, time: U64, events: seq<Event>)
    requires Delivers(b, time, events)
    ensures forall e :: e in events ==> e.ExeSeen? || e.MapSeen?
  {
  }
}
