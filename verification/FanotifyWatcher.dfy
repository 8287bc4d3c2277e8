/**
 File-open events collected between scans: a reader thread inserts into a buffer under a
 lock, and every scan takes the whole buffer.  Each locked section is one atomic step.
 */
module FanotifyWatcherModule {
  import opened Domain
  import opened Enumeration
  import opened Observation

  datatype FileMeta = FileMeta(size: U64, device: U64, inode: U64)

  // What the reader learns about one event; links and metadata may be unreadable.
  datatype Opening = Opening(pid: int, file: Option<Path>, regular: Option<FileMeta>, exe: Option<Path>)

  const SKIP_PREFIXES: seq<Path> := ["/proc/", "/sys/", "/dev/", "/tmp/", "/run/", "/var/run/", "/var/lock/"]

  // Foreign processes opening non-empty regular files outside the virtual file systems.
  predicate Relevant(o: Opening, selfPid: int) {
    && o.pid != selfPid && o.pid > 0
    && o.file.Some? && (forall p :: p in SKIP_PREFIXES ==> !(p <= o.file.value))
    && o.regular.Some? && o.regular.value.size > 0
    && o.exe.Some?
  }

  datatype Buffer = Buffer(exes: map<Path, nat>, maps: map<(Path, Path), FileMeta>)

  const EMPTY_BUFFER: Buffer := Buffer(map[], map[])

  // The first pid of an executable and the first metadata of a pair are kept.
  function Insert(b: Buffer, o: Opening, selfPid: int): Buffer {
    if !Relevant(o, selfPid) then b
    else
      var exe, pair := o.exe.value, (o.exe.value, o.file.value);
      Buffer(if exe in b.exes then b.exes else b.exes[exe := o.pid],
             if pair in b.maps then b.maps else b.maps[pair := o.regular.value])
  }

  function ExeEvent(b: Buffer, exe: Path): Event
    requires exe in b.exes
  {
    ExeSeen(exe, b.exes[exe])
  }

  function MapEvent(b: Buffer, pair: (Path, Path), time: U64): Event
    requires pair in b.maps
  {
    var fm := b.maps[pair];
    MapSeen(pair.0, MapSegment(pair.1, 0, fm.size, time, fm.device, fm.inode))
  }

  // A drain delivers each buffered executable and each buffered pair once, and nothing else.
  ghost predicate Delivers(b: Buffer, time: U64, events: seq<Event>) {
    && (forall exe :: exe in b.exes ==> ExeEvent(b, exe) in events)
    && (forall pair :: pair in b.maps ==> MapEvent(b, pair, time) in events)
    && (forall i :: 0 <= i < |events| ==>
          match events[i]
          case ExeSeen(path, _) => path in b.exes && events[i] == ExeEvent(b, path)
          case MapSeen(exe, s) => (exe, s.path) in b.maps && events[i] == MapEvent(b, (exe, s.path), time)
          case _ => false)
    && (forall i, j :: 0 <= i < j < |events| ==> events[i] != events[j])
  }

  /* ---------- every interleaving ---------- */

  datatype Step = Opened(o: Opening) | Drained

  // The buffer after any interleaving of reader inserts and drains.
  function BufferAfter(log: seq<Step>, selfPid: int): Buffer {
    if log == [] then EMPTY_BUFFER
    else
      var before := BufferAfter(log[..|log| - 1], selfPid);
      match log[|log| - 1]
      case Opened(o) => Insert(before, o, selfPid)
      case Drained => EMPTY_BUFFER
  }

  // Step `i` recorded a relevant opening that no drain has taken yet.
  ghost predicate Pending(log: seq<Step>, selfPid: int, i: int) {
    && 0 <= i < |log| && log[i].Opened? && Relevant(log[i].o, selfPid)
    && forall j :: i < j < |log| ==> !log[j].Drained?
  }

  ghost predicate FirstPending(log: seq<Step>, selfPid: int, i: int, exe: Path, file: Path) {
    && Pending(log, selfPid, i) && log[i].o.exe.value == exe && log[i].o.file.value == file
    && forall j :: 0 <= j < i && Pending(log, selfPid, j) ==> log[j].o.exe.value != exe || log[j].o.file.value != file
  }

  lemma PendingPrefix(log: seq<Step>, selfPid: int, i: int)
    requires log != [] && !log[|log| - 1].Drained?
    ensures i < |log| - 1 ==> (Pending(log[..|log| - 1], selfPid, i) <==> Pending(log, selfPid, i))
  {
  }

  // At any moment the buffer holds exactly the pairs opened since the last drain, each with
  // the metadata of its first opening.  So the next drain delivers each of them, once.
  lemma {:induction false} BufferHoldsPending(log: seq<Step>, selfPid: int, exe: Path, file: Path)
    ensures (exe, file) in BufferAfter(log, selfPid).maps
            <==> exists i :: Pending(log, selfPid, i) && log[i].o.exe.value == exe && log[i].o.file.value == file
    ensures forall i :: FirstPending(log, selfPid, i, exe, file)
                        ==> BufferAfter(log, selfPid).maps[(exe, file)] == log[i].o.regular.value
    decreases |log|
  {
    if log != [] && !log[|log| - 1].Drained? {
      var n := |log| - 1;
      var prev := log[..n];
      BufferHoldsPending(prev, selfPid, exe, file);
      forall i | i < n
        ensures Pending(prev, selfPid, i) <==> Pending(log, selfPid, i)
      {
        PendingPrefix(log, selfPid, i);
      }
      if i :| Pending(prev, selfPid, i) && prev[i].o.exe.value == exe && prev[i].o.file.value == file {
        assert Pending(log, selfPid, i);
      }
      forall i | FirstPending(log, selfPid, i, exe, file)
        ensures BufferAfter(log, selfPid).maps[(exe, file)] == log[i].o.regular.value
      {
        if i < n {
          assert FirstPending(prev, selfPid, i, exe, file);
        }
      }
    }
  }

  ghost predicate FirstPendingExe(log: seq<Step>, selfPid: int, i: int, exe: Path) {
    && Pending(log, selfPid, i) && log[i].o.exe.value == exe
    && forall j :: 0 <= j < i && Pending(log, selfPid, j) ==> log[j].o.exe.value != exe
  }

  // Likewise for the executables, each with the pid of its first opening.
  lemma {:induction false} BufferHoldsOpeners(log: seq<Step>, selfPid: int, exe: Path)
    ensures exe in BufferAfter(log, selfPid).exes <==> exists i :: Pending(log, selfPid, i) && log[i].o.exe.value == exe
    ensures forall i :: FirstPendingExe(log, selfPid, i, exe) ==> BufferAfter(log, selfPid).exes[exe] == log[i].o.pid
    decreases |log|
  {
    if log != [] && !log[|log| - 1].Drained? {
      var n := |log| - 1;
      var prev := log[..n];
      BufferHoldsOpeners(prev, selfPid, exe);
      forall i | i < n
        ensures Pending(prev, selfPid, i) <==> Pending(log, selfPid, i)
      {
        PendingPrefix(log, selfPid, i);
      }
      if i :| Pending(prev, selfPid, i) && prev[i].o.exe.value == exe {
        assert Pending(log, selfPid, i);
      }
      forall i | FirstPendingExe(log, selfPid, i, exe)
        ensures BufferAfter(log, selfPid).exes[exe] == log[i].o.pid
      {
        if i < n {
          assert FirstPendingExe(prev, selfPid, i, exe);
        }
      }
    }
  }

  // No buffered pair lacks its executable.
  lemma {:induction false} BufferAnnounces(log: seq<Step>, selfPid: int)
    ensures var b := BufferAfter(log, selfPid); forall pair :: pair in b.maps ==> pair.0 in b.exes
    decreases |log|
  {
    if log != [] {
      BufferAnnounces(log[..|log| - 1], selfPid);
    }
  }

  lemma {:induction false} FirstOpening(log: seq<Step>, selfPid: int, i: int, exe: Path, file: Path)
    requires Pending(log, selfPid, i) && log[i].o.exe.value == exe && log[i].o.file.value == file
    ensures exists f :: FirstPending(log, selfPid, f, exe, file)
    decreases i
  {
    if j :| 0 <= j < i && Pending(log, selfPid, j) && log[j].o.exe.value == exe && log[j].o.file.value == file {
      FirstOpening(log, selfPid, j, exe, file);
    } else {
      assert FirstPending(log, selfPid, i, exe, file);
    }
  }

  lemma {:induction false} FirstOpeningOfExe(log: seq<Step>, selfPid: int, i: int, exe: Path)
    requires Pending(log, selfPid, i) && log[i].o.exe.value == exe
    ensures exists f :: FirstPendingExe(log, selfPid, f, exe)
    decreases i
  {
    if j :| 0 <= j < i && Pending(log, selfPid, j) && log[j].o.exe.value == exe {
      FirstOpeningOfExe(log, selfPid, j, exe);
    } else {
      assert FirstPendingExe(log, selfPid, i, exe);
    }
  }

  // What a drain delivers, told by the openings: for each file opened since the last drain a
  // map of the whole file as it was at its first opening, and nothing else.
  lemma DrainReportsOpenings(log: seq<Step>, selfPid: int, time: U64, events: seq<Event>, exe: Path, s: MapSegment)
    requires Delivers(BufferAfter(log, selfPid), time, events)
    ensures MapSeen(exe, s) in events
            <==> exists i :: FirstPending(log, selfPid, i, exe, s.path)
                             && s == MapSegment(s.path, 0, log[i].o.regular.value.size, time,
                                                log[i].o.regular.value.device, log[i].o.regular.value.inode)
  {
    var b := BufferAfter(log, selfPid);
    BufferHoldsPending(log, selfPid, exe, s.path);
    hide BufferAfter;
    if MapSeen(exe, s) in events {
      assert (exe, s.path) in b.maps && MapSeen(exe, s) == MapEvent(b, (exe, s.path), time);
      var i :| Pending(log, selfPid, i) && log[i].o.exe.value == exe && log[i].o.file.value == s.path;
      FirstOpening(log, selfPid, i, exe, s.path);
    }
    if i :| FirstPending(log, selfPid, i, exe, s.path)
            && s == MapSegment(s.path, 0, log[i].o.regular.value.size, time, log[i].o.regular.value.device, log[i].o.regular.value.inode)
    {
      assert MapEvent(b, (exe, s.path), time) == MapSeen(exe, s);
    }
  }

  // Likewise for the executables, each under the pid of its first opening.
  lemma DrainReportsOpeners(log: seq<Step>, selfPid: int, time: U64, events: seq<Event>, exe: Path, pid: nat)
    requires Delivers(BufferAfter(log, selfPid), time, events)
    ensures ExeSeen(exe, pid) in events <==> exists i :: FirstPendingExe(log, selfPid, i, exe) && log[i].o.pid == pid
  {
    var b := BufferAfter(log, selfPid);
    BufferHoldsOpeners(log, selfPid, exe);
    hide BufferAfter, MapEvent;
    if ExeSeen(exe, pid) in events {
      assert exe in b.exes && ExeSeen(exe, pid) == ExeEvent(b, exe);
      var i :| Pending(log, selfPid, i) && log[i].o.exe.value == exe;
      FirstOpeningOfExe(log, selfPid, i, exe);
    }
    if i :| FirstPendingExe(log, selfPid, i, exe) && log[i].o.pid == pid {
      assert ExeEvent(b, exe) == ExeSeen(exe, pid);
    }
  }

  // Files that live in memory or come and go with a session.
  predicate Passing(file: Path) {
    "/proc/" <= file || "/sys/" <= file || "/dev/" <= file || "/tmp/" <= file || "/run/" <= file
    || "/var/run/" <= file || "/var/lock/" <= file
  }

  // Only lasting, non-empty files opened by other processes are ever reported.
  lemma ReportedIsForeign(log: seq<Step>, selfPid: int, time: U64, events: seq<Event>, exe: Path, s: MapSegment)
    requires Delivers(BufferAfter(log, selfPid), time, events) && MapSeen(exe, s) in events
    ensures s.length > 0 && !Passing(s.path)
    ensures exists i :: 0 <= i < |log| && log[i].Opened? && log[i].o.pid > 0 && log[i].o.pid != selfPid
                        && log[i].o.file == Some(s.path) && log[i].o.exe == Some(exe)
  {
    DrainReportsOpenings(log, selfPid, time, events, exe, s);
    hide Delivers, BufferAfter;
    var i :| FirstPending(log, selfPid, i, exe, s.path)
             && s == MapSegment(s.path, 0, log[i].o.regular.value.size, time, log[i].o.regular.value.device, log[i].o.regular.value.inode);
    PassingIsSkipped(s.path);
  }

  lemma PassingIsSkipped(file: Path)
    ensures Passing(file) <==> exists p :: p in SKIP_PREFIXES && p <= file
  {
    var ps := SKIP_PREFIXES;
    assert ps[0] == "/proc/" && ps[1] == "/sys/" && ps[2] == "/dev/" && ps[3] == "/tmp/";
    assert ps[4] == "/run/" && ps[5] == "/var/run/" && ps[6] == "/var/lock/";
    assert forall i :: 0 <= i < |ps| ==> ps[i] in SKIP_PREFIXES;
    assert forall i :: 0 <= i < |ps| && ps[i] <= file ==> Passing(file);
    if p :| p in SKIP_PREFIXES && p <= file {
      var i :| 0 <= i < |ps| && ps[i] == p;
      assert ps[i] <= file;
    }
  }

  // And every such opening is buffered.
  lemma ForeignIsBuffered(b: Buffer, o: Opening, selfPid: int)
    requires o.pid > 0 && o.pid != selfPid && o.exe.Some? && o.file.Some? && !Passing(o.file.value)
    requires o.regular.Some? && o.regular.value.size > 0
    ensures (o.exe.value, o.file.value) in Insert(b, o, selfPid).maps && o.exe.value in Insert(b, o, selfPid).exes
  {
    PassingIsSkipped(o.file.value);
  }

  class FanotifyWatcher {
    var exes: map<Path, nat>
    var maps: map<(Path, Path), FileMeta>

    ghost predicate Valid()
      reads this
    {
      forall pair :: pair in maps ==> pair.0 in exes
    }

    function View(): Buffer
      reads this
    {
      Buffer(exes, maps)
    }

    constructor ()
      ensures Valid() && View() == EMPTY_BUFFER
    {
      exes, maps := map[], map[];
    }

    // One round of the reader loop; the insertion is its locked section.
    method Record(o: Opening, selfPid: int)
      requires Valid()
      modifies this
      ensures Valid() && View() == Insert(old(View()), o, selfPid)
    {
      if o.pid == selfPid || o.pid <= 0 {
        return;
      }
      if o.file.None? || exists p :: p in SKIP_PREFIXES && p <= o.file.value {
        return;
      }
      if o.regular.None? || o.regular.value.size == 0 || o.exe.None? {
        return;
      }
      var exe, file := o.exe.value, o.file.value;
      if exe !in exes {
        exes := exes[exe := o.pid];
      }
      if (exe, file) !in maps {
        maps := maps[(exe, file) := o.regular.value];
      }
    }

    method Drain(time: U64) returns (events: seq<Event>)
      requires Valid()
      modifies this
      ensures Valid() && View() == EMPTY_BUFFER
      ensures Delivers(old(View()), time, events) && Announced(events)
    {
      var b := Buffer(exes, maps);
      exes, maps := map[], map[];
      events := Deliver(b, time);
    }
  }

  // Executable events first, map events after them.
  ghost predicate Laid(b: Buffer, time: U64, paths: seq<Path>, pairs: seq<(Path, Path)>, events: seq<Event>) {
    && |events| == |paths| + |pairs|
    && (forall k :: 0 <= k < |paths| ==> paths[k] in b.exes && events[k] == ExeEvent(b, paths[k]))
    && (forall k :: |paths| <= k < |events| ==> pairs[k - |paths|] in b.maps && events[k] == MapEvent(b, pairs[k - |paths|], time))
  }

  lemma LaidOut(b: Buffer, time: U64, paths: seq<Path>, pairs: seq<(Path, Path)>, exes: seq<Event>, maps: seq<Event>)
    requires |exes| == |paths| && forall k :: 0 <= k < |paths| ==> paths[k] in b.exes && exes[k] == ExeEvent(b, paths[k])
    requires |maps| == |pairs| && forall k :: 0 <= k < |pairs| ==> pairs[k] in b.maps && maps[k] == MapEvent(b, pairs[k], time)
    ensures Laid(b, time, paths, pairs, exes + maps)
  {
  }

  lemma LaidAnnounced(b: Buffer, time: U64, paths: seq<Path>, pairs: seq<(Path, Path)>, events: seq<Event>)
    requires forall pair :: pair in b.maps ==> pair.0 in b.exes
    requires Enumerates(paths, b.exes.Keys) && Laid(b, time, paths, pairs, events)
    ensures Announced(events)
  {
    forall i | 0 <= i < |events| && events[i].MapSeen?
      ensures exists j :: 0 <= j < i && events[j].ExeSeen? && events[j].path == events[i].exePath
    {
      var exe := pairs[i - |paths|].0;
      assert exe in paths;
      var j :| 0 <= j < |paths| && paths[j] == exe;
      assert events[j].path == exe;
    }
  }

  lemma LaidDelivers(b: Buffer, time: U64, paths: seq<Path>, pairs: seq<(Path, Path)>, events: seq<Event>)
    requires Enumerates(paths, b.exes.Keys) && Enumerates(pairs, b.maps.Keys)
    requires Laid(b, time, paths, pairs, events)
    ensures Delivers(b, time, events)
  {
    forall exe | exe in b.exes
      ensures ExeEvent(b, exe) in events
    {
      var k :| 0 <= k < |paths| && paths[k] == exe;
      assert events[k] == ExeEvent(b, exe);
    }
    forall pair | pair in b.maps
      ensures MapEvent(b, pair, time) in events
    {
      var k :| 0 <= k < |pairs| && pairs[k] == pair;
      assert pairs[|paths| + k - |paths|] == pair;
      assert events[|paths| + k] == MapEvent(b, pair, time);
    }
    forall i, j | 0 <= i < j < |events|
      ensures events[i] != events[j]
    {
      if j >= |paths| && i >= |paths| {
        assert pairs[i - |paths|] != pairs[j - |paths|];
      }
    }
  }

  method PushExes(b: Buffer, paths: seq<Path>) returns (events: seq<Event>)
    requires forall k :: 0 <= k < |paths| ==> paths[k] in b.exes
    ensures |events| == |paths| && forall k :: 0 <= k < |paths| ==> events[k] == ExeEvent(b, paths[k])
  {
    events := [];
    for i := 0 to |paths|
      invariant |events| == i && forall k :: 0 <= k < i ==> events[k] == ExeEvent(b, paths[k])
    {
      events := events + [ExeSeen(paths[i], b.exes[paths[i]])];
    }
  }

  method PushMaps(b: Buffer, pairs: seq<(Path, Path)>, time: U64) returns (events: seq<Event>)
    requires forall k :: 0 <= k < |pairs| ==> pairs[k] in b.maps
    ensures |events| == |pairs| && forall k :: 0 <= k < |pairs| ==> events[k] == MapEvent(b, pairs[k], time)
  {
    events := [];
    for i := 0 to |pairs|
      invariant |events| == i && forall k :: 0 <= k < i ==> events[k] == MapEvent(b, pairs[k], time)
    {
      var fm := b.maps[pairs[i]];
      events := events + [MapSeen(pairs[i].0, MapSegment(pairs[i].1, 0, fm.size, time, fm.device, fm.inode))];
    }
  }

  // The executables in any order, then the maps in any order.
  method Deliver(b: Buffer, time: U64) returns (events: seq<Event>)
    requires forall pair :: pair in b.maps ==> pair.0 in b.exes
    ensures Delivers(b, time, events) && Announced(events)
  {
    var paths := Enumerate(b.exes.Keys);
    var pairs := Enumerate(b.maps.Keys);
    assert forall k :: 0 <= k < |paths| ==> paths[k] in paths;
    assert forall k :: 0 <= k < |pairs| ==> pairs[k] in pairs;
    hide ExeEvent, MapEvent, Delivers, Announced, Laid, Enumerates;
    var exeEvents := PushExes(b, paths);
    var mapEvents := PushMaps(b, pairs, time);
    LaidOut(b, time, paths, pairs, exeEvents, mapEvents);
    events := exeEvents + mapEvents;
    LaidAnnounced(b, time, paths, pairs, events);
    LaidDelivers(b, time, paths, pairs, events);
  }

  // A life of the watcher: after any interleaving of openings and drains the buffer is the one
  // the log explains, and every drain has delivered what was buffered when it came.
  method Follow(watcher: FanotifyWatcher, log: seq<Step>, selfPid: int, times: seq<U64>) returns (drains: seq<seq<Event>>)
    requires watcher.Valid() && watcher.View() == EMPTY_BUFFER && |times| == |log|
    modifies watcher
    ensures watcher.Valid() && watcher.View() == BufferAfter(log, selfPid) && |drains| == |log|
    ensures forall i :: 0 <= i < |log| && log[i].Drained?
              ==> Delivers(BufferAfter(log[..i], selfPid), times[i], drains[i]) && Announced(drains[i])
  {
    hide Delivers, Announced, Insert;
    drains := [];
    for i := 0 to |log|
      invariant watcher.Valid() && watcher.View() == BufferAfter(log[..i], selfPid) && |drains| == i
      invariant forall j :: 0 <= j < i && log[j].Drained?
                  ==> Delivers(BufferAfter(log[..j], selfPid), times[j], drains[j]) && Announced(drains[j])
    {
      assert log[..i + 1][..i] == log[..i];
      match log[i] {
        case Opened(o) =>
          watcher.Record(o, selfPid);
          drains := drains + [[]];
        case Drained =>
          var events := watcher.Drain(times[i]);
          drains := drains + [events];
      }
    }
    assert log[..|log|] == log;
  }
}
