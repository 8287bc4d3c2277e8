/** One scan as an event stream, and the candidates the updater builds from it. */
module Observation {
  import opened Domain

  datatype MemStat = MemStat(total: U64, available: U64)

  datatype Event =
    | ObsBegin(time: U64, scanId: U64)
    | ExeSeen(path: Path, pid: nat)
    | MapSeen(exePath: Path, segment: MapSegment)
    | MemSeen(mem: MemStat)
    | ObsEnd(endTime: U64, endScanId: U64)

  datatype Candidate = Candidate(path: Path, pid: nat, maps: seq<MapSegment>, totalSize: U64, rejectedMaps: seq<Path>)

  function NewCandidate(path: Path, pid: nat): Candidate {
    Candidate(path, pid, [], 0, [])
  }

  datatype Completeness = Full | Partial

  datatype RejectReason = TooSmall | ExePrefixDenied | MapPrefixDenied | MissingMaps

  datatype Decision = Accept(completeness: Completeness) | Reject(reason: RejectReason) | Defer

  // The admission policy during one update: it is asked once about each candidate.
  datatype Policy = Policy(allowMap: Path -> bool, decide: Candidate -> Decision)

  // What one observation amounts to: its time, its candidates, and the paths seen running.
  datatype Batch = Batch(now: U64, candidates: map<Path, Candidate>, running: set<Path>)

  function AddMap(c: Candidate, segment: MapSegment, allowed: bool): Candidate {
    if allowed then c.(totalSize := SatAdd(c.totalSize, segment.length), maps := c.maps + [segment])
    else c.(rejectedMaps := c.rejectedMaps + [segment.path])
  }

  function CandidateFor(candidates: map<Path, Candidate>, path: Path, pid: nat): Candidate {
    if path in candidates then candidates[path] else NewCandidate(path, pid)
  }

  function Note(b: Batch, e: Event, policy: Policy): Batch {
    match e
    case ObsBegin(time, _) => b.(now := time)
    case ExeSeen(path, pid) =>
      b.(running := b.running + {path},
         candidates := b.candidates[path := CandidateFor(b.candidates, path, pid)])
    case MapSeen(exePath, segment) =>
      var c := AddMap(CandidateFor(b.candidates, exePath, 0), segment, policy.allowMap(segment.path));
      b.(candidates := b.candidates[exePath := c])
    case MemSeen(_) => b
    case ObsEnd(_, _) => b
  }

  function Collect(modelTime: U64, events: seq<Event>, policy: Policy): Batch {
    if events == [] then Batch(modelTime, map[], {})
    else Note(Collect(modelTime, events[..|events| - 1], policy), events[|events| - 1], policy)
  }

  // Every begin marker carries the time the scan was asked for.
  ghost predicate TimedAt(events: seq<Event>, time: U64) {
    forall e :: e in events && e.ObsBegin? ==> e.time == time
  }

  // Each executable is announced before any of its maps.
  ghost predicate Announced(events: seq<Event>) {
    forall i :: 0 <= i < |events| && events[i].MapSeen? ==>
      exists j :: 0 <= j < i && events[j].ExeSeen? && events[j].path == events[i].exePath
  }

  lemma {:induction false} CollectFacts(modelTime: U64, events: seq<Event>, policy: Policy)
    ensures var b := Collect(modelTime, events, policy);
            && (TimedAt(events, modelTime) ==> b.now == modelTime)
            && (forall p :: p in b.candidates ==> b.candidates[p].path == p)
            && (forall p :: p in b.running <==> exists j :: 0 <= j < |events| && events[j].ExeSeen? && events[j].path == p)
            && b.running <= b.candidates.Keys
  {
    if events != [] {
      var n := |events| - 1;
      CollectFacts(modelTime, events[..n], policy);
      var b0 := Collect(modelTime, events[..n], policy);
      var b := Collect(modelTime, events, policy);
      forall p
        ensures p in b.running <==> exists j :: 0 <= j < |events| && events[j].ExeSeen? && events[j].path == p
      {
        if p in b0.running {
          var j :| 0 <= j < n && events[..n][j].ExeSeen? && events[..n][j].path == p;
          assert events[j].path == p;
        }
        if j :| 0 <= j < n && events[j].ExeSeen? && events[j].path == p {
          assert events[..n][j].path == p;
        }
      }
    }
  }

  ghost predicate AnnouncedIn(events: seq<Event>, path: Path) {
    exists j :: 0 <= j < |events| && events[j].ExeSeen? && events[j].path == path
  }

  // An observation is dated by its last begin marker, or else by the model time.
  lemma {:induction false} BatchTime(modelTime: U64, events: seq<Event>, policy: Policy)
    ensures (forall i :: 0 <= i < |events| ==> !events[i].ObsBegin?) ==> Collect(modelTime, events, policy).now == modelTime
    ensures forall i :: 0 <= i < |events| && events[i].ObsBegin? && (forall j :: i < j < |events| ==> !events[j].ObsBegin?)
                        ==> Collect(modelTime, events, policy).now == events[i].time
    decreases |events|
  {
    if events != [] {
      var prev := events[..|events| - 1];
      BatchTime(modelTime, prev, policy);
      assert forall i :: 0 <= i < |prev| ==> prev[i] == events[i];
    }
  }

  lemma AnnouncedPrefix(events: seq<Event>)
    requires Announced(events) && events != []
    ensures Announced(events[..|events| - 1])
    ensures var e := events[|events| - 1]; e.MapSeen? ==> AnnouncedIn(events[..|events| - 1], e.exePath)
  {
    var n := |events| - 1;
    assert forall i :: 0 <= i < n ==> events[..n][i] == events[i];
    forall i | 0 <= i < |events| && events[i].MapSeen?
      ensures exists j :: 0 <= j < i && events[..n][j].ExeSeen? && events[..n][j].path == events[i].exePath
    {
      var j :| 0 <= j < i && events[j].ExeSeen? && events[j].path == events[i].exePath;
      assert events[..n][j].path == events[i].exePath;
    }
  }

  // When executables are announced before their maps, every candidate is a running one:
  // the updater's fallback that creates a candidate for an unannounced map is dead code.
  lemma {:induction false} AnnouncedCandidatesRun(modelTime: U64, events: seq<Event>, policy: Policy)
    requires Announced(events)
    ensures Collect(modelTime, events, policy).candidates.Keys == Collect(modelTime, events, policy).running
  {
    if events != [] {
      AnnouncedPrefix(events);
      hide Announced, AddMap, CandidateFor;
      CollectFacts(modelTime, events[..|events| - 1], policy);
      AnnouncedCandidatesRun(modelTime, events[..|events| - 1], policy);
    }
  }

  // The maps reported for an executable whose paths the policy allows, or does not.
  function MapsOf(events: seq<Event>, p: Path, allowMap: Path -> bool, allowed: bool): seq<MapSegment> {
    if events == [] then []
    else
      var before := MapsOf(events[..|events| - 1], p, allowMap, allowed);
      var e := events[|events| - 1];
      if e.MapSeen? && e.exePath == p && allowMap(e.segment.path) == allowed then before + [e.segment] else before
  }

  function PathsOf(segments: seq<MapSegment>): seq<Path> {
    if segments == [] then [] else PathsOf(segments[..|segments| - 1]) + [segments[|segments| - 1].path]
  }

  function TotalLength(segments: seq<MapSegment>): nat {
    if segments == [] then 0 else TotalLength(segments[..|segments| - 1]) + segments[|segments| - 1].length
  }

  // What a candidate should hold, given what was reported for it.
  ghost predicate Gathers(c: Candidate, allowed: seq<MapSegment>, denied: seq<MapSegment>) {
    && c.maps == allowed && c.rejectedMaps == PathsOf(denied)
    && c.totalSize == if TotalLength(allowed) <= U64_MAX then TotalLength(allowed) else U64_MAX
  }

  lemma GathersOneMore(c: Candidate, allowed: seq<MapSegment>, denied: seq<MapSegment>, s: MapSegment)
    requires Gathers(c, allowed, denied)
    ensures Gathers(AddMap(c, s, true), allowed + [s], denied)
    ensures Gathers(AddMap(c, s, false), allowed, denied + [s])
  {
    assert (allowed + [s])[..|allowed|] == allowed;
    assert (denied + [s])[..|denied|] == denied;
  }

  // A candidate gathers exactly the allowed maps reported for it, in order, and names the
  // paths of the others; its size is the total length, capped at 64 bits.
  lemma {:induction false} CandidateGathersMaps(modelTime: U64, events: seq<Event>, policy: Policy, p: Path)
    ensures var cs := Collect(modelTime, events, policy).candidates;
            var allowed, denied := MapsOf(events, p, policy.allowMap, true), MapsOf(events, p, policy.allowMap, false);
            if p in cs then Gathers(cs[p], allowed, denied) else allowed == [] && denied == []
  {
    if events != [] {
      var n := |events| - 1;
      CandidateGathersMaps(modelTime, events[..n], policy, p);
      var cs := Collect(modelTime, events[..n], policy).candidates;
      var allowed, denied := MapsOf(events[..n], p, policy.allowMap, true), MapsOf(events[..n], p, policy.allowMap, false);
      assert Gathers(NewCandidate(p, 0), [], []);
      var e := events[n];
      if e.ExeSeen? {
        assert Gathers(NewCandidate(p, e.pid), [], []);
      }
      hide Gathers, AddMap, NewCandidate;
      if e.MapSeen? {
        GathersOneMore(CandidateFor(cs, p, 0), allowed, denied, e.segment);
      }
    }
  }
}
