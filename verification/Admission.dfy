/**
 The admission policy: path prefixes allow or deny, and a cache remembers rejections.
 The cache may lose entries at any time.
 */
module Admission {
  import opened Domain
  import opened Observation

  /* ---------- prefixes ---------- */

  // A rule that starts with '!' denies what it matches.
  predicate Allows(rule: string) {
    !(rule != [] && rule[0] == '!')
  }

  function Stem(rule: string): string {
    if Allows(rule) then rule else rule[1..]
  }

  // An empty stem matches everything and is never the best match.
  predicate Matches(path: Path, rule: string) {
    Stem(rule) != [] && Stem(rule) <= path
  }

  // The first of the rules with the longest match.
  ghost predicate Winner(path: Path, rules: seq<string>, i: int) {
    && 0 <= i < |rules| && Matches(path, rules[i])
    && (forall j :: 0 <= j < |rules| && Matches(path, rules[j]) ==> |Stem(rules[j])| <= |Stem(rules[i])|)
    && (forall j :: 0 <= j < i && Matches(path, rules[j]) ==> |Stem(rules[j])| < |Stem(rules[i])|)
  }

  // The verdict is that of the winning rule; a path that no rule matches is accepted.
  ghost predicate Accepts(path: Path, rules: seq<string>) {
    forall i :: Winner(path, rules, i) ==> Allows(rules[i])
  }

  lemma WinnerUnique(path: Path, rules: seq<string>, i: int)
    requires Winner(path, rules, i)
    ensures forall j :: Winner(path, rules, j) ==> j == i
    ensures Accepts(path, rules) <==> Allows(rules[i])
  {
  }

  lemma WinnerMore(path: Path, rules: seq<string>, i: int, rule: string)
    requires Winner(path, rules, i)
    ensures if Matches(path, rule) && |Stem(rule)| > |Stem(rules[i])| then Winner(path, rules + [rule], |rules|)
            else Winner(path, rules + [rule], i)
  {
  }

  lemma {:induction false} WinnerExists(path: Path, rules: seq<string>, k: nat)
    requires k < |rules| && Matches(path, rules[k])
    ensures exists i :: Winner(path, rules, i)
    decreases |rules|
  {
    hide Stem, Matches;
    var n := |rules| - 1;
    var prev := rules[..n];
    assert rules == prev + [rules[n]];
    if j :| 0 <= j < n && Matches(path, prev[j]) {
      WinnerExists(path, prev, j);
      var i :| Winner(path, prev, i);
      WinnerMore(path, prev, i, rules[n]);
    } else {
      assert Winner(path, rules, n);
    }
  }

  // The best rule so far: its polarity and length, and its position.
  ghost predicate Leading(path: Path, rules: seq<string>, best: Option<(bool, nat)>, at: int) {
    && (best.None? ==> forall j :: 0 <= j < |rules| ==> !Matches(path, rules[j]))
    && (best.Some? ==> Winner(path, rules, at) && best.value == (Allows(rules[at]), |Stem(rules[at])|))
  }

  function Length(best: Option<(bool, nat)>): nat {
    if best.Some? then best.value.1 else 0
  }

  lemma LeadingStep(path: Path, rules: seq<string>, best: Option<(bool, nat)>, at: int, rule: string)
    requires Leading(path, rules, best, at)
    ensures if Stem(rule) <= path && Length(best) < |Stem(rule)|
            then Leading(path, rules + [rule], Some((Allows(rule), |Stem(rule)|)), |rules|)
            else Leading(path, rules + [rule], best, at)
  {
    if best.Some? {
      WinnerMore(path, rules, at, rule);
    }
    assert Matches(path, rule) <==> Stem(rule) != [] && Stem(rule) <= path;
    hide Stem, Matches, Allows;
    if Matches(path, rule) && best.None? {
      assert Winner(path, rules + [rule], |rules|);
    }
  }

  method AcceptPath(path: Path, rules: seq<string>) returns (accept: bool)
    ensures accept <==> Accepts(path, rules)
  {
    var best: Option<(bool, nat)> := None;
    ghost var at: int := -1;
    for i := 0 to |rules|
      invariant Leading(path, rules[..i], best, at)
    {
      hide Leading;
      var rule := rules[i];
      LeadingStep(path, rules[..i], best, at, rule);
      assert rules[..i + 1] == rules[..i] + [rule];
      var deny, stem := !Allows(rule), Stem(rule);
      if stem <= path {
        if (if best.Some? then best.value.1 else 0) < |stem| {
          best := Some((!deny, |stem|));
          at := i;
        }
      }
    }
    assert rules[..|rules|] == rules;
    accept := if best.Some? then best.value.0 else true;
    if best.Some? {
      WinnerUnique(path, rules, at);
    }
  }

  // Two rules, one allowing and one denying, share the longest matching stem.
  ghost predicate Tied(path: Path, rules: seq<string>, i: int, j: int) {
    && 0 <= i < |rules| && 0 <= j < |rules| && Matches(path, rules[i])
    && Stem(rules[i]) == Stem(rules[j]) && Allows(rules[i]) && !Allows(rules[j])
    && (forall k :: 0 <= k < |rules| && Matches(path, rules[k]) ==> |Stem(rules[k])| <= |Stem(rules[i])|)
  }

  // Rules that match one path with stems of equal length have the same stem.
  lemma SameLengthSameStem(path: Path, r: string, s: string)
    requires Matches(path, r) && Matches(path, s) && |Stem(r)| == |Stem(s)|
    ensures Stem(r) == Stem(s)
  {
  }

  lemma Members<T>(xs: seq<T>, ys: seq<T>, x: T)
    requires multiset(xs) == multiset(ys) && x in xs
    ensures x in ys
  {
    assert x in multiset(xs);
    assert x in multiset(ys);
  }

  // The order of the rules can matter only through such a tie.
  lemma OrderIrrelevant(path: Path, xs: seq<string>, ys: seq<string>)
    requires multiset(xs) == multiset(ys) && forall i, j :: !Tied(path, xs, i, j)
    ensures Accepts(path, xs) <==> Accepts(path, ys)
  {
    if i :| Winner(path, xs, i) {
      Members(xs, ys, xs[i]);
      var m :| 0 <= m < |ys| && ys[m] == xs[i];
      WinnerExists(path, ys, m);
      var k :| Winner(path, ys, k);
      Members(ys, xs, ys[k]);
      var j :| 0 <= j < |xs| && xs[j] == ys[k];
      SameLengthSameStem(path, xs[i], ys[k]);
      WinnerUnique(path, xs, i);
      WinnerUnique(path, ys, k);
      assert !Tied(path, xs, i, j) && !Tied(path, xs, j, i);
    } else if k :| Winner(path, ys, k) {
      Members(ys, xs, ys[k]);
      var j :| 0 <= j < |xs| && xs[j] == ys[k];
      WinnerExists(path, xs, j);
    }
  }

  // And through such a tie it does: the same rules in another order say otherwise.
  lemma TieMeansOrderMatters(path: Path, xs: seq<string>, i: nat, j: nat)
    requires Tied(path, xs, i, j)
    ensures var k := if Accepts(path, xs) then j else i;
            var ys := [xs[k]] + xs[..k] + xs[k + 1..];
            multiset(ys) == multiset(xs) && (Accepts(path, ys) <==> !Accepts(path, xs))
  {
    var k := if Accepts(path, xs) then j else i;
    var ys := [xs[k]] + xs[..k] + xs[k + 1..];
    assert xs == xs[..k] + [xs[k]] + xs[k + 1..];
    forall m | 0 <= m < |ys| && Matches(path, ys[m])
      ensures |Stem(ys[m])| <= |Stem(ys[0])|
    {
      assert ys[m] == if m == 0 then xs[k] else if m <= k then xs[m - 1] else xs[m];
    }
    assert Winner(path, ys, 0);
    WinnerUnique(path, ys, 0);
  }

  // The order in which the configuration sorts its rules.
  predicate StrLe(a: string, b: string) {
    a == [] || (b != [] && (a[0] < b[0] || (a[0] == b[0] && StrLe(a[1..], b[1..]))))
  }

  // After that sort, ties on absolute prefixes resolve to deny.
  lemma SortedTieDenies(path: Path, rules: seq<string>, i: int, j: int)
    requires forall m, n :: 0 <= m < n < |rules| ==> StrLe(rules[m], rules[n])
    requires Tied(path, rules, i, j) && rules[i][0] == '/'
    ensures !Accepts(path, rules)
  {
    assert !StrLe(rules[i], rules[j]);
    WinnerExists(path, rules, i);
    var w :| Winner(path, rules, w);
    WinnerUnique(path, rules, w);
    SameLengthSameStem(path, rules[w], rules[i]);
  }

  /* ---------- decisions ---------- */

  datatype Criteria = Criteria(minsize: U64, exeprefix: seq<string>, mapprefix: seq<string>)

  // The decision a candidate deserves, looking at nothing but the candidate.
  ghost function Judge(c: Candidate, k: Criteria): Decision {
    if !Accepts(c.path, k.exeprefix) then Reject(ExePrefixDenied)
    else if c.maps == [] then Reject(if c.rejectedMaps == [] then MissingMaps else MapPrefixDenied)
    else if c.totalSize < k.minsize then Reject(TooSmall)
    else Accept(if c.rejectedMaps == [] then Full else Partial)
  }

  // A candidate is accepted exactly when its executable is allowed, some of its maps are, and
  // those are long enough together; completely, when none was denied.
  lemma JudgedByEvents(modelTime: U64, events: seq<Observation.Event>, policy: Policy, p: Path, k: Criteria)
    requires p in Collect(modelTime, events, policy).candidates
    ensures var d := Judge(Collect(modelTime, events, policy).candidates[p], k);
            var allowed, denied := MapsOf(events, p, policy.allowMap, true), MapsOf(events, p, policy.allowMap, false);
            && (d.Accept? <==> Accepts(p, k.exeprefix) && allowed != [] && TotalLength(allowed) >= k.minsize)
            && (d == Accept(Full) <==> d.Accept? && denied == [])
            && (d == Reject(MissingMaps) <==> Accepts(p, k.exeprefix) && allowed == [] && denied == [])
            && (d == Reject(MapPrefixDenied) <==> Accepts(p, k.exeprefix) && allowed == [] && denied != [])
            && (d == Reject(TooSmall) <==> Accepts(p, k.exeprefix) && allowed != [] && TotalLength(allowed) < k.minsize)
  {
    CandidateGathersMaps(modelTime, events, policy, p);
    CollectFacts(modelTime, events, policy);
    hide Collect, MapsOf, TotalLength, Accepts;
    var denied := MapsOf(events, p, policy.allowMap, false);
    assert denied == [] <==> PathsOf(denied) == [];
  }

  // The decision given what is cached.
  ghost function Decided(cache: Option<map<Path, RejectReason>>, c: Candidate, k: Criteria): Decision {
    if cache.Some? && c.path in cache.value then Reject(cache.value[c.path]) else Judge(c, k)
  }

  // The cache after deciding.
  ghost function Recorded(cache: Option<map<Path, RejectReason>>, c: Candidate, k: Criteria): Option<map<Path, RejectReason>> {
    if cache.None? then None
    else
      match Decided(cache, c, k)
      case Reject(reason) => Some(cache.value[c.path := reason])
      case Accept(_) => Some(cache.value - {c.path})
      case Defer => cache
  }

  // A question to the policy, or a loss of cache entries.
  datatype Event = Asked(c: Candidate) | Evicted(lost: set<Path>)

  ghost function CacheAfter(log: seq<Event>, k: Criteria): map<Path, RejectReason> {
    if log == [] then map[]
    else
      var before := CacheAfter(log[..|log| - 1], k);
      match log[|log| - 1]
      case Asked(c) => Recorded(Some(before), c, k).value
      case Evicted(lost) => before - lost
  }

  // A cache that exists goes on existing.
  lemma RecordedSome(cache: map<Path, RejectReason>, c: Candidate, k: Criteria)
    ensures Recorded(Some(cache), c, k).Some?
  {
  }

  class DefaultAdmissionPolicy {
    const criteria: Criteria
    var cache: Option<map<Path, RejectReason>>
    var hits: nat
    var misses: nat
    var inserts: nat
    var invalidations: nat

    constructor (criteria: Criteria, capacity: nat, ttlIsZero: bool)
      ensures this.criteria == criteria && cache == if capacity == 0 || ttlIsZero then None else Some(map[])
      ensures hits == 0 && misses == 0 && inserts == 0 && invalidations == 0
    {
      this.criteria := criteria;
      cache := if capacity == 0 || ttlIsZero then None else Some(map[]);
      hits, misses, inserts, invalidations := 0, 0, 0, 0;
    }

    method AllowExe(path: Path) returns (allowed: bool)
      ensures allowed <==> Accepts(path, criteria.exeprefix)
    {
      allowed := AcceptPath(path, criteria.exeprefix);
    }

    method AllowMap(path: Path) returns (allowed: bool)
      ensures allowed <==> Accepts(path, criteria.mapprefix)
    {
      allowed := AcceptPath(path, criteria.mapprefix);
    }

    // Every question is a hit or a miss; every miss inserts or invalidates.
    method Decide(c: Candidate) returns (decision: Decision)
      modifies this
      ensures decision == Decided(old(cache), c, criteria) && !decision.Defer?
      ensures cache == Recorded(old(cache), c, criteria)
      ensures cache.Some? ==> hits + misses == old(hits + misses) + 1
      ensures inserts + invalidations - misses == old(inserts + invalidations - misses)
      ensures cache.None? ==> hits == old(hits) && misses == old(misses)
    {
      if cache.Some? && c.path in cache.value {
        hits := hits + 1;
        assert cache.value[c.path := cache.value[c.path]] == cache.value;
        return Reject(cache.value[c.path]);
      }
      if cache.Some? {
        misses := misses + 1;
      }
      var allowed := AllowExe(c.path);
      if !allowed {
        CacheReject(c.path, ExePrefixDenied);
        return Reject(ExePrefixDenied);
      }
      if c.maps == [] {
        var reason := if c.rejectedMaps == [] then MissingMaps else MapPrefixDenied;
        CacheReject(c.path, reason);
        return Reject(reason);
      }
      if c.totalSize < criteria.minsize {
        CacheReject(c.path, TooSmall);
        return Reject(TooSmall);
      }
      var completeness := if c.rejectedMaps == [] then Full else Partial;
      CacheClear(c.path);
      decision := Accept(completeness);
    }

    // The cache loses entries, by age or for want of room.
    method Evict(lost: set<Path>)
      modifies this`cache
      ensures cache == if old(cache).Some? then Some(old(cache).value - lost) else None
    {
      if cache.Some? {
        cache := Some(cache.value - lost);
      }
    }

    // A life of the policy: whatever is asked and lost, in whatever order, every answer is the
    // one the log up to it explains.
    method Serve(log: seq<Event>) returns (decisions: seq<Option<Decision>>)
      requires cache == Some(map[])
      modifies this
      ensures cache == Some(CacheAfter(log, criteria)) && |decisions| == |log|
      ensures forall i :: 0 <= i < |log| && log[i].Asked?
                ==> decisions[i] == Some(Decided(Some(CacheAfter(log[..i], criteria)), log[i].c, criteria))
    {
      decisions := [];
      for i := 0 to |log|
        invariant cache == Some(CacheAfter(log[..i], criteria)) && |decisions| == i
        invariant forall j :: 0 <= j < i && log[j].Asked?
                    ==> decisions[j] == Some(Decided(Some(CacheAfter(log[..j], criteria)), log[j].c, criteria))
      {
        hide Decided, Recorded;
        assert log[..i + 1][..i] == log[..i];
        match log[i] {
          case Asked(c) =>
            RecordedSome(CacheAfter(log[..i], criteria), c, criteria);
            var decision := Decide(c);
            decisions := decisions + [Some(decision)];
          case Evicted(lost) =>
            Evict(lost);
            decisions := decisions + [None];
        }
      }
      assert log[..|log|] == log;
    }

    method CacheReject(path: Path, reason: RejectReason)
      modifies this`cache, this`inserts
      ensures cache == if old(cache).Some? then Some(old(cache).value[path := reason]) else None
      ensures inserts == old(inserts) + if cache.Some? then 1 else 0
    {
      if cache.Some? {
        cache := Some(cache.value[path := reason]);
        inserts := inserts + 1;
      }
    }

    method CacheClear(path: Path)
      modifies this`cache, this`invalidations
      ensures cache == if old(cache).Some? then Some(old(cache).value - {path}) else None
      ensures invalidations == old(invalidations) + if cache.Some? then 1 else 0
    {
      if cache.Some? {
        cache := Some(cache.value - {path});
        invalidations := invalidations + 1;
      }
    }
  }

  /* ---------- what the cache does to decisions ---------- */

  // Event `i` asked about this path, the candidate deserved rejection, and the path has not
  // been evicted since.
  ghost predicate Standing(log: seq<Event>, k: Criteria, path: Path, i: int) {
    && 0 <= i < |log| && log[i].Asked? && log[i].c.path == path && Judge(log[i].c, k).Reject?
    && forall j :: i < j < |log| && log[j].Evicted? ==> path !in log[j].lost
  }

  // The first such question is the one that decides.
  ghost predicate Decisive(log: seq<Event>, k: Criteria, path: Path, i: int) {
    Standing(log, k, path, i) && forall j :: 0 <= j < i ==> !Standing(log, k, path, j)
  }

  lemma StandingPrefix(log: seq<Event>, k: Criteria, path: Path, i: int)
    requires log != [] && i < |log| - 1
    ensures var last := log[|log| - 1];
            Standing(log, k, path, i)
            <==> Standing(log[..|log| - 1], k, path, i) && (last.Evicted? ==> path !in last.lost)
  {
    hide Judge;
    var prev := log[..|log| - 1];
    assert forall j :: 0 <= j < |prev| ==> prev[j] == log[j];
  }

  lemma StandingAt(log: seq<Event>, k: Criteria, path: Path, i: int)
    requires Standing(log, k, path, i)
    ensures 0 <= i < |log| && log[i].Asked? && log[i].c.path == path && Judge(log[i].c, k).Reject?
  {
  }

  // The cache holds the path exactly when a question about it stands, with the decisive reason.
  ghost predicate Explains(log: seq<Event>, k: Criteria, path: Path, cache: map<Path, RejectReason>) {
    && (path in cache <==> exists i :: Standing(log, k, path, i))
    && (forall i :: Decisive(log, k, path, i) ==> path in cache && Judge(log[i].c, k) == Reject(cache[path]))
  }

  // An event that evicts nothing of the path, and either finds it cached or adds no standing
  // question, leaves the explanation as it was.
  lemma ExplanationKept(log: seq<Event>, k: Criteria, path: Path, before: map<Path, RejectReason>, cache: map<Path, RejectReason>)
    requires log != [] && Explains(log[..|log| - 1], k, path, before)
    requires path in before <==> path in cache
    requires path in before ==> before[path] == cache[path]
    requires log[|log| - 1].Evicted? ==> path !in log[|log| - 1].lost
    requires path in before || !Standing(log, k, path, |log| - 1)
    ensures Explains(log, k, path, cache)
  {
    var n := |log| - 1;
    var prev := log[..n];
    forall i: int | i < n
      ensures Standing(log, k, path, i) <==> Standing(prev, k, path, i)
    {
      StandingPrefix(log, k, path, i);
    }
    forall i | Standing(log, k, path, i)
      ensures 0 <= i <= n
    {
      StandingAt(log, k, path, i);
    }
    hide Standing, Judge;
    if i :| Standing(prev, k, path, i) {
      StandingAt(prev, k, path, i);
      assert Standing(log, k, path, i);
    }
    forall i | Decisive(log, k, path, i)
      ensures path in cache && Judge(log[i].c, k) == Reject(cache[path])
    {
      assert i < n;
      assert Decisive(prev, k, path, i);
    }
  }

  // A question that finds the path uncached explains the cache by itself.
  lemma ExplanationNew(log: seq<Event>, k: Criteria, path: Path, before: map<Path, RejectReason>, cache: map<Path, RejectReason>)
    requires log != [] && Explains(log[..|log| - 1], k, path, before) && path !in before
    requires Standing(log, k, path, |log| - 1) && path in cache && Judge(log[|log| - 1].c, k) == Reject(cache[path])
    ensures Explains(log, k, path, cache)
  {
    var n := |log| - 1;
    forall i: int | i < n
      ensures !Standing(log, k, path, i)
    {
      StandingPrefix(log, k, path, i);
      assert !Standing(log[..n], k, path, i);
    }
    forall i | Standing(log, k, path, i)
      ensures i == n
    {
      StandingAt(log, k, path, i);
    }
  }

  // After any log of questions and evictions, a path is cached exactly when some rejected
  // question about it was not followed by its eviction, and the reason is that of the first.
  lemma {:induction false} CacheHoldsIff(log: seq<Event>, k: Criteria, path: Path)
    ensures Explains(log, k, path, CacheAfter(log, k))
    decreases |log|
  {
    if log != [] {
      var n := |log| - 1;
      var last, before, cache := log[n], CacheAfter(log[..n], k), CacheAfter(log, k);
      CacheHoldsIff(log[..n], k, path);
      assert Standing(log, k, path, n) <==> last.Asked? && last.c.path == path && Judge(last.c, k).Reject?;
      if last.Evicted? && path in last.lost {
        assert forall i :: !Standing(log, k, path, i);
      } else {
        hide Explains, Standing, Judge;
        if Standing(log, k, path, n) && path !in before {
          ExplanationNew(log, k, path, before, cache);
        } else {
          ExplanationKept(log, k, path, before, cache);
        }
      }
    }
  }

  // Some standing question is the first.
  lemma {:induction false} DecisiveExists(log: seq<Event>, k: Criteria, path: Path, i: int)
    requires Standing(log, k, path, i)
    ensures exists d :: d <= i && Decisive(log, k, path, d)
    decreases i
  {
    hide Standing;
    if j :| 0 <= j < i && Standing(log, k, path, j) {
      DecisiveExists(log, k, path, j);
    } else {
      assert 0 <= i by { StandingAt(log, k, path, i); }
      assert Decisive(log, k, path, i);
    }
  }

  // A decision is the one the candidate deserves exactly when the decisive question about
  // its path, if there is one, deserved the same.
  lemma {:induction false} DecidedRightIff(log: seq<Event>, k: Criteria, c: Candidate)
    ensures Decided(Some(CacheAfter(log, k)), c, k) == Judge(c, k)
            <==> forall i :: Decisive(log, k, c.path, i) ==> Judge(log[i].c, k) == Judge(c, k)
  {
    hide Judge, CacheAfter, Standing;
    CacheHoldsIff(log, k, c.path);
    if i :| Standing(log, k, c.path, i) {
      DecisiveExists(log, k, c.path, i);
    }
  }

  // So whatever is accepted deserves it, and a denied executable is denied for good; only
  // rejections for size or maps can outlive their cause.
  lemma {:induction false} CacheOnlyDelaysAcceptance(log: seq<Event>, k: Criteria, c: Candidate)
    ensures var d := Decided(Some(CacheAfter(log, k)), c, k);
            && (d.Accept? ==> d == Judge(c, k))
            && (d == Reject(ExePrefixDenied) <==> Judge(c, k) == Reject(ExePrefixDenied))
            && (d != Judge(c, k) <==> exists i :: Decisive(log, k, c.path, i) && Judge(log[i].c, k) == d != Judge(c, k))
  {
    DecidedRightIff(log, k, c);
    CacheHoldsIff(log, k, c.path);
    hide CacheAfter, Standing;
    if i :| Standing(log, k, c.path, i) {
      DecisiveExists(log, k, c.path, i);
      var d :| Decisive(log, k, c.path, d);
      StandingAt(log, k, c.path, d);
    }
  }

  // A large program first seen without maps stays rejected while the entry lasts.
  lemma RejectionOutlivesCause(segment: MapSegment)
    ensures var k := Criteria(1, [], []);
            var empty := NewCandidate("/bin/ed", 1);
            var full := empty.(maps := [segment], totalSize := 1);
            Judge(full, k) == Accept(Full) && Decided(Some(CacheAfter([Asked(empty)], k)), full, k) == Reject(MissingMaps)
  {
  }

  // Asking about other paths first does not change an answer.  So during one update, where
  // every path is asked about once, the policy acts as a function of the candidate.
  lemma {:induction false} OtherQuestionsIrrelevant(cache: Option<map<Path, RejectReason>>, asked: seq<Candidate>, c: Candidate, k: Criteria)
    requires forall i :: 0 <= i < |asked| ==> asked[i].path != c.path
    ensures Decided(RecordedAll(cache, asked, k), c, k) == Decided(cache, c, k)
    decreases |asked|
  {
    if asked != [] {
      OtherQuestionsIrrelevant(cache, asked[..|asked| - 1], c, k);
    }
  }

  ghost function RecordedAll(cache: Option<map<Path, RejectReason>>, asked: seq<Candidate>, k: Criteria): Option<map<Path, RejectReason>> {
    if asked == [] then cache
    else Recorded(RecordedAll(cache, asked[..|asked| - 1], k), asked[|asked| - 1], k)
  }
}
