/**
 From byte ranges to kernel requests, and from requests to the report of a prefetch.
 Each kernel call may fail or fall short as it pleases.
 */
module Readahead {
  import opened Domain
  import opened Prefetcher

  const CHUNK: nat := 131072

  // The requests for one range: full chunks and a remainder.
  function Chunks(offset: int, length: int): seq<Range>
    decreases Max(length, 0)
  {
    if length <= 0 then []
    else
      var n := Min(length, CHUNK);
      [Range(offset, n)] + Chunks(offset + n, length - n)
  }

  function AllChunks(ranges: seq<Range>): seq<Range> {
    if ranges == [] then [] else Chunks(ranges[0].offset, ranges[0].length) + AllChunks(ranges[1..])
  }

  // How many of the requests ask for byte `b`.
  function Requests(calls: seq<Range>, b: int): nat {
    if calls == [] then 0 else (if calls[0].Contains(b) then 1 else 0) + Requests(calls[1..], b)
  }

  lemma {:induction false} RequestsJoin(xs: seq<Range>, ys: seq<Range>, b: int)
    ensures Requests(xs + ys, b) == Requests(xs, b) + Requests(ys, b)
  {
    if xs == [] {
      assert xs + ys == ys;
    } else {
      RequestsJoin(xs[1..], ys, b);
      assert (xs + ys)[1..] == xs[1..] + ys;
    }
  }

  // The chunks ask for each byte of the range once, none is empty and none exceeds 128 KiB.
  lemma {:induction false} ChunksExact(offset: int, length: int, b: int)
    ensures Requests(Chunks(offset, length), b) == if offset <= b < offset + length then 1 else 0
    ensures forall i :: 0 <= i < |Chunks(offset, length)| ==> 0 < Chunks(offset, length)[i].length <= CHUNK
    decreases Max(length, 0)
  {
    if length > 0 {
      var n := Min(length, CHUNK);
      ChunksExact(offset + n, length - n, b);
      assert Chunks(offset, length)[1..] == Chunks(offset + n, length - n);
    }
  }

  lemma CoveredSplit(ranges: seq<Range>, b: int)
    requires ranges != []
    ensures Covered(ranges, b) <==> ranges[0].Contains(b) || Covered(ranges[1..], b)
  {
    if i :| 0 <= i < |ranges| - 1 && ranges[1..][i].Contains(b) {
      assert ranges[i + 1].Contains(b);
    }
    if i :| 0 < i < |ranges| && ranges[i].Contains(b) {
      assert ranges[1..][i - 1].Contains(b);
    }
  }

  // Over separated ranges, each covered byte is asked for once and no other byte is.
  lemma {:induction false} RangesExact(ranges: seq<Range>, lo: int, hi: int, b: int)
    requires Separated(ranges, lo, hi)
    ensures Requests(AllChunks(ranges), b) == if Covered(ranges, b) then 1 else 0
  {
    if ranges != [] {
      var r, rest := ranges[0], ranges[1..];
      RangesExact(rest, r.End() + 1, Max(hi, r.End() + 1), b);
      ChunksExact(r.offset, r.length, b);
      RequestsJoin(Chunks(r.offset, r.length), AllChunks(rest), b);
      CoveredSplit(ranges, b);
      CoveredInside(rest, r.End() + 1, Max(hi, r.End() + 1));
      hide Covered, Separated, Requests, Chunks;
    }
  }

  // How many bytes the requests ask for in all.
  function Volume(calls: seq<Range>): int {
    if calls == [] then 0 else calls[0].length + Volume(calls[1..])
  }

  lemma {:induction false} VolumeJoin(xs: seq<Range>, ys: seq<Range>)
    ensures Volume(xs + ys) == Volume(xs) + Volume(ys)
  {
    if xs == [] {
      assert xs + ys == ys;
    } else {
      VolumeJoin(xs[1..], ys);
      assert (xs + ys)[1..] == xs[1..] + ys;
    }
  }

  ghost predicate NonNegative(calls: seq<Range>) {
    forall i :: 0 <= i < |calls| ==> 0 <= calls[i].length
  }

  lemma {:induction false} VolumeNonNegative(calls: seq<Range>)
    requires NonNegative(calls)
    ensures 0 <= Volume(calls)
  {
    if calls != [] {
      VolumeNonNegative(calls[1..]);
    }
  }

  lemma {:induction false} ChunksVolume(offset: int, length: int)
    ensures Volume(Chunks(offset, length)) == Max(length, 0) && NonNegative(Chunks(offset, length))
    decreases Max(length, 0)
  {
    if length > 0 {
      var n := Min(length, CHUNK);
      ChunksVolume(offset + n, length - n);
      assert Chunks(offset, length)[1..] == Chunks(offset + n, length - n);
    }
  }

  // Separated ranges ask for no more bytes than lie between their bounds.
  lemma {:induction false} RangesVolume(ranges: seq<Range>, lo: int, hi: int)
    requires Separated(ranges, lo, hi) && lo <= hi
    ensures Volume(AllChunks(ranges)) <= hi - lo && NonNegative(AllChunks(ranges))
  {
    if ranges != [] {
      var r, rest := ranges[0], ranges[1..];
      RangesVolume(rest, r.End(), hi);
      ChunksVolume(r.offset, r.length);
      VolumeJoin(Chunks(r.offset, r.length), AllChunks(rest));
    }
  }

  lemma PrefixVolume(calls: seq<Range>, all: seq<Range>)
    requires calls <= all && NonNegative(all)
    ensures Volume(calls) <= Volume(all)
  {
    var rest := all[|calls|..];
    assert all == calls + rest;
    VolumeJoin(calls, rest);
    VolumeNonNegative(rest);
  }

  lemma {:induction false} FewerRequests(calls: seq<Range>, all: seq<Range>, b: int)
    requires calls <= all
    ensures Requests(calls, b) <= Requests(all, b)
  {
    RequestsJoin(calls, all[|calls|..], b);
    assert all == calls + all[|calls|..];
  }

  // What the kernel answers: whether the file opens for a range, and which calls it takes.
  datatype Kernel = Kernel(opens: Range -> bool, accepts: Range -> bool)

  predicate AllAccepted(calls: seq<Range>, accepts: Range -> bool) {
    forall i :: 0 <= i < |calls| ==> accepts(calls[i])
  }

  // Why a range or a map fails: a file that does not open, or a last call that was refused.
  ghost predicate Refused(calls: seq<Range>, kernel: Kernel) {
    (exists r :: !kernel.opens(r)) || (calls != [] && !kernel.accepts(calls[|calls| - 1]))
  }

  // The calls made are the first of those intended, up to the first that is refused.
  ghost predicate UpToRefusal(calls: seq<Range>, all: seq<Range>, accepts: Range -> bool) {
    && calls <= all
    && (forall i :: 0 <= i < |calls| - 1 ==> accepts(calls[i]))
    && (calls == all || (calls != [] && !accepts(calls[|calls| - 1])))
  }

  // One range: ask chunk by chunk, stop at the first error.
  method DoReadahead(offset: int, length: int, kernel: Kernel) returns (ok: bool, calls: seq<Range>)
    ensures ok <==> kernel.opens(Range(offset, length)) && AllAccepted(Chunks(offset, length), kernel.accepts)
    ensures if kernel.opens(Range(offset, length)) then UpToRefusal(calls, Chunks(offset, length), kernel.accepts) else calls == []
  {
    calls := [];
    if !kernel.opens(Range(offset, length)) {
      return false, [];
    }
    var off, end := offset, offset + length;
    ghost var all := Chunks(offset, length);
    while off < end
      invariant calls + Chunks(off, end - off) == all && AllAccepted(calls, kernel.accepts)
    {
      hide AllAccepted, UpToRefusal;
      var count := Min(end - off, CHUNK);
      assert Chunks(off, end - off) == [Range(off, count)] + Chunks(off + count, end - (off + count));
      AskedMore(calls, Range(off, count), Chunks(off + count, end - (off + count)), all, kernel.accepts);
      calls := calls + [Range(off, count)];
      if !kernel.accepts(Range(off, count)) {
        return false, calls;
      }
      off := off + count;
    }
    assert calls + [] == calls;
    ok := true;
  }

  // One more call is taken, or is the last.
  lemma AskedMore(done: seq<Range>, next: Range, rest: seq<Range>, all: seq<Range>, accepts: Range -> bool)
    requires done + ([next] + rest) == all && AllAccepted(done, accepts)
    ensures (done + [next]) + rest == all
    ensures if accepts(next) then AllAccepted(done + [next], accepts)
            else UpToRefusal(done + [next], all, accepts) && !AllAccepted(all, accepts)
  {
    assert all[|done|] == next;
  }

  lemma RangeAsked(done: seq<Range>, more: seq<Range>, part: seq<Range>, ok: bool, range: Range, kernel: Kernel)
    requires AllAccepted(done, kernel.accepts) && (ok <==> kernel.opens(range) && AllAccepted(part, kernel.accepts))
    requires if kernel.opens(range) then UpToRefusal(more, part, kernel.accepts) else more == []
    ensures more <= part
    ensures if ok then more == part && AllAccepted(done + more, kernel.accepts) else Refused(done + more, kernel)
  {
    if !ok && kernel.opens(range) {
      assert more != [] && (done + more)[|done + more| - 1] == more[|more| - 1];
    }
  }

  // Range by range, until an error.
  method AskRanges(ranges: seq<Range>, kernel: Kernel) returns (ok: bool, calls: seq<Range>)
    ensures calls <= AllChunks(ranges)
    ensures ok ==> calls == AllChunks(ranges) && AllAccepted(calls, kernel.accepts)
    ensures !ok ==> Refused(calls, kernel)
  {
    calls, ok := [], true;
    ghost var all := AllChunks(ranges);
    var i := 0;
    while i < |ranges| && ok
      invariant 0 <= i <= |ranges| && calls <= all
      invariant ok ==> calls + AllChunks(ranges[i..]) == all && AllAccepted(calls, kernel.accepts)
      invariant !ok ==> Refused(calls, kernel)
    {
      hide UpToRefusal, Chunks, Refused;
      ghost var before, part := calls, Chunks(ranges[i].offset, ranges[i].length);
      var more;
      ok, more := DoReadahead(ranges[i].offset, ranges[i].length, kernel);
      RangeAsked(before, more, part, ok, Range(ranges[i].offset, ranges[i].length), kernel);
      hide AllAccepted;
      calls := calls + more;
      assert ranges[i..][1..] == ranges[i + 1..];
      PrefixJoin(before, more, part, AllChunks(ranges[i + 1..]), all);
      i := i + 1;
    }
    assert ok ==> ranges[i..] == [] && calls + [] == calls;
  }

  // Calls made for separated ranges, in order and perhaps not all of them.
  lemma CallsExact(ranges: seq<Range>, lo: int, hi: int, calls: seq<Range>)
    requires Separated(ranges, lo, hi) && calls <= AllChunks(ranges)
    ensures forall b :: Requests(calls, b) <= if Covered(ranges, b) then 1 else 0
    ensures calls == AllChunks(ranges) ==> forall b :: Requests(calls, b) == if Covered(ranges, b) then 1 else 0
    ensures Volume(calls) <= Max(hi - lo, 0)
  {
    hide Requests, Covered, Volume;
    forall b
      ensures Requests(AllChunks(ranges), b) == if Covered(ranges, b) then 1 else 0
      ensures Requests(calls, b) <= Requests(AllChunks(ranges), b)
    {
      RangesExact(ranges, lo, hi, b);
      FewerRequests(calls, AllChunks(ranges), b);
    }
    RangesVolume(ranges, lo, Max(lo, hi));
    PrefixVolume(calls, AllChunks(ranges));
  }

  // One map: the ranges its bitmap leaves, in order, until an error.  If all goes well every
  // uncached byte of the map is asked for exactly once; cached bytes never are.  It goes well
  // unless the kernel refuses.
  method PrefetchMap(offset: nat, length: int, pageSize: nat, answer: CacheAnswer, kernel: Kernel) returns (ok: bool, calls: seq<Range>)
    requires answer.Bitmap? && pageSize > 0 && length > 0 ==> |answer.cached| == PageCount(offset, length, pageSize)
    ensures ok ==> forall b :: Requests(calls, b) == if Uncached(b, offset, length, pageSize, answer) then 1 else 0
    ensures forall b :: Requests(calls, b) <= if Uncached(b, offset, length, pageSize, answer) then 1 else 0
    ensures Volume(calls) <= Max(length, 0)
    ensures if ok then AllAccepted(calls, kernel.accepts) else Refused(calls, kernel)
  {
    hide Uncached, PageCount, Requests, Covered, Volume, Separated;
    var ranges := UncachedRanges(offset, length, pageSize, answer);
    ok, calls := AskRanges(ranges, kernel);
    CallsExact(ranges, offset, offset + length, calls);
  }

  lemma PrefixJoin<T>(done: seq<T>, more: seq<T>, part: seq<T>, rest: seq<T>, all: seq<T>)
    requires more <= part && done + (part + rest) == all
    ensures done + more <= all && (more == part ==> (done + more) + rest == all)
  {
  }

  // The plain reader: reads may come up short, and stop at the end of the file.  The bytes
  // read are, once each, those of the range that the file has.  `gets` tells how many bytes
  // come back at a position, if the read does not fail.
  method ReadLoop(offset: nat, length: nat, size: nat, readable: bool, gets: (nat, nat) -> Option<nat>)
    returns (ok: bool, taken: seq<Range>)
    requires forall p: nat, n: nat :: n > 0 && gets(p, n).Some? ==>
               gets(p, n).value <= n && gets(p, n).value <= Max(size - p, 0) && (gets(p, n).value == 0 <==> p >= size)
    ensures !readable ==> !ok && taken == []
    ensures !ok && readable ==> exists p: nat, n: nat :: gets(p, n).None?
    ensures ok ==> forall b :: Requests(taken, b) == if offset <= b < offset + length && b < size then 1 else 0
    ensures forall b :: Requests(taken, b) <= if offset <= b < offset + length && b < size then 1 else 0
  {
    taken := [];
    if !readable {
      return false, [];
    }
    var remaining: nat, position: nat := length, offset;
    while remaining > 0
      invariant position + remaining == offset + length && offset <= position
      invariant position <= Max(offset, size)
      invariant forall b :: Requests(taken, b) == if offset <= b < position then 1 else 0
    {
      var toRead := Min(remaining, CHUNK);
      if gets(position, toRead).None? {
        return false, taken;
      }
      var n := gets(position, toRead).value;
      if n == 0 {
        break;
      }
      forall b
        ensures Requests(taken + [Range(position, n)], b) == Requests(taken, b) + if position <= b < position + n then 1 else 0
      {
        RequestsJoin(taken, [Range(position, n)], b);
        assert Requests([Range(position, n)], b) == if position <= b < position + n then 1 else 0;
      }
      taken := taken + [Range(position, n)];
      position, remaining := position + n, remaining - n;
    }
    ok := true;
  }

  /* ---------- the report ---------- */

  // The number of batches of at most `c` that `n` tasks make.
  function Batches(n: nat, c: nat): nat
    requires c > 0
  {
    if n <= c then (if n == 0 then 0 else 1) else 1 + Batches(n - c, c)
  }

  // Where batch number `i` starts.
  function BatchStart(i: nat, c: nat): nat {
    if i == 0 then 0 else BatchStart(i - 1, c) + c
  }

  // One task of each batch was heard of.
  ghost predicate OnePerBatch(heard: seq<nat>, c: nat) {
    forall i: nat :: i < |heard| ==> BatchStart(i, c) <= heard[i] < BatchStart(i + 1, c)
  }

  lemma OneMoreBatch(heard: seq<nat>, c: nat, t: nat)
    requires OnePerBatch(heard, c) && BatchStart(|heard|, c) <= t < BatchStart(|heard|, c) + c
    ensures OnePerBatch(heard + [t], c) && BatchStart(|heard + [t]|, c) == BatchStart(|heard|, c) + c
  {
  }

  // The keys of those heard of whose call failed, in the order heard.
  function FailuresOf(tasks: seq<MapKey>, succeeded: seq<bool>, heard: seq<nat>): seq<MapKey>
    requires |succeeded| == |tasks| && forall i :: 0 <= i < |heard| ==> heard[i] < |tasks|
  {
    if heard == [] then []
    else
      var t := heard[|heard| - 1];
      FailuresOf(tasks, succeeded, heard[..|heard| - 1]) + if succeeded[t] then [] else [tasks[t]]
  }

  // A fresh buffer is built for every result: it takes up to `concurrency` tasks, yields the
  // first to finish and is dropped together with the tasks still under way, whose results
  // are lost.  So each batch reports one result only, and every reported failure is that of
  // a call that failed.
  method ExecuteConcurrent(tasks: seq<MapKey>, succeeded: seq<bool>, concurrency: nat)
    returns (numMaps: nat, failures: seq<MapKey>, ghost heard: seq<nat>)
    requires |succeeded| == |tasks|
    ensures forall i :: 0 <= i < |heard| ==> heard[i] < |tasks|
    ensures forall i, j :: 0 <= i < j < |heard| ==> heard[i] < heard[j]
    ensures var c := if concurrency == 0 then 1 else concurrency;
            |heard| == Batches(|tasks|, c) && OnePerBatch(heard, c)
    ensures failures == FailuresOf(tasks, succeeded, heard) && numMaps + |failures| == |heard|
  {
    var c := if concurrency == 0 then 1 else concurrency;
    var taken: nat := 0;
    numMaps, failures, heard := 0, [], [];
    while taken < |tasks|
      invariant Hearing(tasks, succeeded, c, taken, heard, numMaps, failures)
    {
      var batch := Min(c, |tasks| - taken);
      var first: nat :| taken <= first < taken + batch;
      HearingStep(tasks, succeeded, c, taken, heard, numMaps, failures, first);
      hide Hearing;
      heard := heard + [first];
      if succeeded[first] {
        numMaps := numMaps + 1;
      } else {
        failures := failures + [tasks[first]];
      }
      taken := taken + batch;
    }
  }

  // The loop's state when the batches up to task `taken` have been heard of.
  ghost predicate Hearing(tasks: seq<MapKey>, succeeded: seq<bool>, c: nat, taken: nat, heard: seq<nat>, numMaps: nat,
                          failures: seq<MapKey>)
    requires c > 0 && |succeeded| == |tasks|
  {
    && taken <= |tasks| && (taken < |tasks| ==> taken == BatchStart(|heard|, c))
    && (forall i :: 0 <= i < |heard| ==> heard[i] < taken)
    && (forall i, j :: 0 <= i < j < |heard| ==> heard[i] < heard[j])
    && OnePerBatch(heard, c) && |heard| + Batches(|tasks| - taken, c) == Batches(|tasks|, c)
    && failures == FailuresOf(tasks, succeeded, heard) && numMaps + |failures| == |heard|
  }

  lemma HearingStep(tasks: seq<MapKey>, succeeded: seq<bool>, c: nat, taken: nat, heard: seq<nat>, numMaps: nat,
                    failures: seq<MapKey>, first: nat)
    requires c > 0 && |succeeded| == |tasks| && Hearing(tasks, succeeded, c, taken, heard, numMaps, failures)
    requires taken < |tasks| && taken <= first < taken + Min(c, |tasks| - taken)
    ensures Hearing(tasks, succeeded, c, taken + Min(c, |tasks| - taken), heard + [first],
                    if succeeded[first] then numMaps + 1 else numMaps,
                    if succeeded[first] then failures else failures + [tasks[first]])
  {
    OneMoreBatch(heard, c, first);
    FailuresStep(tasks, succeeded, heard, first);
    BatchesStep(|tasks| - taken, c);
    hide OnePerBatch, BatchStart, FailuresOf, Batches;
  }

  lemma FailuresStep(tasks: seq<MapKey>, succeeded: seq<bool>, heard: seq<nat>, t: nat)
    requires |succeeded| == |tasks| && t < |tasks| && forall i :: 0 <= i < |heard| ==> heard[i] < |tasks|
    ensures FailuresOf(tasks, succeeded, heard + [t]) == FailuresOf(tasks, succeeded, heard) + if succeeded[t] then [] else [tasks[t]]
  {
    assert (heard + [t])[..|heard|] == heard;
  }

  lemma BatchesStep(n: nat, c: nat)
    requires c > 0 && n > 0
    ensures Batches(n, c) == 1 + Batches(n - Min(c, n), c)
  {
  }

  // Exactly the failed calls among those heard of are reported as failures.
  lemma {:induction false} FailuresFailed(tasks: seq<MapKey>, succeeded: seq<bool>, heard: seq<nat>, k: MapKey)
    requires |succeeded| == |tasks| && forall i :: 0 <= i < |heard| ==> heard[i] < |tasks|
    ensures k in FailuresOf(tasks, succeeded, heard) <==> exists i :: 0 <= i < |heard| && tasks[heard[i]] == k && !succeeded[heard[i]]
    decreases |heard|
  {
    if heard != [] {
      var n := |heard| - 1;
      var before, t := heard[..n], heard[n];
      assert heard == before + [t];
      FailuresFailed(tasks, succeeded, before, k);
      FailuresStep(tasks, succeeded, before, t);
      hide FailuresOf;
      assert forall i :: 0 <= i < n ==> before[i] == heard[i];
    }
  }

  // The report accounts for every task exactly when there is one worker, or at most one task.
  lemma {:induction false} ReportCompleteIff(n: nat, c: nat)
    requires c > 0
    ensures Batches(n, c) <= n
    ensures Batches(n, c) == n <==> c == 1 || n <= 1
    decreases n
  {
    if n > c {
      ReportCompleteIff(n - c, c);
    }
  }
}
