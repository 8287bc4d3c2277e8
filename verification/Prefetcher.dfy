/**
 Carrying out a plan: the page-cache bitmap of each map becomes byte ranges, each range
 becomes bounded readahead calls.  The kernel's answers are arbitrary.
 */
module Prefetcher {
  import opened Domain

  datatype Range = Range(offset: int, length: int) {
    function End(): int {
      offset + length
    }

    predicate Contains(b: int) {
      offset <= b < End()
    }
  }

  ghost predicate Covered(ranges: seq<Range>, b: int) {
    exists i :: 0 <= i < |ranges| && ranges[i].Contains(b)
  }

  lemma CoveredAppend(ranges: seq<Range>, r: Range, b: int)
    ensures Covered(ranges + [r], b) <==> Covered(ranges, b) || r.Contains(b)
  {
    if i :| 0 <= i < |ranges| && ranges[i].Contains(b) {
      assert (ranges + [r])[i].Contains(b);
    }
    if r.Contains(b) {
      assert (ranges + [r])[|ranges|].Contains(b);
    }
  }

  /* ---------- pages ---------- */

  // Where page `k` of the file starts.
  function PageAt(k: nat, pageSize: nat): nat {
    k * pageSize
  }

  predicate OnPage(b: int, k: nat, pageSize: nat) {
    PageAt(k, pageSize) <= b < PageAt(k + 1, pageSize)
  }

  lemma PageStep(k: nat, pageSize: nat)
    ensures PageAt(k + 1, pageSize) == PageAt(k, pageSize) + pageSize
  {
  }

  lemma PageSpan(k: nat, n: nat, pageSize: nat)
    ensures PageAt(k + n, pageSize) == PageAt(k, pageSize) + PageAt(n, pageSize)
  {
  }

  // A later page starts at least one page further on.
  lemma PageLater(j: nat, k: nat, pageSize: nat)
    requires j < k
    ensures PageAt(j, pageSize) + pageSize <= PageAt(k, pageSize)
  {
    var d := k - j - 1;
    PageSpan(j, d + 1, pageSize);
    PageStep(d, pageSize);
    hide PageAt;
  }

  lemma PageAligned(k: nat, pageSize: nat)
    requires pageSize > 0
    ensures PageAt(k, pageSize) % pageSize == 0 && PageAt(k, pageSize) / pageSize == k
  {
    var q: nat := PageAt(k, pageSize) / pageSize;
    assert PageAt(q, pageSize) <= PageAt(k, pageSize) < PageAt(q, pageSize) + pageSize;
    hide PageAt;
    if k < q {
      PageLater(k, q, pageSize);
    } else if q < k {
      PageLater(q, k, pageSize);
    }
  }

  // The page that holds byte `b`.
  function PageOf(b: nat, pageSize: nat): (k: nat)
    requires pageSize > 0
    ensures OnPage(b, k, pageSize)
  {
    b / pageSize
  }

  // The pages that a non-empty range touches: the first, and how many.
  function PageCount(offset: nat, length: nat, pageSize: nat): int
    requires pageSize > 0 && length > 0
  {
    PageOf(offset + length + pageSize - 1, pageSize) - PageOf(offset, pageSize)
  }

  lemma PageCountFacts(offset: nat, length: nat, pageSize: nat)
    requires pageSize > 0 && length > 0
    ensures var first, n := PageOf(offset, pageSize), PageCount(offset, length, pageSize);
            && n > 0
            && PageAt(first, pageSize) <= offset < PageAt(first + 1, pageSize)
            && PageAt(first + n - 1, pageSize) < offset + length <= PageAt(first + n, pageSize)
            && PageAt(n, pageSize) / pageSize == n
  {
    var first := PageOf(offset, pageSize);
    var beyond := PageOf(offset + length + pageSize - 1, pageSize);
    PageStep(beyond, pageSize);
    if beyond <= first {
      PageSpan(beyond, first - beyond, pageSize);
      assert false;
    }
    PageStep(beyond - 1, pageSize);
    PageAligned(beyond - first, pageSize);
  }

  /* ---------- uncached ranges ---------- */

  // The kernel's answer about the page cache; `Bitmap` says of each page whether it is cached.
  datatype CacheAnswer = Unavailable | Bitmap(cached: seq<bool>)

  // Byte `b` lies on one of the first `n` pages, and that page is not cached.
  ghost predicate UncachedAmong(b: int, cached: seq<bool>, first: nat, pageSize: nat, n: nat)
    requires n <= |cached|
  {
    exists j :: 0 <= j < n && !cached[j] && OnPage(b, first + j, pageSize)
  }

  ghost predicate Uncached(b: int, offset: nat, length: int, pageSize: nat, answer: CacheAnswer) {
    && offset <= b < offset + length
    && (answer.Bitmap? && pageSize > 0 ==>
          UncachedAmong(b, answer.cached, PageOf(offset, pageSize), pageSize, |answer.cached|))
  }

  // Non-empty ranges between `lo` and `hi`, in order, with a gap between any two.
  ghost predicate Separated(ranges: seq<Range>, lo: int, hi: int) {
    && (forall i :: 0 <= i < |ranges| ==> lo <= ranges[i].offset < ranges[i].End() <= hi)
    && (forall i, j :: 0 <= i < j < |ranges| ==> ranges[i].End() < ranges[j].offset)
  }

  // Every range starts where the map does or at a page boundary.
  ghost predicate StartsAligned(ranges: seq<Range>, offset: nat, pageSize: nat)
    requires pageSize > 0
  {
    forall i :: 0 <= i < |ranges| ==> ranges[i].offset == offset || ranges[i].offset % pageSize == 0
  }

  function Min(x: int, y: int): int {
    if x <= y then x else y
  }

  function Max(x: int, y: int): int {
    if x >= y then x else y
  }

  // The run of uncached pages still open, as bytes.
  ghost predicate InRun(b: int, run: Option<nat>, lo: int, hi: int, frontier: int) {
    run.Some? && lo <= b < hi && run.value <= b < frontier
  }

  // The loop's state after `i` pages.
  ghost predicate Walked(ranges: seq<Range>, run: Option<nat>, cached: seq<bool>, first: nat, pageSize: nat,
                         lo: nat, hi: nat, i: nat)
    requires i <= |cached| && pageSize > 0
  {
    var frontier := PageAt(first + i, pageSize);
    && Separated(ranges, lo, hi) && StartsAligned(ranges, lo, pageSize)
    && (run.Some? ==> run.value < frontier && run.value < hi && run.value % pageSize == 0)
    && (forall k :: 0 <= k < |ranges| ==> ranges[k].End() < if run.Some? then run.value else frontier)
    && (forall b :: lo <= b < hi && UncachedAmong(b, cached, first, pageSize, i)
                    <==> Covered(ranges, b) || InRun(b, run, lo, hi, frontier))
  }

  lemma AmongOneMore(b: int, cached: seq<bool>, first: nat, pageSize: nat, i: nat)
    requires i < |cached|
    ensures UncachedAmong(b, cached, first, pageSize, i + 1)
            <==> UncachedAmong(b, cached, first, pageSize, i) || (!cached[i] && OnPage(b, first + i, pageSize))
  {
  }

  // An uncached page opens a run or extends the open one.
  lemma RunGrows(ranges: seq<Range>, run: Option<nat>, cached: seq<bool>, first: nat, pageSize: nat, lo: nat, hi: nat, i: nat)
    requires i < |cached| && pageSize > 0 && !cached[i]
    requires Walked(ranges, run, cached, first, pageSize, lo, hi, i)
    requires PageAt(first + i, pageSize) < hi
    ensures Walked(ranges, if run.None? then Some(PageAt(first + i, pageSize)) else run, cached, first, pageSize, lo, hi, i + 1)
  {
    PageStep(first + i, pageSize);
    PageAligned(first + i, pageSize);
    hide PageAt, Covered, UncachedAmong, Separated, StartsAligned;
    var run' := if run.None? then PageAt(first + i, pageSize) else run.value;
    var frontier, frontier' := PageAt(first + i, pageSize), PageAt(first + (i + 1), pageSize);
    forall b
      ensures lo <= b < hi && UncachedAmong(b, cached, first, pageSize, i + 1)
              <==> Covered(ranges, b) || InRun(b, Some(run'), lo, hi, frontier')
    {
      AmongOneMore(b, cached, first, pageSize, i);
    }
  }

  // A cached page leaves things as they are when no run is open.
  lemma PageSkipped(ranges: seq<Range>, cached: seq<bool>, first: nat, pageSize: nat, lo: nat, hi: nat, i: nat)
    requires i < |cached| && pageSize > 0 && cached[i]
    requires Walked(ranges, None, cached, first, pageSize, lo, hi, i)
    ensures Walked(ranges, None, cached, first, pageSize, lo, hi, i + 1)
  {
  }

  lemma SeparatedAppend(ranges: seq<Range>, r: Range, lo: nat, hi: nat, pageSize: nat)
    requires pageSize > 0 && Separated(ranges, lo, hi) && StartsAligned(ranges, lo, pageSize)
    requires lo <= r.offset < r.End() <= hi && (r.offset == lo || r.offset % pageSize == 0)
    requires forall k :: 0 <= k < |ranges| ==> ranges[k].End() < r.offset
    ensures Separated(ranges + [r], lo, hi) && StartsAligned(ranges + [r], lo, pageSize)
  {
  }

  // Closing the run at the end of page `i - 1` turns its bytes into a range.
  lemma RunCloses(ranges: seq<Range>, run: nat, cached: seq<bool>, first: nat, pageSize: nat, lo: nat, hi: nat, i: nat)
    requires i <= |cached| && pageSize > 0
    requires Walked(ranges, Some(run), cached, first, pageSize, lo, hi, i)
    requires lo < PageAt(first + i, pageSize) && lo < hi
    ensures var start, end := Max(run, lo), Min(PageAt(first + i, pageSize), hi);
            var more := ranges + [Range(start, end - start)];
            && start < end
            && Separated(more, lo, hi) && StartsAligned(more, lo, pageSize)
            && (forall k :: 0 <= k < |more| ==> more[k].End() <= PageAt(first + i, pageSize))
            && (forall b :: lo <= b < hi && UncachedAmong(b, cached, first, pageSize, i) <==> Covered(more, b))
  {
    var start, end := Max(run, lo), Min(PageAt(first + i, pageSize), hi);
    var r := Range(start, end - start);
    SeparatedAppend(ranges, r, lo, hi, pageSize);
    hide PageAt, Covered, UncachedAmong, Separated, StartsAligned;
    forall b
      ensures Covered(ranges + [r], b) <==> Covered(ranges, b) || r.Contains(b)
    {
      CoveredAppend(ranges, r, b);
    }
  }

  // A cached page closes the open run, if there is one.
  lemma PageCloses(ranges: seq<Range>, run: nat, cached: seq<bool>, first: nat, pageSize: nat, lo: nat, hi: nat, i: nat)
    requires i < |cached| && pageSize > 0 && cached[i]
    requires Walked(ranges, Some(run), cached, first, pageSize, lo, hi, i)
    requires lo < PageAt(first + i, pageSize) && lo < hi
    ensures var start, end := Max(run, lo), Min(PageAt(first + i, pageSize), hi);
            start < end && Walked(ranges + [Range(start, end - start)], None, cached, first, pageSize, lo, hi, i + 1)
  {
    RunCloses(ranges, run, cached, first, pageSize, lo, hi, i);
    PageStep(first + i, pageSize);
    hide PageAt, Covered, UncachedAmong, Separated, StartsAligned;
    forall b
      ensures UncachedAmong(b, cached, first, pageSize, i + 1) <==> UncachedAmong(b, cached, first, pageSize, i)
    {
      AmongOneMore(b, cached, first, pageSize, i);
    }
  }

  // Page `i` of a range overlaps it; in particular it is never entirely outside.
  lemma PageOverlaps(offset: nat, length: nat, pageSize: nat, i: nat)
    requires pageSize > 0 && length > 0 && i < PageCount(offset, length, pageSize)
    ensures var first := PageOf(offset, pageSize);
            && PageAt(first + i, pageSize) < offset + length
            && offset < PageAt(first + i + 1, pageSize)
  {
    PageCountFacts(offset, length, pageSize);
    var first, last := PageOf(offset, pageSize), PageCount(offset, length, pageSize) - 1;
    hide PageAt, PageOf, PageCount;
    if i < last {
      PageLater(first + i, first + last, pageSize);
    }
    if 0 < i {
      PageLater(first + 1, first + i + 1, pageSize);
    }
  }

  lemma WalkStarts(cached: seq<bool>, first: nat, pageSize: nat, lo: nat, hi: nat)
    requires pageSize > 0
    ensures Walked([], None, cached, first, pageSize, lo, hi, 0)
  {
  }

  // From the page bitmap to byte ranges.
  method BitmapRanges(offset: nat, length: nat, pageSize: nat, cached: seq<bool>) returns (ranges: seq<Range>)
    requires pageSize > 0 && length > 0 && |cached| == PageCount(offset, length, pageSize)
    ensures Exactly(ranges, cached, PageOf(offset, pageSize), pageSize, offset, offset + length)
  {
    hide Exactly, PageAt, Walked, Covered, PageCount, UncachedAmong, Separated, StartsAligned;
    var end := offset + length;
    ghost var first := PageOf(offset, pageSize);
    var alignedOffset := PageAt(PageOf(offset, pageSize), pageSize);
    var run: Option<nat> := None;
    ranges := [];
    WalkStarts(cached, first, pageSize, offset, end);
    for i := 0 to |cached|
      invariant Walked(ranges, run, cached, first, pageSize, offset, end, i)
      invariant run.Some? ==> i > 0
    {
      PageSpan(first, i, pageSize);
      PageStep(first + i, pageSize);
      PageOverlaps(offset, length, pageSize, i);
      var pageStart := alignedOffset + PageAt(i, pageSize);
      var pageEnd := pageStart + pageSize;
      if pageEnd <= offset || pageStart >= end {
        assert false;
      }
      if !cached[i] {
        RunGrows(ranges, run, cached, first, pageSize, offset, end, i);
        if run.None? {
          run := Some(pageStart);
        }
      } else if run.Some? {
        PageOverlaps(offset, length, pageSize, i - 1);
        PageCloses(ranges, run.value, cached, first, pageSize, offset, end, i);
        var clampedStart, clampedEnd := Max(run.value, offset), Min(pageStart, end);
        run := None;
        if clampedEnd > clampedStart {
          ranges := ranges + [Range(clampedStart, clampedEnd - clampedStart)];
        }
      } else {
        PageSkipped(ranges, cached, first, pageSize, offset, end, i);
      }
    }
    PageCountFacts(offset, length, pageSize);
    if run.Some? {
      RunEnds(ranges, run.value, cached, first, pageSize, offset, end);
      var clampedStart := Max(run.value, offset);
      if end > clampedStart {
        ranges := ranges + [Range(clampedStart, end - clampedStart)];
      }
    } else {
      WalkEnds(ranges, cached, first, pageSize, offset, end);
    }
  }

  // The byte ranges that are not in the page cache.  When the kernel cannot say, all of them.
  method UncachedRanges(offset: nat, length: int, pageSize: nat, answer: CacheAnswer) returns (ranges: seq<Range>)
    requires answer.Bitmap? && pageSize > 0 && length > 0 ==> |answer.cached| == PageCount(offset, length, pageSize)
    ensures Separated(ranges, offset, offset + length)
    ensures forall b :: Covered(ranges, b) <==> Uncached(b, offset, length, pageSize, answer)
    ensures pageSize > 0 ==> StartsAligned(ranges, offset, pageSize)
  {
    if length <= 0 {
      return [];
    }
    if pageSize == 0 || answer.Unavailable? {
      ranges := [Range(offset, length)];
      assert forall b :: ranges[0].Contains(b) <==> offset <= b < offset + length;
      return;
    }
    hide Covered, PageCount, UncachedAmong, Separated, StartsAligned;
    ranges := BitmapRanges(offset, length, pageSize, answer.cached);
  }

  // The ranges are the uncached bytes of the first `n` pages.
  ghost predicate Exactly(ranges: seq<Range>, cached: seq<bool>, first: nat, pageSize: nat, lo: nat, hi: nat)
    requires pageSize > 0
  {
    && Separated(ranges, lo, hi) && StartsAligned(ranges, lo, pageSize)
    && (forall b :: Covered(ranges, b) <==> lo <= b < hi && UncachedAmong(b, cached, first, pageSize, |cached|))
  }

  // With no run open after the last page, the ranges are exactly the uncached bytes.
  lemma WalkEnds(ranges: seq<Range>, cached: seq<bool>, first: nat, pageSize: nat, lo: nat, hi: nat)
    requires pageSize > 0 && Walked(ranges, None, cached, first, pageSize, lo, hi, |cached|)
    ensures Exactly(ranges, cached, first, pageSize, lo, hi)
  {
    CoveredInside(ranges, lo, hi);
    hide Covered, UncachedAmong, Separated, StartsAligned, PageAt;
  }

  // Closing an open one gives the rest of them.
  lemma RunEnds(ranges: seq<Range>, run: nat, cached: seq<bool>, first: nat, pageSize: nat, lo: nat, hi: nat)
    requires pageSize > 0 && Walked(ranges, Some(run), cached, first, pageSize, lo, hi, |cached|)
    requires lo < hi <= PageAt(first + |cached|, pageSize)
    ensures Max(run, lo) < hi
    ensures Exactly(ranges + [Range(Max(run, lo), hi - Max(run, lo))], cached, first, pageSize, lo, hi)
  {
    RunCloses(ranges, run, cached, first, pageSize, lo, hi, |cached|);
    var more := ranges + [Range(Max(run, lo), hi - Max(run, lo))];
    hide Walked, UncachedAmong, StartsAligned, PageAt;
    CoveredInside(more, lo, hi);
    hide Covered, Separated;
  }

  lemma CoveredInside(ranges: seq<Range>, lo: int, hi: int)
    requires Separated(ranges, lo, hi)
    ensures forall b :: Covered(ranges, b) ==> lo <= b < hi
  {
  }
}
