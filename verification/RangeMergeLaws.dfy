/** What merging ranges determines (clients/cache-manager.ts:674-697): the lines, and a unique
    form for them. */
module RangeMergeLaws {
  import opened Numbers
  import opened Sorting
  import opened RangeMerge

  ghost predicate SameLines(a: seq<Span>, b: seq<Span>) { forall line :: Covers(a, line) <==> Covers(b, line) }

  /** No range is empty. */
  predicate Proper(ranges: seq<Span>) { forall i :: 0 <= i < |ranges| ==> ranges[i].start <= ranges[i].end }

  /** Sorted, with at least one uncovered line between neighbours. */
  predicate Canonical(ranges: seq<Span>) {
    Proper(ranges) && forall i :: 0 < i < |ranges| ==> ranges[i - 1].end + 1 < ranges[i].start
  }

  predicate SortedStarts(ranges: seq<Span>) { forall i, j :: 0 <= i < j < |ranges| ==>
                         ranges[i].start <= ranges[j].start }

  // ---- coverage ------------------------------------------------------------------

  lemma CoversAppend(a: seq<Span>, b: seq<Span>, line: int)
    ensures Covers(a + b, line) <==> Covers(a, line) || Covers(b, line)
  {
    var all := a + b;
    if i :| 0 <= i < |a| && Inside(line, a[i]) { assert all[i] == a[i]; }
    if i :| 0 <= i < |b| && Inside(line, b[i]) { assert all[|a| + i] == b[i]; }
    if i :| 0 <= i < |all| && Inside(line, all[i]) {
      if i < |a| { assert a[i] == all[i]; } else { assert b[i - |a|] == all[i]; }
    }
  }

  lemma CoversOne(r: Span, line: int)
    ensures Covers([r], line) <==> Inside(line, r)
  {
    assert [r][0] == r;
  }

  lemma ExtendCovers(merged: seq<Span>, r: Span, line: int)
    requires merged != [] ==> merged[|merged| - 1].start <= r.start
    ensures Covers(Extend(merged, r), line) <==> Covers(merged, line) || Inside(line, r)
  {
    CoversOne(r, line);
    if merged != [] {
      var front, last := merged[..|merged| - 1], merged[|merged| - 1];
      assert merged == front + [last];
      var wide := Span(last.start, Max(last.end, r.end));
      CoversAppend(front, [last], line);
      CoversAppend(front, [wide], line);
      CoversAppend(merged, [r], line);
      CoversOne(last, line);
      CoversOne(wide, line);
    }
  }

  /** The last merged range starts no later than the last range taken. */
  lemma {:induction false} SweepStarts(sorted: seq<Span>)
    requires SortedStarts(sorted)
    ensures sorted != [] ==>
              Sweep(sorted) != [] && Sweep(sorted)[|Sweep(sorted)| - 1].start <= sorted[|sorted| - 1].start
  {
    if sorted == [] {
    } else {
      SweepStarts(sorted[..|sorted| - 1]);
    }
  }

  lemma {:induction false} SweepCovers(sorted: seq<Span>, line: int)
    requires SortedStarts(sorted)
    ensures Covers(Sweep(sorted), line) <==> Covers(sorted, line)
  {
    if sorted == [] {
    } else {
      var front, last := sorted[..|sorted| - 1], sorted[|sorted| - 1];
      SweepCovers(front, line);
      SweepStarts(front);
      ExtendCovers(Sweep(front), last, line);
      assert sorted == front + [last];
      CoversAppend(front, [last], line);
      CoversOne(last, line);
    }
  }

  lemma SortedByStart(ranges: seq<Span>)
    ensures SortedStarts(Sort(ranges, StartsBefore)) && multiset(Sort(ranges, StartsBefore)) == multiset(ranges)
  {
    SortSorts(ranges, StartsBefore);
    var s := Sort(ranges, StartsBefore);
    forall i, j | 0 <= i < j < |s| ensures s[i].start <= s[j].start { assert StartsBefore(s[i], s[j]); }
  }

  lemma PermutedCovers(a: seq<Span>, b: seq<Span>, line: int)
    requires multiset(a) == multiset(b)
    ensures Covers(a, line) ==> Covers(b, line)
  {
    if i :| 0 <= i < |a| && Inside(line, a[i]) {
      SameMembers(a, b, a[i]);
      var j :| 0 <= j < |b| && b[j] == a[i];
    }
  }

  /** Merging changes no line, whatever the ranges: empty, overlapping, in any order. */
  lemma MergeKeepsLines(ranges: seq<Span>)
    ensures SameLines(MergeSpans(ranges), ranges)
  {
    var s := Sort(ranges, StartsBefore);
    SortedByStart(ranges);
    forall line ensures Covers(MergeSpans(ranges), line) <==> Covers(ranges, line) {
      SweepCovers(s, line);
      PermutedCovers(s, ranges, line);
      PermutedCovers(ranges, s, line);
    }
  }

  // ---- canonical form ------------------------------------------------------------

  lemma ExtendCanonical(merged: seq<Span>, r: Span)
    requires Canonical(merged) && r.start <= r.end && (merged != [] ==> merged[|merged| - 1].start <= r.start)
    ensures Canonical(Extend(merged, r))
  {}

  lemma {:induction false} SweepCanonical(sorted: seq<Span>)
    requires SortedStarts(sorted) && Proper(sorted)
    ensures Canonical(Sweep(sorted))
  {
    hide Canonical, Extend;
    if sorted == [] {
      NothingIsCanonical();
    } else {
      var front := sorted[..|sorted| - 1];
      SweepCanonical(front);
      SweepStarts(front);
      if front == [] { assert Sweep(front) == []; }
      ExtendCanonical(Sweep(front), sorted[|sorted| - 1]);
    }
  }

  lemma NothingIsCanonical()
    ensures Canonical([])
  {}

  lemma PermutedProper(a: seq<Span>, b: seq<Span>)
    requires multiset(a) == multiset(b) && Proper(a)
    ensures Proper(b)
  {
    forall i | 0 <= i < |b| ensures b[i].start <= b[i].end {
      SameMembers(a, b, b[i]);
      var j :| 0 <= j < |a| && a[j] == b[i];
    }
  }

  lemma MergeIsCanonical(ranges: seq<Span>)
    requires Proper(ranges)
    ensures Canonical(MergeSpans(ranges))
  {
    SortedByStart(ranges);
    PermutedProper(ranges, Sort(ranges, StartsBefore));
    SweepCanonical(Sort(ranges, StartsBefore));
  }

  lemma {:induction false} CanonicalOrder(r: seq<Span>, i: nat, j: nat)
    requires Canonical(r) && i < j < |r|
    ensures r[i].end + 1 < r[j].start
  {
    if i == j - 1 {
    } else {
      CanonicalOrder(r, i, j - 1);
    }
  }

  /** The first range is the lowest run of covered lines. */
  lemma FirstRun(r: seq<Span>)
    requires Canonical(r) && r != []
    ensures Covers(r, r[0].start) && Covers(r, r[0].end) && !Covers(r, r[0].end + 1)
    ensures forall line :: Covers(r, line) ==> r[0].start <= line
    ensures forall line :: r[0].start <= line <= r[0].end ==> Covers(r, line)
  {
    assert Inside(r[0].start, r[0]) && Inside(r[0].end, r[0]);
    if i :| 0 <= i < |r| && Inside(r[0].end + 1, r[i]) { CanonicalOrder(r, 0, i); }
    forall line | Covers(r, line) ensures r[0].start <= line {
      var i :| 0 <= i < |r| && Inside(line, r[i]);
      if i > 0 { CanonicalOrder(r, 0, i); }
    }
    forall line | r[0].start <= line <= r[0].end ensures Covers(r, line) { assert Inside(line, r[0]); }
  }

  lemma RestLines(r: seq<Span>, line: int)
    requires Canonical(r) && r != []
    ensures Canonical(r[1..])
    ensures Covers(r[1..], line) <==> Covers(r, line) && line > r[0].end
  {
    assert r == [r[0]] + r[1..];
    CoversAppend([r[0]], r[1..], line);
    CoversOne(r[0], line);
    if i :| 0 <= i < |r[1..]| && Inside(line, r[1..][i]) { CanonicalOrder(r, 0, i + 1); }
  }

  lemma SameFirst(a: seq<Span>, b: seq<Span>)
    requires Canonical(a) && Canonical(b) && SameLines(a, b) && a != [] && b != []
    ensures a[0] == b[0]
  {
    FirstRun(a);
    FirstRun(b);
    assert Covers(b, a[0].start) && Covers(a, b[0].start);
    assert Covers(b, a[0].end) && !Covers(b, a[0].end + 1) && !Covers(a, b[0].end + 1);
  }

  lemma SameAt(a: seq<Span>, b: seq<Span>, line: int)
    requires SameLines(a, b)
    ensures Covers(a, line) <==> Covers(b, line)
  {}

  lemma EmptyCovers(a: seq<Span>, b: seq<Span>)
    requires SameLines(a, b) && a == [] && Canonical(b)
    ensures b == []
  {
    if b != [] {
      var start := b[0].start;
      FirstRun(b);
      SameAt(a, b, start);
    }
  }

  /** A set of lines has one canonical list of ranges. */
  lemma {:induction false} CanonicalUnique(a: seq<Span>, b: seq<Span>)
    requires Canonical(a) && Canonical(b) && SameLines(a, b)
    ensures a == b
    decreases |a|
  {
    if a == [] {
      EmptyCovers(a, b);
    } else {
      if b == [] { EmptyCovers(b, a); }
      SameFirst(a, b);
      forall line ensures Covers(a[1..], line) <==> Covers(b[1..], line) {
        RestLines(a, line);
        RestLines(b, line);
      }
      RestLines(a, 0);
      RestLines(b, 0);
      CanonicalUnique(a[1..], b[1..]);
      assert a == [a[0]] + a[1..] && b == [b[0]] + b[1..];
    }
  }

  /** Ranges that cover the same lines merge to the same list: neither their order, nor how
      the lines are cut up, matters. */
  lemma MergeIsDetermined(a: seq<Span>, b: seq<Span>)
    requires Proper(a) && Proper(b) && SameLines(a, b)
    ensures MergeSpans(a) == MergeSpans(b)
  {
    hide MergeSpans, Canonical;
    MergeIsCanonical(a);
    MergeIsCanonical(b);
    MergeKeepsLines(a);
    MergeKeepsLines(b);
    forall line ensures Covers(MergeSpans(a), line) <==> Covers(MergeSpans(b), line) {
      assert Covers(MergeSpans(a), line) <==> Covers(a, line);
      assert Covers(MergeSpans(b), line) <==> Covers(b, line);
    }
    CanonicalUnique(MergeSpans(a), MergeSpans(b));
  }

  /** A canonical list is already merged; merging is idempotent. */
  lemma MergeFixes(ranges: seq<Span>)
    requires Canonical(ranges)
    ensures MergeSpans(ranges) == ranges
  {
    hide MergeSpans;
    MergeIsCanonical(ranges);
    MergeKeepsLines(ranges);
    CanonicalUnique(MergeSpans(ranges), ranges);
  }

  lemma MergeIdempotent(ranges: seq<Span>)
    requires Proper(ranges)
    ensures MergeSpans(MergeSpans(ranges)) == MergeSpans(ranges)
  {
    hide MergeSpans;
    MergeIsCanonical(ranges);
    MergeFixes(MergeSpans(ranges));
  }

  // ---- one range at a time -------------------------------------------------------

  /** What repeated `addModifiedRange` calls leave for one file. */
  function Incremental(edits: seq<Span>): seq<Span> {
    if edits == [] then []
    else if |edits| == 1 then edits
    else MergeSpans(Incremental(edits[..|edits| - 1]) + [edits[|edits| - 1]])
  }

  lemma {:induction false} IncrementalKeepsLines(edits: seq<Span>, line: int)
    ensures Covers(Incremental(edits), line) <==> Covers(edits, line)
  {
    hide MergeSpans;
    if |edits| <= 1 {
    } else {
      var front, last := edits[..|edits| - 1], edits[|edits| - 1];
      IncrementalKeepsLines(front, line);
      MergeKeepsLines(Incremental(front) + [last]);
      CoversAppend(Incremental(front), [last], line);
      CoversAppend(front, [last], line);
      assert edits == front + [last];
    }
  }

  lemma {:induction false} IncrementalProper(edits: seq<Span>)
    requires Proper(edits)
    ensures Canonical(Incremental(edits))
  {
    hide MergeSpans;
    if |edits| <= 1 {
    } else {
      IncrementalProper(edits[..|edits| - 1]);
      MergeIsCanonical(Incremental(edits[..|edits| - 1]) + [edits[|edits| - 1]]);
    }
  }

  /** Merging range by range gives what one batch merge gives. */
  lemma IncrementalIsBatch(edits: seq<Span>)
    requires Proper(edits)
    ensures Incremental(edits) == MergeSpans(edits)
  {
    hide MergeSpans, Incremental, Canonical;
    IncrementalProper(edits);
    MergeIsCanonical(edits);
    MergeKeepsLines(edits);
    forall line ensures Covers(Incremental(edits), line) <==> Covers(MergeSpans(edits), line) {
      IncrementalKeepsLines(edits, line);
      assert Covers(MergeSpans(edits), line) <==> Covers(edits, line);
    }
    CanonicalUnique(Incremental(edits), MergeSpans(edits));
  }
}
