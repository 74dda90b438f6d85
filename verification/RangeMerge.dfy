/** Merging of modified line ranges (clients/cache-manager.ts:671-697): the method that extends
    range objects in place, and the canonical form it computes. */
module RangeMerge {
  import opened Numbers
  import opened Sorting

  datatype Span = Span(start: int, end: int)

  predicate Inside(line: int, r: Span) { r.start <= line <= r.end }

  /** `isLineInModifiedRange`. */
  predicate Covers(ranges: seq<Span>, line: int) { exists i :: 0 <= i < |ranges| && Inside(line, ranges[i]) }

  predicate StartsBefore(a: Span, b: Span) { a.start <= b.start }

  /** The next range in order either extends the last merged one or opens another. */
  function Extend(merged: seq<Span>, r: Span): seq<Span> {
    if merged == [] then [r]
    else
      var last := merged[|merged| - 1];
      if r.start <= last.end + 1 then merged[..|merged| - 1] + [Span(last.start, Max(last.end, r.end))]
      else merged + [r]
  }

  function Sweep(sorted: seq<Span>): seq<Span> {
    if sorted == [] then [] else Extend(Sweep(sorted[..|sorted| - 1]), sorted[|sorted| - 1])
  }

  function MergeSpans(ranges: seq<Span>): seq<Span> { Sweep(Sort(ranges, StartsBefore)) }

  // ---- the program ---------------------------------------------------------------

  class ModifiedRange {
    var start: int
    var end: int

    constructor (start: int, end: int)
      ensures this.start == start && this.end == end
    {
      this.start, this.end := start, end;
    }

    function Value(): Span
      reads this
    {
      Span(start, end)
    }
  }

  function ValuesOf(rs: seq<ModifiedRange>): (vs: seq<Span>)
    reads rs
    ensures |vs| == |rs|
    ensures forall i :: 0 <= i < |rs| ==> vs[i] == rs[i].Value()
  {
    if rs == [] then [] else ValuesOf(rs[..|rs| - 1]) + [rs[|rs| - 1].Value()]
  }

  /** A range object together with its value when it was sorted. */
  datatype Ref = Ref(obj: ModifiedRange, span: Span)

  predicate RefBefore(a: Ref, b: Ref) { a.span.start <= b.span.start }

  function Tag(rs: seq<ModifiedRange>): (refs: seq<Ref>)
    reads rs
    ensures |refs| == |rs| && SpansOf(refs) == ValuesOf(rs)
    ensures forall x :: x in refs ==> x.obj in rs && x.span == x.obj.Value()
  {
    if rs == [] then []
    else
      var last := rs[|rs| - 1];
      var front := Tag(rs[..|rs| - 1]);
      assert (front + [Ref(last, last.Value())])[..|front|] == front;
      front + [Ref(last, last.Value())]
  }

  function SpansOf(refs: seq<Ref>): (vs: seq<Span>)
    ensures |vs| == |refs|
    ensures forall i :: 0 <= i < |refs| ==> vs[i] == refs[i].span
  {
    if refs == [] then [] else SpansOf(refs[..|refs| - 1]) + [refs[|refs| - 1].span]
  }

  lemma SpansSnoc(refs: seq<Ref>, r: Ref)
    ensures SpansOf(refs + [r]) == SpansOf(refs) + [r.span]
  {
    assert (refs + [r])[..|refs|] == refs;
  }

  lemma {:induction false} InsertCommutes(refs: seq<Ref>, r: Ref)
    ensures SpansOf(Insert(refs, r, RefBefore)) == Insert(SpansOf(refs), r.span, StartsBefore)
  {
    if refs == [] {
    } else {
      var front, last := refs[..|refs| - 1], refs[|refs| - 1];
      assert SpansOf(refs)[..|refs| - 1] == SpansOf(front);
      if RefBefore(last, r) { SpansSnoc(refs, r); } else {
        InsertCommutes(front, r);
        SpansSnoc(Insert(front, r, RefBefore), last);
      }
    }
  }

  /** Sorting the objects sorts their values. */
  lemma {:induction false} SortCommutes(refs: seq<Ref>)
    ensures SpansOf(Sort(refs, RefBefore)) == Sort(SpansOf(refs), StartsBefore)
  {
    if refs == [] {
    } else {
      var front, last := refs[..|refs| - 1], refs[|refs| - 1];
      assert SpansOf(refs)[..|refs| - 1] == SpansOf(front);
      SortCommutes(front);
      InsertCommutes(Sort(front, RefBefore), last);
    }
  }

  lemma SortedRefs(refs: seq<Ref>, sorted: seq<Ref>)
    requires sorted == Sort(refs, RefBefore)
    ensures |sorted| == |refs| && SpansOf(sorted) == Sort(SpansOf(refs), StartsBefore)
    ensures forall i, j :: 0 <= i < j < |sorted| ==> sorted[i].span.start <= sorted[j].span.start
    ensures forall i :: 0 <= i < |sorted| ==> sorted[i] in refs
  {
    SortPermutes(refs, RefBefore);
    SameSize(sorted, refs);
    SortCommutes(refs);
    SortSorts(SpansOf(refs), StartsBefore);
    forall i, j | 0 <= i < j < |sorted| ensures sorted[i].span.start <= sorted[j].span.start {
      assert StartsBefore(SpansOf(sorted)[i], SpansOf(sorted)[j]);
    }
    forall i | 0 <= i < |sorted| ensures sorted[i] in refs { SameMembers(sorted, refs, sorted[i]); }
  }

  /** Only the range that sorts first is changed in place, and only by raising its end. */
  twostate predicate OnlyFirstStretched(ranges: seq<ModifiedRange>, first: ModifiedRange)
    reads ranges, first
  {
    && first.start == old(first.start) && first.end >= old(first.end)
    && forall r :: r in ranges && r != first ==> r.start == old(r.start) && r.end == old(r.end)
  }

  /** A first range that was stretched was not empty, and whatever opened later is past it. */
  ghost predicate Stretched(first: Span, end: int, later: seq<Span>, floor: int) {
    && end >= first.end
    && (end != first.end ==> first.start <= first.end + 1)
    && (later != [] ==> end + 1 < later[0].start <= later[|later| - 1].start <= floor)
  }

  /** Taking the next range through a possibly aliased object is taking its original value. */
  lemma AliasHarmless(first: Span, end: int, later: seq<Span>, r: Span)
    requires Stretched(first, end, later, r.start) && r == first
    ensures Extend([Span(first.start, end)] + later, Span(r.start, end)) == Extend([Span(first.start, end)] + later, r)
  {}

  lemma ExtendKeepsShape(first: Span, end: int, later: seq<Span>, r: Span, floor: int)
    requires Stretched(first, end, later, r.start) && first.start <= r.start <= floor
    ensures var next := Extend([Span(first.start, end)] + later, r);
            && |next| > 0 && next[0].start == first.start && Stretched(first, next[0].end, next[1..], floor)
            && (later != [] ==> next[0].end == end)
  {
    var merged := [Span(first.start, end)] + later;
    var next := Extend(merged, r);
    if later == [] {
      assert merged == [Span(first.start, end)];
    } else {
      assert merged[|merged| - 1] == later[|later| - 1];
      assert next[1] .start == later[0].start;
    }
  }

  /** One iteration: stretch the last merged object, or append a copy. */
  method StretchOrCopy(merged: seq<ModifiedRange>, current: ModifiedRange) returns (next: seq<ModifiedRange>)
    requires merged != [] && forall i :: 0 <= i < |merged| - 1 ==> merged[i] != merged[|merged| - 1]
    modifies merged[|merged| - 1]
    ensures ValuesOf(next) == Extend(old(ValuesOf(merged)), old(current.Value()))
    ensures merged[|merged| - 1].start == old(merged[|merged| - 1].start)
    ensures merged[|merged| - 1].end >= old(merged[|merged| - 1].end)
    ensures next == merged || (|next| == |merged| + 1 && next[..|merged|] == merged && fresh(next[|merged|]))
  {
    var last := merged[|merged| - 1];
    ghost var front := merged[..|merged| - 1];
    if current.start <= last.end + 1 {
      ghost var kept := ValuesOf(front);
      last.end := Max(last.end, current.end);
      next := merged;
      assert ValuesOf(front) == kept;
    } else {
      var copy := new ModifiedRange(current.start, current.end);
      next := merged + [copy];
      assert next[..|merged|] == merged;
    }
  }

  /** `[...ranges].sort(...)`, each object with the value it is sorted by. */
  method SortByStart(ranges: seq<ModifiedRange>) returns (sorted: seq<Ref>)
    ensures |sorted| == |ranges| && SpansOf(sorted) == Sort(ValuesOf(ranges), StartsBefore)
    ensures forall i, j :: 0 <= i < j < |sorted| ==> sorted[i].span.start <= sorted[j].span.start
    ensures forall i :: 0 <= i < |sorted| ==> sorted[i].obj in ranges && sorted[i].span == sorted[i].obj.Value()
  {
    hide Sort, Tag, SpansOf, ValuesOf;
    var refs := Tag(ranges);
    sorted := Sort(refs, RefBefore);
    SortedRefs(refs, sorted);
  }

  /** What the next range does to the values. */
  lemma NextValues(sorted: seq<Ref>, k: nat, values: seq<Span>, end: int, r: Span)
    requires 0 < k < |sorted| && forall i, j :: 0 <= i < j < |sorted| ==> sorted[i].span.start <= sorted[j].span.start
    requires values == Sweep(SpansOf(sorted[..k])) && |values| > 0 && values[0] == Span(sorted[0].span.start, end)
    requires Stretched(sorted[0].span, end, values[1..], sorted[k].span.start)
    requires r == sorted[k].span || (sorted[k].span == sorted[0].span && r == Span(sorted[0].span.start, end))
    ensures var next := Extend(values, r);
            && next == Sweep(SpansOf(sorted[..k + 1])) && |next| > 0
            && Stretched(sorted[0].span, next[0].end, next[1..],
              sorted[if k + 1 < |sorted| then k + 1 else k].span.start)
  {
    hide Sweep, SpansOf, Stretched, Extend;
    assert values == [Span(sorted[0].span.start, end)] + values[1..];
    ExtendKeepsShape(sorted[0].span, end, values[1..], sorted[k].span,
      sorted[if k + 1 < |sorted| then k + 1 else k].span.start);
    if r != sorted[k].span { AliasHarmless(sorted[0].span, end, values[1..], sorted[k].span); }
    SweepSnoc(sorted[..k], sorted[k]);
    assert sorted[..k + 1] == sorted[..k] + [sorted[k]];
  }

  lemma SweepSnoc(front: seq<Ref>, r: Ref)
    ensures Sweep(SpansOf(front + [r])) == Extend(Sweep(SpansOf(front)), r.span)
  {
    assert (front + [r])[..|front|] == front;
  }

  /** The state of the merge before the `k`th sorted range. */
  ghost predicate Merging(sorted: seq<Ref>, merged: seq<ModifiedRange>, k: nat)
    requires 0 < k <= |sorted|
    reads merged, set i | 0 <= i < |sorted| :: sorted[i].obj
  {
    && (forall i, j :: 0 <= i < j < |sorted| ==> sorted[i].span.start <= sorted[j].span.start)
    && |merged| > 0 && merged[0] == sorted[0].obj && merged[0].start == sorted[0].span.start
    && (forall i :: 0 <= i < |sorted| && sorted[i].obj != merged[0] ==> sorted[i].span == sorted[i].obj.Value())
    && (forall i :: 0 <= i < |sorted| && sorted[i].obj == merged[0] ==> sorted[i].span == sorted[0].span)
    && (forall i, j :: 0 < i < |merged| && 0 <= j < |sorted| ==> merged[i] != sorted[j].obj)
    && (forall i, j :: 0 <= i < j < |merged| ==> merged[i] != merged[j])
    && ValuesOf(merged) == Sweep(SpansOf(sorted[..k]))
    && Stretched(sorted[0].span, merged[0].end, ValuesOf(merged)[1..],
      sorted[if k < |sorted| then k else k - 1].span.start)
  }

  method MergeNext(sorted: seq<Ref>, merged: seq<ModifiedRange>, k: nat) returns (next: seq<ModifiedRange>)
    requires 0 < k < |sorted| && Merging(sorted, merged, k)
    modifies merged[|merged| - 1]
    ensures Merging(sorted, next, k + 1)
    ensures merged[0].start == old(merged[0].start) && merged[0].end >= old(merged[0].end)
    ensures next == merged || (|next| == |merged| + 1 && next[..|merged|] == merged && fresh(next[|merged|]))
  {
    hide SpansOf, Sweep, Stretched, Extend, ValuesOf;
    ghost var values := Extend(ValuesOf(merged), sorted[k].obj.Value());
    NextValues(sorted, k, ValuesOf(merged), merged[0].end, sorted[k].obj.Value());
    next := StretchOrCopy(merged, sorted[k].obj);
    assert ValuesOf(next) == values;
    assert next[0] == merged[0];
  }

  /** The merged list: the first input object, possibly stretched, and copies. */
  method MergeRanges(ranges: seq<ModifiedRange>) returns (merged: seq<ModifiedRange>)
    modifies ranges
    ensures ValuesOf(merged) == MergeSpans(old(ValuesOf(ranges)))
    ensures ranges == [] <==> merged == []
    ensures ranges != [] ==> merged[0] in ranges && OnlyFirstStretched(ranges, merged[0])
    ensures forall i :: 0 < i < |merged| ==> fresh(merged[i])
  {
    hide SpansOf, Sweep, Stretched, Extend, Sort, ValuesOf, Merging, MergeSpans;
    if |ranges| == 0 {
      NothingToMerge(ranges);
      return [];
    }
    var sorted := SortByStart(ranges);
    merged := [sorted[0].obj];
    OneValue(merged);
    FirstMerged(sorted, merged);
    for k := 1 to |sorted|
      invariant |merged| > 0 && merged[0] == sorted[0].obj
      invariant Merging(sorted, merged, k)
      invariant forall i :: 0 < i < |merged| ==> fresh(merged[i])
      invariant OnlyFirstStretched(ranges, merged[0])
    {
      merged := MergeNext(sorted, merged, k);
    }
    MergeDone(sorted, merged, old(ValuesOf(ranges)));
  }

  lemma NothingToMerge(ranges: seq<ModifiedRange>)
    requires ranges == []
    ensures ValuesOf(ranges) == [] && MergeSpans([]) == []
  {}

  lemma MergeDone(sorted: seq<Ref>, merged: seq<ModifiedRange>, values: seq<Span>)
    requires |sorted| > 0 && Merging(sorted, merged, |sorted|) && SpansOf(sorted) == Sort(values, StartsBefore)
    ensures ValuesOf(merged) == MergeSpans(values)
  {
    assert sorted[..|sorted|] == sorted;
  }

  lemma OneValue(merged: seq<ModifiedRange>)
    requires |merged| == 1
    ensures ValuesOf(merged) == [merged[0].Value()]
  {}

  lemma FirstMerged(sorted: seq<Ref>, merged: seq<ModifiedRange>)
    requires |sorted| > 0 && merged == [sorted[0].obj]
    requires forall i, j :: 0 <= i < j < |sorted| ==> sorted[i].span.start <= sorted[j].span.start
    requires forall i :: 0 <= i < |sorted| ==> sorted[i].span == sorted[i].obj.Value()
    ensures Merging(sorted, merged, 1)
  {
    SweepSnoc([], sorted[0]);
    OneValue(merged);
    assert sorted[..1] == [] + [sorted[0]];
  }
}
