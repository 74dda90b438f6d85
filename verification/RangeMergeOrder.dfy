/** When merging ranges depends on the order of the input (clients/cache-manager.ts:674-690):
    for every list of ranges, empty ones included. */
module RangeMergeOrder {
  import opened Numbers
  import opened Sorting
  import opened RangeMerge
  import opened RangeMergeLaws

  /** The range ends before the line in front of its start: nothing can be joined to it. */
  predicate Detached(r: Span) { r.end < r.start - 1 }

  /** Two ranges at one start of which one is detached and no earlier range reaches. */
  predicate Conflict(ranges: seq<Span>, x: Span, y: Span) {
    && x in ranges && y in ranges && x != y && x.start == y.start && Detached(x)
    && forall k :: 0 <= k < |ranges| && ranges[k].start < x.start ==> ranges[k].end < x.start - 1
  }

  ghost predicate Conflicted(ranges: seq<Span>) { exists x, y :: Conflict(ranges, x, y) }

  /** Every arrangement of the ranges merges to the same list. */
  ghost predicate OrderFree(ranges: seq<Span>) {
    forall other :: multiset(other) == multiset(ranges) ==> MergeSpans(other) == MergeSpans(ranges)
  }

  // ---- without a conflict the order is free --------------------------------------

  /** Ends of the ranges taken so far reach no further than the last merged range, unless they
      end before it starts. */
  ghost predicate Bounded(sorted: seq<Span>, merged: seq<Span>) {
    && merged != []
    && var last := merged[|merged| - 1];
       forall k :: 0 <= k < |sorted| ==> sorted[k].end <= last.end || sorted[k].end < last.start - 1
  }

  lemma ExtendBounds(front: seq<Span>, merged: seq<Span>, r: Span)
    requires Bounded(front, merged) && merged[|merged| - 1].start <= r.start
    ensures Bounded(front + [r], Extend(merged, r))
  {
    var sorted, last, next := front + [r], merged[|merged| - 1], Extend(merged, r);
    var after := next[|next| - 1];
    if r.start <= last.end + 1 {
      assert after == Span(last.start, Max(last.end, r.end));
    } else {
      assert after == r;
    }
    forall k | 0 <= k < |sorted| ensures sorted[k].end <= after.end || sorted[k].end < after.start - 1 {
      if k < |front| { assert sorted[k] == front[k]; } else { assert sorted[k] == r; }
    }
  }

  lemma {:induction false} SweepBounds(sorted: seq<Span>)
    requires SortedStarts(sorted) && sorted != []
    ensures Bounded(sorted, Sweep(sorted))
  {
    hide Extend, Bounded;
    var front, r := sorted[..|sorted| - 1], sorted[|sorted| - 1];
    if front == [] {
      assert sorted == [] + [r];
      FirstBounds(r);
    } else {
      SweepBounds(front);
      SweepStarts(front);
      ExtendBounds(front, Sweep(front), r);
      assert sorted == front + [r];
    }
  }

  lemma FirstBounds(r: Span)
    ensures Bounded([r], Sweep([r]))
  {
    assert Sweep([]) == [];
  }

  predicate EarlierIn(all: seq<Span>, start: int, front: seq<Span>) {
    forall k :: 0 <= k < |all| && all[k].start < start ==> all[k] in front
  }

  /** Neighbours with one start may be exchanged. */
  lemma NeighboursCommute(front: seq<Span>, x: Span, y: Span, all: seq<Span>)
    requires SortedStarts(front + [x]) && x.start == y.start
    requires !Conflicted(all) && x in all && y in all && EarlierIn(all, x.start, front)
    ensures Extend(Extend(Sweep(front), x), y) == Extend(Extend(Sweep(front), y), x)
  {
    var m := Sweep(front);
    if x != y && (Detached(x) || Detached(y)) {
      assert !Conflict(all, x, y) && !Conflict(all, y, x);
      var k :| 0 <= k < |all| && all[k].start < x.start && all[k].end >= x.start - 1;
      var j :| 0 <= j < |front| && front[j] == all[k];
      FrontStarts(front, x);
      SweepBounds(front);
      SweepStarts(front);
      assert front[j].end <= m[|m| - 1].end;
    }
    if m != [] && x.start <= m[|m| - 1].end + 1 {
      ExtendTwice(m, x, y);
      ExtendTwice(m, y, x);
    }
  }

  lemma FrontStarts(front: seq<Span>, x: Span)
    requires SortedStarts(front + [x])
    ensures SortedStarts(front) && forall i :: 0 <= i < |front| ==> front[i].start <= x.start
  {
    var all := front + [x];
    forall i | 0 <= i < |front| ensures front[i].start <= x.start { assert all[i].start <= all[|front|].start; }
    forall i, j | 0 <= i < j < |front| ensures front[i].start <= front[j].start { assert all[i].start <= all[j].start; }
  }

  lemma ExtendTwice(m: seq<Span>, x: Span, y: Span)
    requires m != [] && x.start == y.start <= m[|m| - 1].end + 1
    ensures var last := m[|m| - 1];
            Extend(Extend(m, x), y) == m[..|m| - 1] + [Span(last.start, Max(Max(last.end, x.end), y.end))]
  {
    var last := m[|m| - 1];
    assert (m[..|m| - 1] + [Span(last.start, Max(last.end, x.end))])[..|m| - 1] == m[..|m| - 1];
  }

  lemma SweepLast(front: seq<Span>, r: Span)
    ensures Sweep(front + [r]) == Extend(Sweep(front), r)
  {
    assert (front + [r])[..|front|] == front;
  }

  /** Further ranges of a list, all with one start. */
  predicate GroupIn(all: seq<Span>, start: int, group: seq<Span>) {
    forall i :: 0 <= i < |group| ==> group[i].start == start && group[i] in all
  }

  /** A range may be moved behind later ones with its start. */
  lemma {:induction false} MoveBack(front: seq<Span>, x: Span, group: seq<Span>, all: seq<Span>)
    requires SortedStarts(front + [x]) && !Conflicted(all) && x in all
    requires GroupIn(all, x.start, group) && EarlierIn(all, x.start, front)
    ensures Sweep(front + [x] + group) == Sweep(front + group + [x])
  {
    hide Sweep, Conflicted, Extend, SortedStarts;
    if group == [] {
      assert front + [x] + group == front + group + [x];
    } else {
      var less, y := group[..|group| - 1], group[|group| - 1];
      assert group == less + [y];
      MoveBack(front, x, less, all);
      GroupSorted(front, x, less);
      NeighboursCommute(front + less, x, y, all);
      SweepLast(front + [x] + less, y);
      SweepLast(front + less, x);
      SweepLast(front + less, y);
      SweepLast(front + less + [y], x);
      assert front + [x] + less + [y] == front + [x] + group;
      assert front + less + [y] + [x] == front + group + [x];
    }
  }

  lemma GroupSorted(front: seq<Span>, x: Span, group: seq<Span>)
    requires SortedStarts(front + [x]) && forall i :: 0 <= i < |group| ==> group[i].start == x.start
    ensures SortedStarts(front + group + [x])
  {
    FrontStarts(front, x);
  }

  lemma WithoutAt(s: seq<Span>, i: nat)
    requires i < |s| && SortedStarts(s)
    ensures SortedStarts(s[..i] + s[i + 1..]) && multiset(s[..i] + s[i + 1..]) == multiset(s) - multiset{s[i]}
  {
    assert s == s[..i] + [s[i]] + s[i + 1..];
    var rest := s[..i] + s[i + 1..];
    forall a, b | 0 <= a < b < |rest| ensures rest[a].start <= rest[b].start {
      assert rest[a] == s[if a < i then a else a + 1] && rest[b] == s[if b < i then b else b + 1];
    }
  }

  /** Leaving out a range that starts last cannot create a conflict. */
  lemma FewerConflicts(all: seq<Span>, x: Span, fewer: seq<Span>)
    requires !Conflicted(all) && x in all && multiset(fewer) == multiset(all) - multiset{x}
    requires forall k :: 0 <= k < |all| ==> all[k].start <= x.start
    ensures !Conflicted(fewer)
  {
    if a, b :| Conflict(fewer, a, b) {
      Kept(all, x, fewer, a);
      Kept(all, x, fewer, b);
      forall k | 0 <= k < |all| && all[k].start < a.start ensures all[k].end < a.start - 1 {
        assert all[k] in multiset(all);
        assert all[k] in multiset(fewer);
        var j :| 0 <= j < |fewer| && fewer[j] == all[k];
      }
      assert Conflict(all, a, b);
    }
  }

  lemma Kept(all: seq<Span>, x: Span, fewer: seq<Span>, a: Span)
    requires multiset(fewer) == multiset(all) - multiset{x} && a in fewer
    ensures a in all
  {
    assert a in multiset(fewer);
    assert a in multiset(all);
  }

  /** The last of one arrangement, found in another. */
  lemma LastIn(s: seq<Span>, t: seq<Span>) returns (i: nat)
    requires SortedStarts(s) && SortedStarts(t) && multiset(s) == multiset(t) && t != []
    ensures i < |s| && s[i] == t[|t| - 1] && s[i] in s
    ensures forall k :: 0 <= k < |s| ==> s[k].start <= s[i].start
    ensures SortedStarts(s[..i] + [s[i]]) && GroupIn(s, s[i].start, s[i + 1..]) && EarlierIn(s, s[i].start, s[..i])
  {
    var x := t[|t| - 1];
    SameMembers(s, t, x);
    i :| 0 <= i < |s| && s[i] == x;
    forall k | 0 <= k < |s| ensures s[k].start <= x.start {
      SameMembers(s, t, s[k]);
      var j :| 0 <= j < |t| && t[j] == s[k];
    }
    assert s[..i] + [s[i]] == s[..i + 1];
    forall k | 0 <= k < |s| && s[k].start < x.start ensures s[k] in s[..i] {
      assert k < i;
      assert s[..i][k] == s[k];
    }
  }

  /** The last range of one arrangement, taken out of another. */
  lemma TakenOut(s: seq<Span>, i: nat) returns (fewer: seq<Span>)
    requires SortedStarts(s) && !Conflicted(s) && i < |s|
    requires forall k :: 0 <= k < |s| ==> s[k].start <= s[i].start
    requires SortedStarts(s[..i] + [s[i]]) && GroupIn(s, s[i].start, s[i + 1..]) && EarlierIn(s, s[i].start, s[..i])
    ensures SortedStarts(fewer) && !Conflicted(fewer) && |fewer| == |s| - 1
    ensures multiset(fewer) == multiset(s) - multiset{s[i]} && Sweep(s) == Extend(Sweep(fewer), s[i])
  {
    hide Sweep, Conflicted, SortedStarts, GroupIn, EarlierIn, Extend;
    fewer := s[..i] + s[i + 1..];
    assert s == s[..i] + [s[i]] + s[i + 1..];
    WithoutAt(s, i);
    MoveBack(s[..i], s[i], s[i + 1..], s);
    FewerConflicts(s, s[i], fewer);
    SweepLast(fewer, s[i]);
  }

  lemma FrontOf(t: seq<Span>)
    requires SortedStarts(t) && t != []
    ensures SortedStarts(t[..|t| - 1]) && multiset(t[..|t| - 1]) == multiset(t) - multiset{t[|t| - 1]}
  {
    assert t == t[..|t| - 1] + [t[|t| - 1]];
  }

  /** Sorted arrangements of ranges without a conflict are swept to the same list. */
  lemma {:induction false} SweepOrderFree(s: seq<Span>, t: seq<Span>)
    requires SortedStarts(s) && SortedStarts(t) && multiset(s) == multiset(t) && !Conflicted(s)
    ensures Sweep(s) == Sweep(t)
    decreases |s|
  {
    hide Conflicted, SortedStarts, GroupIn, EarlierIn, Extend;
    SameSize(s, t);
    if t == [] {
      assert s == [];
    } else {
      var i := LastIn(s, t);
      var fewer := TakenOut(s, i);
      FrontOf(t);
      SweepOrderFree(fewer, t[..|t| - 1]);
    }
  }

  // ---- a conflict shows ----------------------------------------------------------

  /** The range a merge opens last stays as it is while nothing later touches it. */
  lemma {:induction false} StaysDetached(merged: seq<Span>, x: Span, front: seq<Span>, later: seq<Span>)
    requires Sweep(front) == merged + [x] && Detached(x) && forall i :: 0 <= i < |later| ==> later[i].start >= x.start
    ensures |Sweep(front + later)| > |merged| && Sweep(front + later)[|merged|] == x
  {
    if later == [] {
      assert front + later == front;
    } else {
      var less, r := later[..|later| - 1], later[|later| - 1];
      StaysDetached(merged, x, front, less);
      assert front + later == front + less + [r];
      SweepLast(front + less, r);
    }
  }

  /** Otherwise it keeps its start and never shrinks. */
  lemma {:induction false} NeverShrinks(merged: seq<Span>, y: Span, front: seq<Span>, later: seq<Span>)
    requires Sweep(front) == merged + [y]
    ensures |Sweep(front + later)| > |merged|
    ensures Sweep(front + later)[|merged|].start == y.start && Sweep(front + later)[|merged|].end >= y.end
  {
    if later == [] {
      assert front + later == front;
    } else {
      var less, r := later[..|later| - 1], later[|later| - 1];
      NeverShrinks(merged, y, front, less);
      assert front + later == front + less + [r];
      SweepLast(front + less, r);
    }
  }

  /** Nothing in front reaches the start: the next range opens a merged range of its own. */
  lemma {:induction false} EndsAreInputs(sorted: seq<Span>, start: int)
    requires forall k :: 0 <= k < |sorted| ==> sorted[k].end < start - 1
    ensures forall k :: 0 <= k < |Sweep(sorted)| ==> Sweep(sorted)[k].end < start - 1
  {
    if sorted == [] {
    } else {
      EndsAreInputs(sorted[..|sorted| - 1], start);
    }
  }

  lemma OpensOwn(front: seq<Span>, r: Span)
    requires forall k :: 0 <= k < |front| ==> front[k].end < r.start - 1
    ensures Sweep(front + [r]) == Sweep(front) + [r]
  {
    hide Sweep;
    EndsAreInputs(front, r.start);
    SweepLast(front, r);
  }

  /** The group in either order is swept to different lists. */
  lemma ConflictShows(front: seq<Span>, x: Span, afterX: seq<Span>, y: Span, afterY: seq<Span>)
    requires x != y && x.start == y.start && Detached(x)
    requires forall k :: 0 <= k < |front| ==> front[k].end < x.start - 1
    requires forall k :: 0 <= k < |afterX| ==> afterX[k].start >= x.start
    requires forall k :: 0 <= k < |afterY| ==> afterY[k].start >= x.start
    ensures Sweep(front + [x] + afterX) != Sweep(front + [y] + afterY)
  {
    hide Sweep;
    OpensOwn(front, x);
    OpensOwn(front, y);
    StaysDetached(Sweep(front), x, front + [x], afterX);
    NeverShrinks(Sweep(front), y, front + [y], afterY);
    if Detached(y) { StaysDetached(Sweep(front), y, front + [y], afterY); }
  }

  /** A sorted list falls into the ranges that start before a line and the others. */
  lemma SplitAt(sorted: seq<Span>, start: int) returns (n: nat)
    requires SortedStarts(sorted)
    ensures n <= |sorted|
    ensures forall k :: 0 <= k < n ==> sorted[k].start < start
    ensures forall k :: n <= k < |sorted| ==> sorted[k].start >= start
  {
    n := |sorted|;
    while n > 0 && sorted[n - 1].start >= start
      invariant n <= |sorted| && forall k :: n <= k < |sorted| ==> sorted[k].start >= start
    {
      n := n - 1;
    }
  }

  lemma MoveForward(front: seq<Span>, before: seq<Span>, x: Span, after: seq<Span>)
    requires SortedStarts(front + before + [x] + after) && forall k :: 0 <= k < |before| ==> before[k].start >= x.start
    requires forall k :: 0 <= k < |after| ==> after[k].start >= x.start
    ensures SortedStarts(front + [x] + (before + after))
    ensures multiset(front + [x] + (before + after)) == multiset(front + before + [x] + after)
  {
    var sorted, moved := front + before + [x] + after, front + [x] + (before + after);
    var n, i := |front|, |front| + |before|;
    forall a | 0 <= a < |moved| && a != n ensures moved[a] == sorted[if n < a <= i then a - 1 else a] {}
    forall a, b | 0 <= a < b < |moved| ensures moved[a].start <= moved[b].start {
      if a == n {
      } else if b == n {
        assert sorted[a].start <= sorted[i].start;
      } else {
        var c, d := if n < a <= i then a - 1 else a, if n < b <= i then b - 1 else b;
        assert sorted[c].start <= sorted[d].start;
      }
    }
  }

  /** The list with one range of the second part taken to its beginning. */
  lemma BroughtForward(sorted: seq<Span>, n: nat, x: Span) returns (rest: seq<Span>)
    requires SortedStarts(sorted) && n <= |sorted| && x in sorted
    requires forall k :: 0 <= k < n ==> sorted[k].start < x.start
    requires forall k :: n <= k < |sorted| ==> sorted[k].start >= x.start
    ensures SortedStarts(sorted[..n] + [x] + rest) && multiset(sorted[..n] + [x] + rest) == multiset(sorted)
    ensures forall k :: 0 <= k < |rest| ==> rest[k].start >= x.start
  {
    hide SortedStarts;
    var i :| 0 <= i < |sorted| && sorted[i] == x;
    rest := sorted[n..i] + sorted[i + 1..];
    assert sorted == sorted[..n] + sorted[n..i] + [x] + sorted[i + 1..];
    MoveForward(sorted[..n], sorted[n..i], x, sorted[i + 1..]);
  }

  lemma MergeOfSorted(sorted: seq<Span>)
    requires SortedStarts(sorted)
    ensures MergeSpans(sorted) == Sweep(sorted)
  {
    SortedIsFixed(sorted, StartsBefore);
  }

  /** From a conflict, two arrangements that merge differently. */
  lemma ConflictIsOrder(ranges: seq<Span>, x: Span, y: Span) returns (a: seq<Span>, b: seq<Span>)
    requires Conflict(ranges, x, y)
    ensures multiset(a) == multiset(ranges) == multiset(b) && MergeSpans(a) != MergeSpans(b)
  {
    hide Sweep, MergeSpans, SortedStarts;
    var sorted := Sort(ranges, StartsBefore);
    SortedByStart(ranges);
    var n := SplitAt(sorted, x.start);
    SameMembers(sorted, ranges, x);
    SameMembers(sorted, ranges, y);
    var afterX := BroughtForward(sorted, n, x);
    var afterY := BroughtForward(sorted, n, y);
    a, b := sorted[..n] + [x] + afterX, sorted[..n] + [y] + afterY;
    forall k | 0 <= k < n ensures sorted[..n][k].end < x.start - 1 {
      SameMembers(sorted, ranges, sorted[k]);
      var j :| 0 <= j < |ranges| && ranges[j] == sorted[k];
    }
    ConflictShows(sorted[..n], x, afterX, y, afterY);
    MergeOfSorted(a);
    MergeOfSorted(b);
  }

  // ---- exactly when ---------------------------------------------------------------

  lemma ConflictPermutes(a: seq<Span>, b: seq<Span>)
    requires multiset(a) == multiset(b) && Conflicted(a)
    ensures Conflicted(b)
  {
    var x, y :| Conflict(a, x, y);
    SameMembers(a, b, x);
    SameMembers(a, b, y);
    forall k | 0 <= k < |b| && b[k].start < x.start ensures b[k].end < x.start - 1 {
      SameMembers(a, b, b[k]);
      var j :| 0 <= j < |a| && a[j] == b[k];
    }
    assert Conflict(b, x, y);
  }

  lemma UnconflictedMerge(a: seq<Span>, b: seq<Span>)
    requires multiset(a) == multiset(b) && !Conflicted(a)
    ensures MergeSpans(a) == MergeSpans(b)
  {
    hide Sweep, Conflicted, SortedStarts, Sort;
    SortedByStart(a);
    SortedByStart(b);
    if Conflicted(Sort(a, StartsBefore)) { ConflictPermutes(Sort(a, StartsBefore), a); }
    SweepOrderFree(Sort(a, StartsBefore), Sort(b, StartsBefore));
  }

  /** Every arrangement of some ranges merges alike, unless two different ranges share a start
      `s`, one of them ends before line `s - 1`, and no range that starts earlier reaches it. */
  lemma OrderFreeIff(ranges: seq<Span>)
    ensures OrderFree(ranges) <==> !Conflicted(ranges)
  {
    hide MergeSpans, Conflict;
    if Conflicted(ranges) {
      var x, y :| Conflict(ranges, x, y);
      var a, b := ConflictIsOrder(ranges, x, y);
      assert MergeSpans(a) != MergeSpans(ranges) || MergeSpans(b) != MergeSpans(ranges);
    } else {
      forall other | multiset(other) == multiset(ranges) ensures MergeSpans(other) == MergeSpans(ranges) {
        UnconflictedMerge(ranges, other);
      }
    }
  }

  /** Detached ranges that are in conflict, and some that are not. */
  lemma ConflictExamples()
    ensures !OrderFree([Span(5, 2), Span(5, 1)])
    ensures OrderFree([Span(5, 2), Span(5, 1), Span(3, 4)])
  {
    var r := [Span(5, 2), Span(5, 1)];
    assert r[0] == Span(5, 2) && r[1] == Span(5, 1);
    assert Conflict(r, Span(5, 2), Span(5, 1));
    OrderFreeIff(r);
    var reached := [Span(5, 2), Span(5, 1), Span(3, 4)];
    assert reached[2] == Span(3, 4);
    OrderFreeIff(reached);
  }
}
