/** What the freshness gate does with each finding, read off the filesystem: one probe of the
    path it names, the scan time and the store's deletion policy (clients/advisory-provenance.ts:543-620).
    Which paths a store knows is read off its findings and its allowance. */
module FreshnessFates {
  import opened JsMap
  import opened Sorting
  import opened FreshnessGate

  /** The resolved path a finding names, if it names one. */
  function PathOf<T>(w: World, src: Source<T>, finding: T): Option<string> {
    match src.citedPath(finding)
    case None => None
    case Some(cited) => if cited == "" then None else Some(w.resolve(cited))
  }

  /** The named paths, each once, in the order in which they are first named. */
  function Paths<T>(w: World, src: Source<T>, findings: seq<T>): seq<string> {
    if findings == [] then []
    else
      var front := Paths(w, src, findings[..|findings| - 1]);
      match PathOf(w, src, findings[|findings| - 1])
      case None => front
      case Some(path) => Add(front, path)
  }

  /** Those of the paths that the delivery has not seen before. */
  function NewTo(memo: FactsMemo, paths: seq<string>): (unseen: seq<string>)
    ensures |unseen| <= |paths| && forall r :: r in unseen <==> r in paths && r !in memo
  {
    if paths == [] then []
    else
      var front, last := NewTo(memo, paths[..|paths| - 1]), paths[|paths| - 1];
      assert paths == paths[..|paths| - 1] + [last];
      if last in memo then front else front + [last]
  }

  /** The first `limit` elements. */
  function FirstFew(paths: seq<string>, limit: int): (few: seq<string>)
    ensures few <= paths && |few| == if limit <= 0 then 0 else if limit <= |paths| then limit else |paths|
  {
    if limit <= 0 then [] else if limit <= |paths| then paths[..limit] else paths
  }

  /** What a store knows after a pass: whatever the delivery knew before, and as many new paths
      as the store's allowance pays for, in the order in which it names them. */
  ghost function Known(w: World, memo: FactsMemo, paths: seq<string>): set<string> {
    memo.Keys + set path | path in FirstFew(NewTo(memo, paths), w.limit)
  }

  datatype Fate = Kept | Demoted | Dropped

  /** A path that was edited after the scan, beyond the drift of the clock. */
  predicate Edited<T>(w: World, src: Source<T>, path: string) {
    w.probe(path).Present? && src.scannedAtMs.Some? && w.probe(path).mtimeMs > src.scannedAtMs.value + 50.0
  }

  function FateOfPath<T>(w: World, src: Source<T>, path: string): Fate {
    if w.probe(path) == Missing then if src.onMissing == DropMissing then Dropped else Demoted
    else if Edited(w, src, path) then Demoted
    else Kept
  }

  ghost function FateOf<T>(w: World, src: Source<T>, known: set<string>, finding: T): Fate {
    match PathOf(w, src, finding)
    case None => Kept
    case Some(path) => if path in known then FateOfPath(w, src, path) else Kept
  }

  /** The findings of one fate, in order. */
  ghost function Select<T>(w: World, src: Source<T>, known: set<string>, findings: seq<T>, fate: Fate): seq<T> {
    if findings == [] then []
    else
      var front, last := Select(w, src, known, findings[..|findings| - 1], fate), findings[|findings| - 1];
      if FateOf(w, src, known, last) == fate then front + [last] else front
  }

  /** The known paths of one fate, in order. */
  ghost function SelectPaths<T>(w: World, src: Source<T>, known: set<string>, paths: seq<string>, fate: Fate)
    : seq<string>
  {
    if paths == [] then []
    else
      var front, last := SelectPaths(w, src, known, paths[..|paths| - 1], fate), paths[|paths| - 1];
      if last in known && FateOfPath(w, src, last) == fate then front + [last] else front
  }

  // ---- what a pass keeps ---------------------------------------------------------

  function AsFate(verdict: Freshness): Fate {
    match verdict
    case IsMissing => Dropped
    case IsStale => Demoted
    case _ => Kept
  }

  /** The fate of a path as the store sees it: what it does not know, it keeps. */
  ghost function Seen<T>(w: World, src: Source<T>, known: set<string>, path: string): Fate {
    if path in known then FateOfPath(w, src, path) else Kept
  }

  /** After naming `paths`: which facts are held, what was paid, and what each citation got. */
  ghost predicate Judged<T>(w: World, src: Source<T>, memo: FactsMemo, paths: seq<string>, p: Progress<T>) {
    && Truthful(w, p.facts)
    && p.seen == (set path | path in paths)
    && p.facts.Keys == Known(w, memo, paths)
    && p.probed == |FirstFew(NewTo(memo, paths), w.limit)|
    && p.starvedRaw == (set cited | cited in p.raw && w.resolve(cited) !in p.facts)
    && forall cited :: cited in p.raw ==>
         w.resolve(cited) in paths && AsFate(p.raw[cited]) == Seen(w, src, p.facts.Keys, w.resolve(cited))
  }

  /** Knowing one path more, or as much as before. */
  lemma KnownGrows(w: World, memo: FactsMemo, paths: seq<string>, path: string)
    requires path !in paths
    ensures path in Known(w, memo, paths) <==> path in memo
    ensures var spent := |FirstFew(NewTo(memo, paths), w.limit)|;
            var more := |FirstFew(NewTo(memo, paths + [path]), w.limit)|;
            if path in memo || spent >= w.limit
            then Known(w, memo, paths + [path]) == Known(w, memo, paths) && more == spent
            else Known(w, memo, paths + [path]) == Known(w, memo, paths) + {path} && more == spent + 1
  {
    assert (paths + [path])[..|paths|] == paths;
    var before, after := NewTo(memo, paths), NewTo(memo, paths + [path]);
    if path in memo {
      assert after == before;
    } else {
      assert after == before + [path];
      if w.limit > |before| { assert FirstFew(after, w.limit) == before + [path]; }
      else { assert FirstFew(after, w.limit) == FirstFew(before, w.limit); }
    }
  }

  /** A named path is known unless the allowance is spent. */
  lemma UnknownMeansSpent(w: World, memo: FactsMemo, paths: seq<string>, path: string)
    requires path in paths && path !in Known(w, memo, paths)
    ensures |FirstFew(NewTo(memo, paths), w.limit)| >= w.limit
  {
    var unseen := NewTo(memo, paths);
    assert path in unseen;
  }

  lemma VerdictIsFate<T>(w: World, src: Source<T>, path: string)
    ensures AsFate(VerdictOf(w.probe(path), src.scannedAtMs, src.onMissing)) == FateOfPath(w, src, path)
    ensures AsFate(VerdictOf(Unknown, src.scannedAtMs, src.onMissing)) == Kept
  {}

  /** The first citation of a path the store has named before: nothing is probed. */
  lemma JudgeNamed<T>(w: World, src: Source<T>, memo: FactsMemo, paths: seq<string>, p: Progress<T>, cited: string)
    requires Judged(w, src, memo, paths, p) && cited !in p.raw && w.resolve(cited) in paths
    ensures Judged(w, src, memo, paths, Judge(w, src, p, cited)) && Judge(w, src, p, cited).facts == p.facts
  {
    hide VerdictOf, FateOfPath, Known, FirstFew, NewTo;
    var path := w.resolve(cited);
    VerdictIsFate(w, src, path);
    if path !in p.facts { UnknownMeansSpent(w, memo, paths, path); }
  }

  /** What each citation got, when one of a new path is added. */
  lemma JudgeNewCites<T>(w: World, src: Source<T>, memo: FactsMemo, paths: seq<string>, p: Progress<T>, cited: string,
                         next: Progress<T>)
    requires Judged(w, src, memo, paths, p) && cited !in p.raw && w.resolve(cited) !in paths
    requires next == Judge(w, src, p, cited) && (w.resolve(cited) in p.facts ==> w.resolve(cited) in memo)
    ensures next.starvedRaw == set c | c in next.raw && w.resolve(c) !in next.facts
    ensures forall c :: c in next.raw ==>
              && w.resolve(c) in paths + [w.resolve(cited)]
              && AsFate(next.raw[c]) == Seen(w, src, next.facts.Keys, w.resolve(c))
  {
    hide VerdictOf, FateOfPath, Known, FirstFew, NewTo;
    VerdictIsFate(w, src, w.resolve(cited));
    assert forall c :: c in next.raw <==> c in p.raw || c == cited;
  }

  /** The first citation of a new path. */
  lemma JudgeNew<T>(w: World, src: Source<T>, memo: FactsMemo, paths: seq<string>, p: Progress<T>, cited: string)
    requires Judged(w, src, memo, paths, p) && cited !in p.raw && w.resolve(cited) !in paths
    ensures Judged(w, src, memo, paths + [w.resolve(cited)], Judge(w, src, p, cited))
    ensures forall path :: path in paths ==> (path in p.facts <==> path in Judge(w, src, p, cited).facts)
  {
    hide VerdictOf, FateOfPath, Known, FirstFew, NewTo, AsFate, Seen;
    var path := w.resolve(cited);
    KnownGrows(w, memo, paths, path);
    var next := Judge(w, src, p, cited);
    JudgeNewCites(w, src, memo, paths, p, cited, next);
    assert next.facts.Keys == Known(w, memo, paths + [path]);
    assert next.seen == set r | r in paths + [path];
  }

  /** `known` says what the pass ends up knowing of the paths named so far. */
  ghost predicate Agrees<T>(known: set<string>, paths: seq<string>, p: Progress<T>) {
    forall path :: path in paths ==> (path in known <==> path in p.facts)
  }

  ghost predicate Listed<T>(w: World, src: Source<T>, known: set<string>, paths: seq<string>, p: Progress<T>) {
    && p.deadPaths == SelectPaths(w, src, known, paths, Dropped)
    && p.stalePaths == SelectPaths(w, src, known, paths, Demoted)
  }

  ghost predicate Delivered<T>(w: World, src: Source<T>, known: set<string>, findings: seq<T>, p: Progress<T>) {
    && p.live == Select(w, src, known, findings, Kept)
    && p.stale == Select(w, src, known, findings, Demoted)
    && p.dropped == Select(w, src, known, findings, Dropped)
  }

  /** The first citation of a string, whatever it names. */
  lemma JudgeLists<T>(w: World, src: Source<T>, memo: FactsMemo, paths: seq<string>, p: Progress<T>, cited: string,
                      known: set<string>)
    returns (next: Progress<T>)
    requires Judged(w, src, memo, paths, p) && cited !in p.raw
    requires Agrees(known, Add(paths, w.resolve(cited)), Judge(w, src, p, cited))
    ensures next == Judge(w, src, p, cited) && Judged(w, src, memo, Add(paths, w.resolve(cited)), next)
    ensures cited in next.raw
    ensures Agrees(known, paths, p) && (next.live, next.stale, next.dropped) == (p.live, p.stale, p.dropped)
    ensures Listed(w, src, known, paths, p) ==> Listed(w, src, known, Add(paths, w.resolve(cited)), next)
  {
    hide VerdictOf, FateOfPath, Known, FirstFew, NewTo;
    var path := w.resolve(cited);
    next := Judge(w, src, p, cited);
    if path in paths {
      JudgeNamed(w, src, memo, paths, p, cited);
    } else {
      JudgeNew(w, src, memo, paths, p, cited);
      assert (paths + [path])[..|paths|] == paths;
      assert AsFate(next.raw[cited]) == Seen(w, src, next.facts.Keys, path);
    }
  }

  /** The verdict on a citation puts the finding in the list of its fate. */
  lemma DeliverByFate<T>(w: World, src: Source<T>, known: set<string>, findings: seq<T>, p: Progress<T>, finding: T,
                         verdict: Freshness)
    requires Delivered(w, src, known, findings, p) && AsFate(verdict) == FateOf(w, src, known, finding)
    ensures Delivered(w, src, known, findings + [finding], Deliver(p, finding, verdict))
  {
    hide FateOf;
    assert (findings + [finding])[..|findings|] == findings;
  }

  /** What one finding does to a pass before it is filed: it may be the first to name its path. */
  lemma Consult<T>(w: World, src: Source<T>, memo: FactsMemo, paths: seq<string>, p: Progress<T>, finding: T,
                   after: seq<string>, known: set<string>)
    returns (judged: Progress<T>, verdict: Freshness)
    requires Judged(w, src, memo, paths, p) && Agrees(known, after, StepFinding(w, src, p, finding))
    requires after == match PathOf(w, src, finding) case None => paths case Some(path) => Add(paths, path)
    ensures StepFinding(w, src, p, finding) == Deliver(judged, finding, verdict)
    ensures Judged(w, src, memo, after, judged) && Agrees(known, paths, p)
    ensures (judged.live, judged.stale, judged.dropped) == (p.live, p.stale, p.dropped)
    ensures Listed(w, src, known, paths, p) ==> Listed(w, src, known, after, judged)
    ensures AsFate(verdict) == FateOf(w, src, known, finding)
  {
    hide VerdictOf, FateOfPath, Known, FirstFew, NewTo, Judge, Listed;
    judged, verdict := p, IsLive;
    if Cites(src, finding) {
      var cited := src.citedPath(finding).value;
      if cited in p.raw {
        assert Add(paths, w.resolve(cited)) == paths;
      } else {
        judged := JudgeLists(w, src, memo, paths, p, cited, known);
      }
      verdict := judged.raw[cited];
      assert AsFate(verdict) == Seen(w, src, judged.facts.Keys, w.resolve(cited));
    }
  }

  lemma DeliverKeeps<T>(w: World, src: Source<T>, memo: FactsMemo, paths: seq<string>, known: set<string>,
                        p: Progress<T>, finding: T, verdict: Freshness)
    requires Judged(w, src, memo, paths, p)
    ensures Judged(w, src, memo, paths, Deliver(p, finding, verdict))
    ensures Listed(w, src, known, paths, p) ==> Listed(w, src, known, paths, Deliver(p, finding, verdict))
  {
    hide FateOfPath, Known, FirstFew, NewTo, SelectPaths;
  }

  lemma StepByFate<T>(w: World, src: Source<T>, memo: FactsMemo, findings: seq<T>, p: Progress<T>, finding: T,
                      paths: seq<string>, after: seq<string>, known: set<string>)
    returns (next: Progress<T>)
    requires paths == Paths(w, src, findings) && after == Paths(w, src, findings + [finding])
    requires Judged(w, src, memo, paths, p) && Agrees(known, after, StepFinding(w, src, p, finding))
    ensures next == StepFinding(w, src, p, finding) && Judged(w, src, memo, after, next) && Agrees(known, paths, p)
    ensures Listed(w, src, known, paths, p) && Delivered(w, src, known, findings, p) ==>
              Listed(w, src, known, after, next) && Delivered(w, src, known, findings + [finding], next)
  {
    assert after == match PathOf(w, src, finding) case None => paths case Some(path) => Add(paths, path) by {
      assert (findings + [finding])[..|findings|] == findings;
    }
    hide Deliver, FateOf, PathOf, Paths, StepFinding, Judged, Listed, Agrees, Select;
    var judged, verdict := Consult(w, src, memo, paths, p, finding, after, known);
    next := Deliver(judged, finding, verdict);
    DeliverKeeps(w, src, memo, after, known, judged, finding, verdict);
    if Delivered(w, src, known, findings, p) {
      DeliverByFate(w, src, known, findings, judged, finding, verdict);
    }
  }

  lemma {:induction false} RunByFate<T>(w: World, src: Source<T>, memo: FactsMemo, findings: seq<T>, known: set<string>)
    requires Truthful(w, memo) && Agrees(known, Paths(w, src, findings), RunSource(w, src, memo, findings))
    ensures var p := RunSource(w, src, memo, findings);
            && Judged(w, src, memo, Paths(w, src, findings), p)
            && Listed(w, src, known, Paths(w, src, findings), p) && Delivered(w, src, known, findings, p)
  {
    hide StepFinding;
    if findings == [] {
    } else {
      var front, last := findings[..|findings| - 1], findings[|findings| - 1];
      assert findings == front + [last];
      JudgedThroughout(w, src, memo, front);
      var next := StepByFate(w, src, memo, front, RunSource(w, src, memo, front), last, Paths(w, src, front),
                             Paths(w, src, findings), known);
      RunByFate(w, src, memo, front, known);
    }
  }

  lemma {:induction false} JudgedThroughout<T>(w: World, src: Source<T>, memo: FactsMemo, findings: seq<T>)
    requires Truthful(w, memo)
    ensures Judged(w, src, memo, Paths(w, src, findings), RunSource(w, src, memo, findings))
  {
    hide StepFinding;
    if findings == [] {
    } else {
      var front, last := findings[..|findings| - 1], findings[|findings| - 1];
      assert findings == front + [last];
      JudgedThroughout(w, src, memo, front);
      var p := RunSource(w, src, memo, findings);
      var next := StepByFate(w, src, memo, front, RunSource(w, src, memo, front), last, Paths(w, src, front),
                             Paths(w, src, findings), p.facts.Keys);
    }
  }

  // ---- the gate's promise --------------------------------------------------------

  /** What a store has been told of the filesystem at the end of its pass. */
  ghost function KnownTo<T>(w: World, src: Source<T>, memo: FactsMemo): set<string> {
    Known(w, memo, Paths(w, src, src.findings))
  }

  /** Whatever the other stores have probed before, a pass sorts its findings by what the
      filesystem says of the paths they name. Each list is in order; a finding that names no
      path, or a path the store knows nothing of, is kept. The two path lists hold the known
      paths of their fate, each once, in the order in which they are first named. */
  lemma PartitionIsByFate<T>(w: World, src: Source<T>, memo: FactsMemo)
    requires Truthful(w, memo)
    ensures var p, known, paths := Pass(w, src, memo), KnownTo(w, src, memo), Paths(w, src, src.findings);
            && p.live == Select(w, src, known, src.findings, Kept)
            && p.stale == Select(w, src, known, src.findings, Demoted)
            && p.dropped == Select(w, src, known, src.findings, Dropped)
            && p.deadPaths == SelectPaths(w, src, known, paths, Dropped)
            && p.stalePaths == SelectPaths(w, src, known, paths, Demoted)
            && p.facts == (map path | path in known :: w.probe(path))
  {
    JudgedThroughout(w, src, memo, src.findings);
    RunByFate(w, src, memo, src.findings, KnownTo(w, src, memo));
  }

  ghost function Cited<T>(src: Source<T>, findings: seq<T>): set<string> {
    set finding | finding in findings && Cites(src, finding) :: src.citedPath(finding).value
  }

  lemma StepCites<T>(w: World, src: Source<T>, p: Progress<T>, finding: T)
    ensures StepFinding(w, src, p, finding).raw.Keys
            == p.raw.Keys + if Cites(src, finding) then {src.citedPath(finding).value} else {}
  {
    hide VerdictOf;
  }

  lemma {:induction false} RawIsCited<T>(w: World, src: Source<T>, memo: FactsMemo, findings: seq<T>)
    ensures RunSource(w, src, memo, findings).raw.Keys == Cited(src, findings)
  {
    hide StepFinding, Cited, Cites;
    if findings == [] {
      NothingCited(src);
    } else {
      var front, last := findings[..|findings| - 1], findings[|findings| - 1];
      RawIsCited(w, src, memo, front);
      assert findings == front + [last];
      StepCites(w, src, RunSource(w, src, memo, front), last);
      CitedSnoc(src, front, last);
    }
  }

  lemma NothingCited<T>(src: Source<T>)
    ensures Cited(src, []) == {}
  {}

  lemma CitedSnoc<T>(src: Source<T>, findings: seq<T>, finding: T)
    ensures Cited(src, findings + [finding]) ==
            Cited(src, findings) + if Cites(src, finding) then {src.citedPath(finding).value} else {}
  {
    forall c | c in Cited(src, findings) ensures c in Cited(src, findings + [finding]) {
      var f :| f in findings && Cites(src, f) && c == src.citedPath(f).value;
      assert f in findings + [finding];
    }
    if Cites(src, finding) { assert finding in findings + [finding]; }
  }

  /** The citations that fail open are those of unknown paths, and a pass says so exactly when
      there are any. */
  lemma FailedOpenIff<T>(w: World, src: Source<T>, memo: FactsMemo)
    requires Truthful(w, memo)
    ensures var p := Pass(w, src, memo);
            && p.starvedRaw == (set c | c in Cited(src, src.findings) && w.resolve(c) !in KnownTo(w, src, memo))
            && (Summarize(p).truncated <==> p.starvedRaw != {})
  {
    JudgedThroughout(w, src, memo, src.findings);
    RawIsCited(w, src, memo, src.findings);
  }

  /** Every finding is in exactly one list, as often as it is in the input. */
  lemma {:induction false} NothingLost<T>(w: World, src: Source<T>, known: set<string>, findings: seq<T>)
    ensures multiset(findings) == multiset(Select(w, src, known, findings, Kept))
                                  + multiset(Select(w, src, known, findings, Demoted))
                                  + multiset(Select(w, src, known, findings, Dropped))
  {
    if findings == [] {
    } else {
      NothingLost(w, src, known, findings[..|findings| - 1]);
      assert findings == findings[..|findings| - 1] + [findings[|findings| - 1]];
    }
  }

  /** In a shared delivery every store is served by the same rule, over what the stores before
      it have probed. */
  lemma GateIsByFate<T>(w: World, sources: Sources<T>, names: seq<string>, i: nat, src: Source<T>)
    requires i < |names| && Get(sources, names[i]) == Some(src)
    ensures var p, known := GateOf(w, sources, names[i], names, i), KnownTo(w, src, MemoBefore(w, sources, names[..i]));
            && p.live == Select(w, src, known, src.findings, Kept)
            && p.stale == Select(w, src, known, src.findings, Demoted)
            && p.dropped == Select(w, src, known, src.findings, Dropped)
  {
    MemoTruthful(w, sources, names[..i]);
    PartitionIsByFate(w, src, MemoBefore(w, sources, names[..i]));
  }

  // ---- the order of the stores ---------------------------------------------------

  /** `a` comes before `b`: it is a proper beginning of it, or smaller at the first difference. */
  predicate Precedes(a: string, b: string) {
    exists k :: && 0 <= k <= |a| && k < |b| && a[..k] == b[..k] && (k == |a| || a[k] < b[k])
  }

  lemma {:induction false} LeIsPrecedes(a: string, b: string)
    requires StringLe(a, b) && a != b
    ensures Precedes(a, b)
  {
    if a == [] {
      assert a[..0] == b[..0];
    } else if a[0] < b[0] {
      assert a[..0] == b[..0];
    } else {
      assert a == [a[0]] + a[1..] && b == [b[0]] + b[1..];
      LeIsPrecedes(a[1..], b[1..]);
      var x, y := a[1..], b[1..];
      var k :| 0 <= k <= |x| && k < |y| && x[..k] == y[..k] && (k == |x| || x[k] < y[k]);
      assert a[..k + 1] == [a[0]] + x[..k] && b[..k + 1] == [b[0]] + y[..k];
      if k < |x| { assert a[k + 1] == x[k] && b[k + 1] == y[k]; }
    }
  }

  /** The stores are served in ascending order of their names, each once. */
  lemma OrderIsAscending<T>(sources: Sources<T>, i: nat, j: nat)
    requires Unique(sources) && i < j < |Order(sources)|
    ensures Precedes(Order(sources)[i], Order(sources)[j])
    ensures forall name :: name in Order(sources) <==> Has(sources, name)
  {
    SortedNames(sources);
    StringLeIsOrder();
    SortSorts(Keys(sources), StringLe);
    LeIsPrecedes(Order(sources)[i], Order(sources)[j]);
  }

  // ---- the delivery-wide record --------------------------------------------------

  ghost predicate InSome<T>(lists: seq<seq<T>>, x: T) { exists i :: 0 <= i < |lists| && x in lists[i] }

  lemma InSomeSnoc<T>(lists: seq<seq<T>>, last: seq<T>, x: T)
    ensures InSome(lists + [last], x) <==> InSome(lists, x) || x in last
  {
    var all := lists + [last];
    assert all[|lists|] == last && forall i :: 0 <= i < |lists| ==> all[i] == lists[i];
  }

  /** One store's findings of a fate. */
  function ListOf<T>(p: Partition<T>, fate: Fate): seq<T> {
    match fate case Kept => p.live case Demoted => p.stale case Dropped => p.dropped
  }

  ghost function Lists<T>(parts: seq<Partition<T>>, fate: Fate): (r: seq<seq<T>>)
    ensures |r| == |parts|
  {
    if parts == [] then []
    else Lists(parts[..|parts| - 1], fate) + [ListOf(parts[|parts| - 1], fate)]
  }

  ghost function DeadLists<T>(parts: seq<Partition<T>>): seq<seq<string>> {
    if parts == [] then [] else DeadLists(parts[..|parts| - 1]) + [parts[|parts| - 1].deadPaths]
  }

  ghost function StaleLists<T>(parts: seq<Partition<T>>): seq<seq<string>> {
    if parts == [] then [] else StaleLists(parts[..|parts| - 1]) + [parts[|parts| - 1].stalePaths]
  }

  ghost function Joined<T>(lists: seq<seq<T>>): seq<T> {
    if lists == [] then [] else Joined(lists[..|lists| - 1]) + lists[|lists| - 1]
  }

  /** The delivery's record joins the lists of its stores, in store order, and names every dead and
      every stale path of any store once. */
  lemma {:induction false} MergedJoins<T>(parts: seq<Partition<T>>)
    ensures var m := Merge(parts);
            && m.live == Joined(Lists(parts, Kept)) && m.stale == Joined(Lists(parts, Demoted))
            && m.dropped == Joined(Lists(parts, Dropped))
            && Distinct(m.deadPaths) && Distinct(m.stalePaths)
            && (forall x :: x in m.deadPaths <==> InSome(DeadLists(parts), x))
            && (forall x :: x in m.stalePaths <==> InSome(StaleLists(parts), x))
  {
    hide InSome;
    if parts == [] {
      NothingIn<string>();
    } else {
      var front, p := parts[..|parts| - 1], parts[|parts| - 1];
      MergedJoins(front);
      AddAllMembers(Merge(front).deadPaths, p.deadPaths);
      AddAllMembers(Merge(front).stalePaths, p.stalePaths);
      forall x ensures InSome(DeadLists(parts), x) <==> InSome(DeadLists(front), x) || x in p.deadPaths {
        InSomeSnoc(DeadLists(front), p.deadPaths, x);
      }
      forall x ensures InSome(StaleLists(parts), x) <==> InSome(StaleLists(front), x) || x in p.stalePaths {
        InSomeSnoc(StaleLists(front), p.stalePaths, x);
      }
      LastJoined(parts, Kept);
      LastJoined(parts, Demoted);
      LastJoined(parts, Dropped);
    }
  }

  lemma NothingIn<T>()
    ensures forall x: T :: !InSome([], x)
  {}

  lemma LastJoined<T>(parts: seq<Partition<T>>, fate: Fate)
    requires parts != []
    ensures Joined(Lists(parts, fate))
            == Joined(Lists(parts[..|parts| - 1], fate)) + ListOf(parts[|parts| - 1], fate)
  {
    var lists := Lists(parts, fate);
    assert lists[..|lists| - 1] == Lists(parts[..|parts| - 1], fate);
  }
}
