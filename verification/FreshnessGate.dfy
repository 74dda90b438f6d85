/** The memoised freshness gate (clients/advisory-provenance.ts:380-751): several stores share
    one memo of path facts, each with its own probe allowance and its own policies. The
    filesystem is a fixed function from resolved paths to facts. */
module FreshnessGate {
  import opened JsMap
  import opened Sorting

  datatype Facts = Present(mtimeMs: real) | Missing | Unknown

  datatype Freshness = IsLive | IsStale | IsMissing | IsUnknown

  datatype MissingPolicy = DropMissing | DemoteMissing

  const MTIME_DRIFT_TOLERANCE_MS := 50.0

  function FreshnessFromFacts(facts: Facts, scannedAtMs: Option<real>): Freshness {
    match facts
    case Missing => IsMissing
    case Unknown => IsUnknown
    case Present(mtime) =>
      if scannedAtMs.Some? && mtime > scannedAtMs.value + MTIME_DRIFT_TOLERANCE_MS then IsStale else IsLive
  }

  /** One store's verdict, with its own deletion policy folded in. */
  function VerdictOf(facts: Facts, scannedAtMs: Option<real>, onMissing: MissingPolicy): Freshness {
    var v := FreshnessFromFacts(facts, scannedAtMs);
    if v == IsMissing && onMissing == DemoteMissing then IsStale else v
  }

  /** A finding cites at most one path; an absent or empty citation is never probed. */
  datatype Source<!T> = Source(
    findings: seq<T>, citedPath: T -> Option<string>, scannedAtMs: Option<real>, onMissing: MissingPolicy)

  /** What is fixed during a delivery: path resolution, the filesystem and the allowance. */
  datatype World = World(resolve: string -> string, probe: string -> Facts, limit: int)

  type FactsMemo = map<string, Facts>

  /** One source's pass so far. `starvedRaw` are the cited strings that failed open. */
  datatype Progress<T> = Progress(
    facts: FactsMemo, raw: map<string, Freshness>, starvedRaw: set<string>, probed: nat,
    live: seq<T>, stale: seq<T>, dropped: seq<T>,
    seen: set<string>, deadPaths: seq<string>, stalePaths: seq<string>)

  function Start<T>(facts: FactsMemo): Progress<T> { Progress(facts, map[], {}, 0, [], [], [], {}, [], []) }

  /** First sight of a cited string: consult the memo, probe, or fail open. */
  function Judge<T>(w: World, src: Source<T>, p: Progress<T>, cited: string): Progress<T> {
    var resolved := w.resolve(cited);
    var hit, spent := resolved in p.facts, p.probed >= w.limit;
    var facts := if hit then p.facts[resolved] else if spent then Unknown else w.probe(resolved);
    var verdict := VerdictOf(facts, src.scannedAtMs, src.onMissing);
    p.(facts := if hit || spent then p.facts else p.facts[resolved := facts],
       probed := if hit || spent then p.probed else p.probed + 1,
       starvedRaw := if !hit && spent then p.starvedRaw + {cited} else p.starvedRaw,
       raw := p.raw[cited := verdict],
       seen := p.seen + {resolved},
       deadPaths := if resolved !in p.seen && verdict == IsMissing then p.deadPaths + [resolved] else p.deadPaths,
       stalePaths := if resolved !in p.seen && verdict == IsStale then p.stalePaths + [resolved] else p.stalePaths)
  }

  function Deliver<T>(p: Progress<T>, finding: T, verdict: Freshness): Progress<T> {
    match verdict
    case IsMissing => p.(dropped := p.dropped + [finding])
    case IsStale => p.(stale := p.stale + [finding])
    case _ => p.(live := p.live + [finding])
  }

  predicate Cites<T>(src: Source<T>, finding: T) {
    src.citedPath(finding).Some? && src.citedPath(finding).value != ""
  }

  function StepFinding<T>(w: World, src: Source<T>, p: Progress<T>, finding: T): Progress<T> {
    if !Cites(src, finding) then Deliver(p, finding, IsLive)
    else
      var cited := src.citedPath(finding).value;
      if cited in p.raw then Deliver(p, finding, p.raw[cited])
      else var j := Judge(w, src, p, cited); Deliver(j, finding, j.raw[cited])
  }

  function RunSource<T>(w: World, src: Source<T>, facts: FactsMemo, findings: seq<T>): Progress<T> {
    if findings == [] then Start(facts)
    else StepFinding(w, src, RunSource(w, src, facts, findings[..|findings| - 1]), findings[|findings| - 1])
  }

  /** The whole pass of one source over a given memo. */
  function Pass<T>(w: World, src: Source<T>, facts: FactsMemo): Progress<T> {
    RunSource(w, src, facts, src.findings)
  }

  // ---- the program ---------------------------------------------------------------

  datatype Partition<T> = Partition(
    live: seq<T>, stale: seq<T>, dropped: seq<T>, deadPaths: seq<string>, stalePaths: seq<string>,
    statCount: nat, truncated: bool)

  function Summarize<T>(p: Progress<T>): Partition<T> {
    Partition(p.live, p.stale, p.dropped, p.deadPaths, p.stalePaths, |p.facts|, p.starvedRaw != {})
  }

  /** One delivery's shared filesystem knowledge. */
  class PathFactsMemo {
    var facts: FactsMemo
    var starved: map<string, nat>

    constructor ()
      ensures facts == map[] && starved == map[]
    {
      facts, starved := map[], map[];
    }
  }

  ghost predicate StarvedIs(before: map<string, nat>, after: map<string, nat>, store: string, count: nat) {
    after == if count == 0 then before else before[store := count]
  }

  function Bump(starved: map<string, nat>, store: string): map<string, nat> {
    starved[store := (if store in starved then starved[store] else 0) + 1]
  }

  /** Facts of one resolved path: from the memo for free, by a probe within the allowance, or
      unknown. */
  method LookUp(store: string, w: World, memo: PathFactsMemo, resolved: string, probed: nat)
    returns (facts: Facts, spent: nat, failedOpen: bool)
    modifies memo
    ensures var hit := resolved in old(memo.facts);
            && failedOpen == (!hit && probed >= w.limit)
            && facts == (if hit then old(memo.facts)[resolved] else if failedOpen then Unknown else w.probe(resolved))
            && memo.facts == (if hit || failedOpen then old(memo.facts) else old(memo.facts)[resolved := facts])
            && spent == (if hit || failedOpen then probed else probed + 1)
    ensures memo.starved == if failedOpen then Bump(old(memo.starved), store) else old(memo.starved)
  {
    spent, failedOpen := probed, false;
    if resolved in memo.facts {
      facts := memo.facts[resolved];
    } else if probed >= w.limit {
      memo.starved := Bump(memo.starved, store);
      facts, failedOpen := Unknown, true;
    } else {
      spent := probed + 1;
      facts := w.probe(resolved);
      memo.facts := memo.facts[resolved := facts];
    }
  }

  /** A cited string seen for the first time by this source. */
  method JudgeCited<T>(store: string, src: Source<T>, w: World, memo: PathFactsMemo, p: Progress<T>, cited: string)
    returns (next: Progress<T>)
    requires memo.facts == p.facts && p.starvedRaw <= p.raw.Keys && cited !in p.raw
    modifies memo
    ensures next == Judge(w, src, p, cited) && memo.facts == next.facts && next.starvedRaw <= next.raw.Keys
    ensures memo.starved == if |next.starvedRaw| == |p.starvedRaw| then old(memo.starved)
            else Bump(old(memo.starved), store)
    ensures |next.starvedRaw| == |p.starvedRaw| || |next.starvedRaw| == |p.starvedRaw| + 1
  {
    var resolved := w.resolve(cited);
    var facts, probed, failedOpen := LookUp(store, w, memo, resolved, p.probed);
    var verdict := FreshnessFromFacts(facts, src.scannedAtMs);
    if verdict == IsMissing && src.onMissing == DemoteMissing { verdict := IsStale; }
    var deadPaths, stalePaths := p.deadPaths, p.stalePaths;
    if resolved !in p.seen {
      if verdict == IsMissing { deadPaths := deadPaths + [resolved]; }
      else if verdict == IsStale { stalePaths := stalePaths + [resolved]; }
    }
    assert cited !in p.starvedRaw;
    next := p.(facts := memo.facts, probed := probed, raw := p.raw[cited := verdict],
               starvedRaw := if failedOpen then p.starvedRaw + {cited} else p.starvedRaw,
               seen := p.seen + {resolved}, deadPaths := deadPaths, stalePaths := stalePaths);
  }

  method VisitFinding<T>(store: string, src: Source<T>, w: World, memo: PathFactsMemo, p: Progress<T>, finding: T)
    returns (next: Progress<T>)
    requires memo.facts == p.facts && p.starvedRaw <= p.raw.Keys
    modifies memo
    ensures next == StepFinding(w, src, p, finding) && memo.facts == next.facts && next.starvedRaw <= next.raw.Keys
    ensures memo.starved == if |next.starvedRaw| == |p.starvedRaw| then old(memo.starved)
            else Bump(old(memo.starved), store)
    ensures |next.starvedRaw| == |p.starvedRaw| || |next.starvedRaw| == |p.starvedRaw| + 1
  {
    var cited := src.citedPath(finding);
    if cited.None? || cited.value == "" { return p.(live := p.live + [finding]); }
    next := p;
    if cited.value !in p.raw { next := JudgeCited(store, src, w, memo, p, cited.value); }
    match next.raw[cited.value] {
      case IsMissing => next := next.(dropped := next.dropped + [finding]);
      case IsStale => next := next.(stale := next.stale + [finding]);
      case _ => next := next.(live := next.live + [finding]);
    }
  }

  method PartitionOneSource<T>(store: string, src: Source<T>, w: World, memo: PathFactsMemo) returns (r: Partition<T>)
    requires store !in memo.starved
    modifies memo
    ensures r == Summarize(Pass(w, src, old(memo.facts)))
    ensures memo.facts == Pass(w, src, old(memo.facts)).facts
    ensures StarvedIs(old(memo.starved), memo.starved, store, |Pass(w, src, old(memo.facts)).starvedRaw|)
  {
    ghost var before, others := memo.facts, memo.starved;
    var p: Progress<T> := Start(memo.facts);
    for i := 0 to |src.findings|
      invariant p == RunSource(w, src, before, src.findings[..i])
      invariant memo.facts == p.facts && p.starvedRaw <= p.raw.Keys
      invariant StarvedIs(others, memo.starved, store, |p.starvedRaw|)
    {
      TakeSnoc(src.findings, i);
      p := VisitFinding(store, src, w, memo, p, src.findings[i]);
    }
    assert src.findings[..|src.findings|] == src.findings;
    r := Partition(p.live, p.stale, p.dropped, p.deadPaths, p.stalePaths, |memo.facts|,
                   store in memo.starved && memo.starved[store] > 0);
  }

  /** One store on its own, as every lane ran before the memo was shared. */
  method PartitionFindingsByCitedPath<T>(store: string, src: Source<T>, w: World) returns (r: Partition<T>)
    ensures r == Summarize(Pass(w, src, map[]))
  {
    var memo := new PathFactsMemo();
    r := PartitionOneSource(store, src, w, memo);
  }

  // ---- several sources over one memo ---------------------------------------------

  /** JavaScript string order on the characters. */
  predicate StringLe(a: string, b: string) {
    a == [] || (b != [] && (a[0] < b[0] || (a[0] == b[0] && StringLe(a[1..], b[1..]))))
  }

  lemma {:induction false} StringLeTotal(a: string, b: string)
    ensures StringLe(a, b) || StringLe(b, a)
  {
    if a == [] || b == [] {
    } else {
      StringLeTotal(a[1..], b[1..]);
    }
  }

  lemma {:induction false} StringLeTransitive(a: string, b: string, c: string)
    requires StringLe(a, b) && StringLe(b, c)
    ensures StringLe(a, c)
  {
    if a == [] || !(a[0] == b[0] == c[0]) {
    } else {
      StringLeTransitive(a[1..], b[1..], c[1..]);
    }
  }

  lemma {:induction false} StringLeAntisymmetric(a: string, b: string)
    requires StringLe(a, b) && StringLe(b, a)
    ensures a == b
  {
    if a == [] || b == [] {
    } else {
      StringLeAntisymmetric(a[1..], b[1..]);
      assert a == [a[0]] + a[1..] && b == [b[0]] + b[1..];
    }
  }

  lemma StringLeIsOrder()
    ensures TotalPreorder(StringLe) && Antisymmetric(StringLe)
  {
    forall x, y ensures StringLe(x, y) || StringLe(y, x) { StringLeTotal(x, y); }
    forall x, y, z | StringLe(x, y) && StringLe(y, z) ensures StringLe(x, z) { StringLeTransitive(x, y, z); }
    forall x, y | StringLe(x, y) && StringLe(y, x) ensures x == y { StringLeAntisymmetric(x, y); }
  }

  type Sources<!T> = Entries<string, Source<T>>

  /** Processing order: sorted by store name. */
  function Order<T>(sources: Sources<T>): seq<string> { Sort(Keys(sources), StringLe) }

  function MemoBefore<T>(w: World, sources: Sources<T>, names: seq<string>): FactsMemo {
    if names == [] then map[]
    else
      var before := MemoBefore(w, sources, names[..|names| - 1]);
      match Get(sources, names[|names| - 1])
      case Some(src) => Pass(w, src, before).facts
      case None => before
  }

  /** What the delivery gives one store. */
  function GateOf<T>(w: World, sources: Sources<T>, name: string, names: seq<string>, i: nat): (p: Progress<T>)
    requires i <= |names|
  {
    match Get(sources, name)
    case Some(src) => Pass(w, src, MemoBefore(w, sources, names[..i]))
    case None => Start(map[])
  }

  datatype Gate<T> = Gate(live: seq<T>, stale: seq<T>)

  datatype Delivery<T> = Delivery(gates: map<string, Gate<T>>, merged: Partition<T>, starved: map<string, nat>)

  /** `if (!list.includes(x)) list.push(x)` for each element. */
  method AddEach(list: seq<string>, more: seq<string>) returns (r: seq<string>)
    ensures r == AddAll(list, more)
  {
    r := list;
    for i := 0 to |more|
      invariant r == AddAll(list, more[..i])
    {
      TakeSnoc(more, i);
      r := Add(r, more[i]);
    }
    assert more[..|more|] == more;
  }

  /** The delivery-wide record: everything every store delivered, in store order. */
  function Merge<T>(parts: seq<Partition<T>>): Partition<T> {
    if parts == [] then Partition([], [], [], [], [], 0, false)
    else
      var m, p := Merge(parts[..|parts| - 1]), parts[|parts| - 1];
      Partition(m.live + p.live, m.stale + p.stale, m.dropped + p.dropped,
                AddAll(m.deadPaths, p.deadPaths), AddAll(m.stalePaths, p.stalePaths), 0, false)
  }

  /** What each store is given, in processing order. */
  function Parts<T>(w: World, sources: Sources<T>, names: seq<string>): (parts: seq<Partition<T>>)
    ensures |parts| == |names|
    ensures forall i :: 0 <= i < |names| ==> parts[i] == Summarize(GateOf(w, sources, names[i], names, i))
  {
    seq(|names|, i requires 0 <= i < |names| => Summarize(GateOf(w, sources, names[i], names, i)))
  }

  lemma SortedNames<T>(sources: Sources<T>)
    requires Unique(sources)
    ensures Distinct(Order(sources)) && |Order(sources)| == |sources|
    ensures forall k :: k in Order(sources) <==> Has(sources, k)
  {
    StringLeIsOrder();
    SortSorts(Keys(sources), StringLe);
    var names := Order(sources);
    forall k ensures k in names <==> Has(sources, k) {
      SameMembers(names, Keys(sources), k);
      KeysHas(sources, k);
    }
    DistinctPermutes(Keys(sources), names);
  }

  /** The results recorded so far are those of the first stores. */
  ghost predicate Recorded<T>(names: seq<string>, parts: seq<Partition<T>>, n: nat, gates: map<string, Gate<T>>,
                              starved: map<string, nat>)
    requires n <= |names| == |parts|
  {
    && (forall name :: name in gates <==> name in names[..n])
    && (forall name :: name in starved ==> name in names[..n])
    && (forall j :: 0 <= j < n ==>
          && names[j] in gates && gates[names[j]] == Gate(parts[j].live, parts[j].stale)
          && (names[j] in starved <==> parts[j].truncated))
  }

  lemma RecordOne<T>(names: seq<string>, parts: seq<Partition<T>>, n: nat, gates: map<string, Gate<T>>,
                     before: map<string, nat>, after: map<string, nat>, count: nat)
    requires Distinct(names) && n < |names| == |parts| && Recorded(names, parts, n, gates, before)
    requires StarvedIs(before, after, names[n], count) && (count > 0 <==> parts[n].truncated)
    ensures Recorded(names, parts, n + 1, gates[names[n] := Gate(parts[n].live, parts[n].stale)], after)
  {
    TakeSnoc(names, n);
    assert names[n] !in names[..n];
  }

  /** One store's turn. */
  method GateOne<T>(w: World, sources: Sources<T>, names: seq<string>, i: nat, memo: PathFactsMemo)
    returns (p: Partition<T>, ghost starved: nat)
    requires i < |names| && Get(sources, names[i]).Some?
    requires memo.facts == MemoBefore(w, sources, names[..i]) && names[i] !in memo.starved
    modifies memo
    ensures p == Parts(w, sources, names)[i] && memo.facts == MemoBefore(w, sources, names[..i + 1])
    ensures StarvedIs(old(memo.starved), memo.starved, names[i], starved) && (starved > 0 <==> p.truncated)
  {
    TakeSnoc(names, i);
    var src := Get(sources, names[i]).value;
    starved := |Pass(w, src, memo.facts).starvedRaw|;
    p := PartitionOneSource(names[i], src, w, memo);
  }

  /** `merged.live.push(...)` and its neighbours, for one store. */
  method MergeOne<T>(merged: Partition<T>, p: Partition<T>, ghost parts: seq<Partition<T>>, ghost n: nat)
    returns (r: Partition<T>)
    requires n < |parts| && merged == Merge(parts[..n]) && p == parts[n]
    ensures r == Merge(parts[..n + 1])
  {
    TakeSnoc(parts, n);
    var dead := AddEach(merged.deadPaths, p.deadPaths);
    var stale := AddEach(merged.stalePaths, p.stalePaths);
    r := Partition(merged.live + p.live, merged.stale + p.stale, merged.dropped + p.dropped, dead, stale, 0, false);
  }

  /** The state of the delivery after the first `n` stores. */
  ghost predicate Delivered<T>(w: World, sources: Sources<T>, names: seq<string>, n: nat, facts: FactsMemo,
                               gates: map<string, Gate<T>>, merged: Partition<T>, starved: map<string, nat>)
    requires n <= |names|
  {
    var parts := Parts(w, sources, names);
    && facts == MemoBefore(w, sources, names[..n])
    && Recorded(names, parts, n, gates, starved)
    && merged == Merge(parts[..n])
  }

  method GateStep<T>(w: World, sources: Sources<T>, names: seq<string>, i: nat, memo: PathFactsMemo,
                     gates: map<string, Gate<T>>, merged: Partition<T>)
    returns (gates': map<string, Gate<T>>, merged': Partition<T>)
    requires Distinct(names) && i < |names| && Get(sources, names[i]).Some?
    requires Delivered(w, sources, names, i, memo.facts, gates, merged, memo.starved)
    modifies memo
    ensures Delivered(w, sources, names, i + 1, memo.facts, gates', merged', memo.starved)
  {
    ghost var parts := Parts(w, sources, names);
    assert names[i] !in names[..i];
    ghost var before := memo.starved;
    var partition, starved := GateOne(w, sources, names, i, memo);
    RecordOne(names, parts, i, gates, before, memo.starved, starved);
    gates' := gates[names[i] := Gate(partition.live, partition.stale)];
    merged' := MergeOne(merged, partition, parts, i);
  }

  /** All stores over one shared memo, in sorted store order. */
  method GateFindingsByPathFreshness<T>(sources: Sources<T>, w: World) returns (d: Delivery<T>)
    requires Unique(sources)
    ensures var names := Order(sources);
            var parts := Parts(w, sources, names);
            && Recorded(names, parts, |names|, d.gates, d.starved)
            && d.merged == Merge(parts).(statCount := |MemoBefore(w, sources, names)|, truncated := d.starved != map[])
  {
    SortedNames(sources);
    var names := Order(sources);
    var memo := new PathFactsMemo();
    var gates: map<string, Gate<T>> := map[];
    var merged: Partition<T> := Partition([], [], [], [], [], 0, false);
    for i := 0 to |names|
      invariant Delivered(w, sources, names, i, memo.facts, gates, merged, memo.starved)
    {
      HasIsGet(sources, names[i]);
      gates, merged := GateStep(w, sources, names, i, memo, gates, merged);
    }
    ghost var parts := Parts(w, sources, names);
    assert names[..|names|] == names && parts[..|parts|] == parts;
    merged := merged.(statCount := |memo.facts|, truncated := memo.starved != map[]);
    d := Delivery(gates, merged, memo.starved);
  }

  // ---- sharing never makes a store worse off -------------------------------------

  ghost predicate Truthful(w: World, facts: FactsMemo) { forall k :: k in facts ==> facts[k] == w.probe(k) }

  /** `a` is obtained from `b` by leaving elements out. */
  ghost predicate Subsequence<T>(a: seq<T>, b: seq<T>) {
    if a == [] then true
    else b != [] && (Subsequence(a, b[..|b| - 1])
                     || (a[|a| - 1] == b[|b| - 1] && Subsequence(a[..|a| - 1], b[..|b| - 1])))
  }

  lemma SubsequenceBoth<T>(a: seq<T>, b: seq<T>, x: T)
    requires Subsequence(a, b)
    ensures Subsequence(a + [x], b + [x])
  {
    assert (a + [x])[..|a|] == a && (b + [x])[..|b|] == b;
  }

  lemma SubsequenceRight<T>(a: seq<T>, b: seq<T>, x: T)
    requires Subsequence(a, b)
    ensures Subsequence(a, b + [x])
  {
    assert (b + [x])[..|b|] == b;
  }

  /** How a source's pass over a shared memo relates to its stand-alone pass. */
  ghost predicate Simulates<T>(w: World, alone: Progress<T>, shared: Progress<T>) {
    && Truthful(w, alone.facts) && Truthful(w, shared.facts)
    && alone.facts.Keys <= shared.facts.Keys && shared.probed <= alone.probed
    && alone.raw.Keys == shared.raw.Keys
    && shared.starvedRaw <= alone.starvedRaw <= alone.raw.Keys
    && (alone.starvedRaw != {} ==> alone.probed >= w.limit)
    && (forall r :: r in alone.raw && r !in alone.starvedRaw ==> alone.raw[r] == shared.raw[r])
    && (forall r :: r in alone.starvedRaw ==> alone.raw[r] == IsUnknown)
  }

  /** What was delivered on each side. */
  ghost predicate Outperforms<T>(alone: Progress<T>, shared: Progress<T>) {
    && Subsequence(shared.live, alone.live)
    && Subsequence(alone.stale, shared.stale) && Subsequence(alone.dropped, shared.dropped)
    && (alone.starvedRaw == {} ==>
          shared.live == alone.live && shared.stale == alone.stale && shared.dropped == alone.dropped)
  }

  lemma JudgeSimulates<T>(w: World, src: Source<T>, alone: Progress<T>, shared: Progress<T>, cited: string)
    requires Simulates(w, alone, shared) && cited !in alone.raw
    ensures Simulates(w, Judge(w, src, alone, cited), Judge(w, src, shared, cited))
  {}

  lemma DeliverOutperforms<T>(alone: Progress<T>, shared: Progress<T>, finding: T, a: Freshness, s: Freshness)
    requires Outperforms(alone, shared) && (a == s || (a == IsUnknown && alone.starvedRaw != {}))
    ensures Outperforms(Deliver(alone, finding, a), Deliver(shared, finding, s))
  {
    SubsequenceBoth(shared.live, alone.live, finding);
    SubsequenceRight(shared.live, alone.live, finding);
    SubsequenceBoth(alone.stale, shared.stale, finding);
    SubsequenceRight(alone.stale, shared.stale, finding);
    SubsequenceBoth(alone.dropped, shared.dropped, finding);
    SubsequenceRight(alone.dropped, shared.dropped, finding);
  }

  lemma JudgeDeliversNothing<T>(w: World, src: Source<T>, alone: Progress<T>, shared: Progress<T>, cited: string)
    requires Simulates(w, alone, shared) && Outperforms(alone, shared)
    ensures Outperforms(Judge(w, src, alone, cited), Judge(w, src, shared, cited))
  {}

  lemma JudgedVerdicts<T>(w: World, alone: Progress<T>, shared: Progress<T>, cited: string)
    requires Simulates(w, alone, shared) && cited in alone.raw
    ensures cited in shared.raw
    ensures alone.raw[cited] == shared.raw[cited] || (alone.raw[cited] == IsUnknown && alone.starvedRaw != {})
  {}

  lemma DeliverSimulates<T>(w: World, alone: Progress<T>, shared: Progress<T>, finding: T, a: Freshness, s: Freshness)
    requires Simulates(w, alone, shared)
    ensures Simulates(w, Deliver(alone, finding, a), Deliver(shared, finding, s))
  {}

  lemma StepSimulates<T>(w: World, src: Source<T>, alone: Progress<T>, shared: Progress<T>, finding: T)
    requires Simulates(w, alone, shared) && Outperforms(alone, shared)
    ensures Simulates(w, StepFinding(w, src, alone, finding), StepFinding(w, src, shared, finding))
    ensures Outperforms(StepFinding(w, src, alone, finding), StepFinding(w, src, shared, finding))
  {
    if !Cites(src, finding) {
      DeliverOutperforms(alone, shared, finding, IsLive, IsLive);
      DeliverSimulates(w, alone, shared, finding, IsLive, IsLive);
    } else {
      var cited := src.citedPath(finding).value;
      var a, s := alone, shared;
      if cited !in alone.raw {
        JudgeSimulates(w, src, alone, shared, cited);
        JudgeDeliversNothing(w, src, alone, shared, cited);
        a, s := Judge(w, src, alone, cited), Judge(w, src, shared, cited);
      }
      JudgedVerdicts(w, a, s, cited);
      DeliverOutperforms(a, s, finding, a.raw[cited], s.raw[cited]);
      DeliverSimulates(w, a, s, finding, a.raw[cited], s.raw[cited]);
    }
  }

  lemma {:induction false} RunSimulates<T>(w: World, src: Source<T>, memo: FactsMemo, findings: seq<T>)
    requires Truthful(w, memo)
    ensures Simulates(w, RunSource(w, src, map[], findings), RunSource(w, src, memo, findings))
    ensures Outperforms(RunSource(w, src, map[], findings), RunSource(w, src, memo, findings))
  {
    if findings == [] {
    } else {
      var front := findings[..|findings| - 1];
      RunSimulates(w, src, memo, front);
      StepSimulates(w, src, RunSource(w, src, map[], front), RunSource(w, src, memo, front), findings[|findings| - 1]);
    }
  }

  lemma {:induction false} MemoTruthful<T>(w: World, sources: Sources<T>, names: seq<string>)
    ensures Truthful(w, MemoBefore(w, sources, names))
  {
    if names == [] {
    } else {
      var front := names[..|names| - 1];
      MemoTruthful(w, sources, front);
      match Get(sources, names[|names| - 1]) {
        case Some(src) => RunSimulates(w, src, MemoBefore(w, sources, front), src.findings);
        case None =>
      }
    }
  }

  /** In a shared delivery each store's live findings are a subsequence of those it delivers on
      its own, and everything demoted or dropped alone still is; every cited string judged
      alone gets the same verdict; the strings that fail open are among those that do alone;
      it spends no more probes; and nothing differs unless its own pass was truncated. */
  lemma SharingNeverHurts<T>(w: World, sources: Sources<T>, names: seq<string>, i: nat, src: Source<T>)
    requires i < |names| && Get(sources, names[i]) == Some(src)
    ensures var alone, shared := Pass(w, src, map[]), GateOf(w, sources, names[i], names, i);
            && Simulates(w, alone, shared) && Outperforms(alone, shared)
  {
    MemoTruthful(w, sources, names[..i]);
    RunSimulates(w, src, MemoBefore(w, sources, names[..i]), src.findings);
  }

  // ---- probes --------------------------------------------------------------------

  lemma JudgeGrowsMemo<T>(w: World, src: Source<T>, p: Progress<T>, cited: string, next: Progress<T>)
    requires next == Judge(w, src, p, cited) && (p.probed <= w.limit || p.probed == 0)
    ensures |next.facts| + p.probed == |p.facts| + next.probed && (next.probed <= w.limit || next.probed == 0)
  {
    hide VerdictOf;
    var resolved := w.resolve(cited);
    if resolved !in p.facts { assert |p.facts[resolved := w.probe(resolved)]| == |p.facts| + 1; }
  }

  lemma StepGrowsMemo<T>(w: World, src: Source<T>, p: Progress<T>, finding: T, next: Progress<T>)
    requires next == StepFinding(w, src, p, finding) && (p.probed <= w.limit || p.probed == 0)
    ensures |next.facts| + p.probed == |p.facts| + next.probed && (next.probed <= w.limit || next.probed == 0)
  {
    hide Judge;
    if Cites(src, finding) && src.citedPath(finding).value !in p.raw {
      var cited := src.citedPath(finding).value;
      JudgeGrowsMemo(w, src, p, cited, Judge(w, src, p, cited));
    }
  }

  /** Every probe adds one path to the memo. */
  lemma {:induction false} ProbesGrowMemo<T>(w: World, src: Source<T>, memo: FactsMemo, findings: seq<T>)
    ensures var p := RunSource(w, src, memo, findings);
            |p.facts| == |memo| + p.probed && (p.probed <= w.limit || p.probed == 0)
  {
    hide StepFinding;
    if findings == [] {
    } else {
      ProbesGrowMemo(w, src, memo, findings[..|findings| - 1]);
      StepGrowsMemo(w, src, RunSource(w, src, memo, findings[..|findings| - 1]), findings[|findings| - 1],
                    RunSource(w, src, memo, findings));
    }
  }

  /** Probes of the stand-alone passes. */
  function ProbesAlone<T>(w: World, sources: Sources<T>, names: seq<string>): nat {
    if names == [] then 0
    else ProbesAlone(w, sources, names[..|names| - 1])
         + (match Get(sources, names[|names| - 1]) case Some(src) => Pass(w, src, map[]).probed case None => 0)
  }

  /** The whole delivery probes no more paths than the stand-alone lanes together. */
  lemma {:induction false} SharedProbesAtMostAlone<T>(w: World, sources: Sources<T>, names: seq<string>)
    ensures |MemoBefore(w, sources, names)| <= ProbesAlone(w, sources, names)
  {
    if names == [] {
    } else {
      var front := names[..|names| - 1];
      SharedProbesAtMostAlone(w, sources, front);
      match Get(sources, names[|names| - 1]) {
        case Some(src) =>
          MemoTruthful(w, sources, front);
          RunSimulates(w, src, MemoBefore(w, sources, front), src.findings);
          ProbesGrowMemo(w, src, MemoBefore(w, sources, front), src.findings);
        case None =>
      }
    }
  }

  // ---- other stores' policies and the caller's spelling do not matter ------------

  /** Same findings and citations, whatever the scan time and deletion policy. */
  ghost predicate SameCitations<T(!new)>(a: Source<T>, b: Source<T>) {
    a.findings == b.findings && a.citedPath == b.citedPath
  }

  /** The parts of a pass that later stores can see. */
  ghost predicate SameProbing<T>(p: Progress<T>, q: Progress<T>) {
    p.facts == q.facts && p.probed == q.probed && p.starvedRaw == q.starvedRaw && p.raw.Keys == q.raw.Keys
  }

  lemma JudgeProbesAlike<T>(w: World, a: Source<T>, b: Source<T>, p: Progress<T>, q: Progress<T>, cited: string)
    requires SameProbing(p, q)
    ensures SameProbing(Judge(w, a, p, cited), Judge(w, b, q, cited))
  {}

  lemma DeliverProbesNothing<T>(p: Progress<T>, finding: T, verdict: Freshness)
    ensures SameProbing(p, Deliver(p, finding, verdict))
  {}

  lemma StepProbesAlike<T(!new)>(w: World, a: Source<T>, b: Source<T>, p: Progress<T>, q: Progress<T>, finding: T)
    requires SameCitations(a, b) && SameProbing(p, q)
    ensures SameProbing(StepFinding(w, a, p, finding), StepFinding(w, b, q, finding))
  {
    if !Cites(a, finding) {
      DeliverProbesNothing(p, finding, IsLive);
      DeliverProbesNothing(q, finding, IsLive);
    } else {
      var cited := a.citedPath(finding).value;
      var p1, q1 := p, q;
      if cited !in p.raw {
        JudgeProbesAlike(w, a, b, p, q, cited);
        p1, q1 := Judge(w, a, p, cited), Judge(w, b, q, cited);
      }
      DeliverProbesNothing(p1, finding, p1.raw[cited]);
      DeliverProbesNothing(q1, finding, q1.raw[cited]);
    }
  }

  lemma {:induction false} FactsIgnorePolicy<T(!new)>(w: World, a: Source<T>, b: Source<T>, memo: FactsMemo,
    findings: seq<T>)
    requires SameCitations(a, b)
    ensures SameProbing(RunSource(w, a, memo, findings), RunSource(w, b, memo, findings))
  {
    if findings == [] {
    } else {
      var front := findings[..|findings| - 1];
      FactsIgnorePolicy(w, a, b, memo, front);
      StepProbesAlike(w, a, b, RunSource(w, a, memo, front), RunSource(w, b, memo, front), findings[|findings| - 1]);
    }
  }

  lemma {:induction false} MemoIgnoresPolicies<T(!new)>(w: World, a: Sources<T>, b: Sources<T>, names: seq<string>)
    requires forall k :: k in names ==>
      Get(a, k).Some? && Get(b, k).Some? && SameCitations(Get(a, k).value, Get(b, k).value)
    ensures MemoBefore(w, a, names) == MemoBefore(w, b, names)
  {
    if names == [] {
    } else {
      var front, last := names[..|names| - 1], names[|names| - 1];
      assert forall k :: k in front ==> k in names;
      MemoIgnoresPolicies(w, a, b, front);
      FactsIgnorePolicy(w, Get(a, last).value, Get(b, last).value, MemoBefore(w, a, front),
        Get(a, last).value.findings);
    }
  }

  /** What a store is given does not depend on any other store's scan time or policy. */
  lemma GateIgnoresOtherPolicies<T(!new)>(w: World, a: Sources<T>, b: Sources<T>, names: seq<string>, i: nat)
    requires i < |names| && Get(a, names[i]) == Get(b, names[i])
    requires forall k :: k in names ==>
      Get(a, k).Some? && Get(b, k).Some? && SameCitations(Get(a, k).value, Get(b, k).value)
    ensures GateOf(w, a, names[i], names, i) == GateOf(w, b, names[i], names, i)
  {
    assert forall k :: k in names[..i] ==> k in names;
    MemoIgnoresPolicies(w, a, b, names[..i]);
  }

  /** Neither does it depend on the order in which the caller listed the stores. */
  lemma OrderIgnoresSpelling<T>(a: Sources<T>, b: Sources<T>)
    requires multiset(Keys(a)) == multiset(Keys(b))
    ensures Order(a) == Order(b)
  {
    StringLeIsOrder();
    SortIsCanonical(Keys(a), Keys(b), StringLe);
  }

  lemma {:induction false} MemoIgnoresOrder<T>(w: World, a: Sources<T>, b: Sources<T>, names: seq<string>)
    requires forall k :: k in names ==> Get(a, k) == Get(b, k)
    ensures MemoBefore(w, a, names) == MemoBefore(w, b, names)
  {
    if names == [] {
    } else {
      assert forall k :: k in names[..|names| - 1] ==> k in names;
      MemoIgnoresOrder(w, a, b, names[..|names| - 1]);
    }
  }

  lemma GateIgnoresSpelling<T>(w: World, a: Sources<T>, b: Sources<T>)
    requires multiset(Keys(a)) == multiset(Keys(b)) && forall k :: Get(a, k) == Get(b, k)
    ensures Parts(w, a, Order(a)) == Parts(w, b, Order(b))
    ensures MemoBefore(w, a, Order(a)) == MemoBefore(w, b, Order(b))
  {
    OrderIgnoresSpelling(a, b);
    var names := Order(a);
    forall i | 0 <= i < |names| ensures GateOf(w, a, names[i], names, i) == GateOf(w, b, names[i], names, i) {
      MemoIgnoresOrder(w, a, b, names[..i]);
    }
    MemoIgnoresOrder(w, a, b, names);
  }
}
