/** Evidence accounting of `buildCallGraph` when the builder counts its own coverage:
    every raw reference lands in one bucket, and the weighted edge evidence equals the raw
    counts after every reference exactly when no pair mixes ambiguous and unambiguous evidence. */
module CallGraphEvidence {
  import opened JsMap
  import opened CallGraphTypes
  import opened CallGraphIndex
  import opened CallGraphBuild
  import opened CallGraphIndexes

  // ---- the partition of raw evidence ---------------------------------------------

  datatype Bucket = InResolved | InUnresolved | InTypeOnly | InUnsupported | InSameFile

  function BucketOf(ctx: Context, item: Item): Bucket {
    match Classify(ctx, item)
    case TypeOnly => InTypeOnly
    case Unsupported => InUnsupported
    case Unresolvable => InUnresolved
    case Candidates(cands, _) =>
      if exists i :: 0 <= i < |cands| && CrossFile(ctx, item, cands[i]) then InResolved else InSameFile
  }

  function CountIn(ctx: Context, items: seq<Item>, b: Bucket): nat {
    if items == [] then 0
    else CountIn(ctx, items[..|items| - 1], b) + (if BucketOf(ctx, items[|items| - 1]) == b then 1 else 0)
  }

  predicate IsReference(ref: SymbolRef) {
    ref.evidenceKind == Some(References) || ref.referenceKind == Some(TypeReference)
  }

  function CountReferences(items: seq<Item>): nat {
    if items == [] then 0
    else CountReferences(items[..|items| - 1]) + (if IsReference(items[|items| - 1].ref) then 1 else 0)
  }

  lemma {:induction false} SameFileOfBucket(ctx: Context, item: Item, cands: seq<Symbol>, n: nat)
    requires n <= |cands|
    ensures (forall i :: 0 <= i < |cands| ==> CrossFile(ctx, item, cands[i])) ==>
            SameFileAmong(ctx, item, cands, n) == 0
    ensures (forall i :: 0 <= i < |cands| ==> !CrossFile(ctx, item, cands[i])) ==>
            SameFileAmong(ctx, item, cands, n) == n
  {
    if n == 0 {
    } else {
      SameFileOfBucket(ctx, item, cands, n - 1);
    }
  }

  /** A reference with candidates is either all cross-file or one same-file target. */
  lemma BucketCandidates(ctx: Context, item: Item)
    requires WellIndexed(ctx) && Classify(ctx, item).Candidates?
    ensures var cands := Classify(ctx, item).callees;
            && |cands| > 0
            && (BucketOf(ctx, item) == InResolved ==> AllCross(ctx, item, cands)
                                                      && SameFileAmong(ctx, item, cands, |cands|) == 0)
            && (BucketOf(ctx, item) == InSameFile ==> |cands| == 1 && !CrossFile(ctx, item, cands[0])
                                                      && SameFileAmong(ctx, item, cands, |cands|) == 1)
  {
    CandidatesAreIndexed(ctx, item);
    var cands := Classify(ctx, item).callees;
    SameFileOfBucket(ctx, item, cands, |cands|);
  }

  /** Each coverage counter is the number of references in its bucket. */
  ghost predicate CountersExact(ctx: Context, items: seq<Item>, b: Book) {
    var c := b.coverage;
    && c.totalEvidence == b.totalRefs == |items|
    && c.referencesEvidence == CountReferences(items)
    && c.callsEvidence == |items| - CountReferences(items)
    && c.eligibleEvidence == c.resolvedEvidence == CountIn(ctx, items, InResolved)
    && c.unresolvedEvidence == b.unresolvedRefs == CountIn(ctx, items, InUnresolved)
    && c.typeOnlyEvidence == CountIn(ctx, items, InTypeOnly)
    && c.unsupportedEvidence == CountIn(ctx, items, InUnsupported)
    && c.sameFileEvidence == CountIn(ctx, items, InSameFile)
    && 0 <= c.duplicateEvidence <= c.resolvedEvidence
    && !c.complete && c.languages.None?
  }

  /** The coverage after one reference, by the bucket it falls into. */
  function Bumped(cov: Coverage, b: Bucket, duplicate: bool): Coverage {
    match b
    case InTypeOnly => cov.(typeOnlyEvidence := cov.typeOnlyEvidence + 1)
    case InUnsupported => cov.(unsupportedEvidence := cov.unsupportedEvidence + 1)
    case InUnresolved => cov.(unresolvedEvidence := cov.unresolvedEvidence + 1)
    case InSameFile => cov.(sameFileEvidence := cov.sameFileEvidence + 1)
    case InResolved => cov.(eligibleEvidence := cov.eligibleEvidence + 1, resolvedEvidence := cov.resolvedEvidence + 1,
                            duplicateEvidence := cov.duplicateEvidence + (if duplicate then 1 else 0))
  }

  lemma CandidatesBump(ctx: Context, cov: Coverage, m: EdgeTable, item: Item, caller: Option<Symbol>,
                       cands: seq<Symbol>, resolution: Resolution)
    requires cands != []
    ensures SameFileAmong(ctx, item, cands, |cands|) == 0 ==>
      CountCandidates(ctx, false, cov, m, item, caller, cands, resolution)
      == Bumped(cov, InResolved, MetDuplicate(ctx, m, item, caller, cands, resolution, |cands|))
    ensures |cands| == 1 && SameFileAmong(ctx, item, cands, |cands|) == 1 ==>
      CountCandidates(ctx, false, cov, m, item, caller, cands, resolution) == Bumped(cov, InSameFile, false)
  {}

  lemma StepBumps(ctx: Context, before: Book, item: Item) returns (duplicate: bool)
    requires WellIndexed(ctx)
    ensures Step(ctx, false, before, item).coverage == Bumped(CountRaw(before.coverage, item.ref),
            BucketOf(ctx, item), duplicate)
    ensures Step(ctx, false, before, item).totalRefs == before.totalRefs + 1
    ensures Step(ctx, false, before, item).unresolvedRefs
         == before.unresolvedRefs + (if BucketOf(ctx, item) == InUnresolved then 1 else 0)
  {
    duplicate := false;
    match Classify(ctx, item) {
      case Candidates(cands, resolution) =>
        BucketCandidates(ctx, item);
        CandidatesBump(ctx, CountRaw(before.coverage, item.ref), before.table, item, CallerOf(ctx, item), cands,
          resolution);
        duplicate := MetDuplicate(ctx, before.table, item, CallerOf(ctx, item), cands, resolution, |cands|);
      case _ =>
    }
  }

  lemma {:induction false} RunCountsBuckets(ctx: Context, items: seq<Item>)
    requires WellIndexed(ctx)
    ensures CountersExact(ctx, items, Run(ctx, false, Initial(None), items))
  {
    if items == [] {
    } else {
      var front, item := items[..|items| - 1], items[|items| - 1];
      RunCountsBuckets(ctx, front);
      var before := Run(ctx, false, Initial(None), front);
      var duplicate := StepBumps(ctx, before, item);
      BumpCounts(ctx, front, item, before, Step(ctx, false, before, item), BucketOf(ctx, item), duplicate);
      assert items == front + [item];
    }
  }

  lemma BumpCounts(ctx: Context, front: seq<Item>, item: Item, before: Book, after: Book, bucket: Bucket,
                   duplicate: bool)
    requires CountersExact(ctx, front, before) && bucket == BucketOf(ctx, item)
    requires after.coverage == Bumped(CountRaw(before.coverage, item.ref), bucket, duplicate)
    requires after.totalRefs == before.totalRefs + 1
    requires after.unresolvedRefs == before.unresolvedRefs + (if bucket == InUnresolved then 1 else 0)
    ensures CountersExact(ctx, front + [item], after)
  {
    assert (front + [item])[..|front|] == front;
  }

  /** The buckets are disjoint and cover every reference. */
  lemma {:induction false} BucketsPartition(ctx: Context, items: seq<Item>)
    ensures CountIn(ctx, items, InResolved) + CountIn(ctx, items, InUnresolved) + CountIn(ctx, items, InTypeOnly)
            + CountIn(ctx, items, InUnsupported) + CountIn(ctx, items, InSameFile) == |items|
    ensures CountReferences(items) <= |items|
  {
    if items == [] {
    } else {
      BucketsPartition(ctx, items[..|items| - 1]);
    }
  }

  /** Without adapter coverage the five counters of a built graph partition its total. */
  lemma EvidencePartition(norm: string -> string, stdlib: set<string>, symbols: SymbolTable, refs: RefTable,
                          builtAt: string)
    ensures var g := Graph(norm, stdlib, symbols, refs, None, builtAt);
            var ctx := ContextFor(norm, stdlib, symbols);
            && g.coverage.Some?
            && var c := g.coverage.value;
            && c.resolvedEvidence + c.unresolvedEvidence + c.typeOnlyEvidence
               + c.unsupportedEvidence + c.sameFileEvidence == c.totalEvidence == |Items(refs)|
            && c.callsEvidence + c.referencesEvidence == c.totalEvidence
            && c.eligibleEvidence == c.resolvedEvidence == CountIn(ctx, Items(refs), InResolved)
            && c.unresolvedEvidence == CountIn(ctx, Items(refs), InUnresolved)
            && c.typeOnlyEvidence == CountIn(ctx, Items(refs), InTypeOnly)
            && c.unsupportedEvidence == CountIn(ctx, Items(refs), InUnsupported)
            && c.sameFileEvidence == CountIn(ctx, Items(refs), InSameFile)
            && g.totalRefs == c.totalEvidence && g.unresolvedRefs == c.unresolvedEvidence
            && !c.complete
  {
    var ctx := ContextFor(norm, stdlib, symbols);
    RunCountsBuckets(ctx, Items(refs));
    BucketsPartition(ctx, Items(refs));
  }

  // ---- the weighted ledger -------------------------------------------------------

  lemma LedgerSnoc(edges: seq<Edge>, e: Edge)
    ensures WeightedEvidence(edges + [e]) == WeightedEvidence(edges) + Times(EvidenceCount(e), e.weight)
    ensures WeightedDuplicates(edges + [e]) == WeightedDuplicates(edges) + Times(EvidenceCount(e) - 1, e.weight)
  {
    assert (edges + [e])[..|edges|] == edges;
  }

  lemma {:induction false} LedgerUpdate(edges: seq<Edge>, i: nat, e: Edge)
    requires i < |edges| && e.weight == edges[i].weight && EvidenceCount(e) == EvidenceCount(edges[i]) + 1
    ensures WeightedEvidence(edges[i := e]) == WeightedEvidence(edges) + e.weight
    ensures WeightedDuplicates(edges[i := e]) == WeightedDuplicates(edges) + e.weight
  {
    var front := edges[..|edges| - 1];
    if i < |front| {
      assert edges[i := e][..|front|] == front[i := e];
      LedgerUpdate(front, i, e);
    } else {
      assert edges[i := e][..|front|] == front;
    }
  }

  /** Weight credited when a reference adds one record to the pair of one candidate. */
  function PairWeight(m: EdgeTable, key: string, callee: Symbol, own: real): real {
    match Get(m, (key, callee.id)) case Some(e) => e.weight case None => own
  }

  predicate PairExists(m: EdgeTable, key: string, callee: Symbol) { Get(m, (key, callee.id)).Some? }

  /** Weight credited over the first `n` candidates. */
  function Gain(m: EdgeTable, key: string, cands: seq<Symbol>, own: real, n: nat): real
    requires n <= |cands|
  {
    if n == 0 then 0.0 else Gain(m, key, cands, own, n - 1) + PairWeight(m, key, cands[n - 1], own)
  }

  function DuplicateGain(m: EdgeTable, key: string, cands: seq<Symbol>, n: nat): real
    requires n <= |cands|
  {
    if n == 0 then 0.0
    else DuplicateGain(m, key, cands, n - 1) + PairWeight(m, key, cands[n - 1], 0.0)
  }

  /** One more record for one pair moves both sides by the weight of the pair. */
  lemma AddRecordLedger(m: EdgeTable, item: Item, caller: Option<Symbol>, callee: Symbol, resolution: Resolution,
                        n: nat)
    ensures var key := CallerKey(item.file, caller);
            var after := Edges(AddRecord(m, item, caller, callee, resolution, n));
            && WeightedEvidence(after) == WeightedEvidence(Edges(m))
              + PairWeight(m, key, callee, EdgeWeight(item.ref, n))
            && WeightedDuplicates(after) == WeightedDuplicates(Edges(m)) + PairWeight(m, key, callee, 0.0)
  {
    var p := (CallerKey(item.file, caller), callee.id);
    if Get(m, p).Some? {
      var i := FoldedRecord(m, p, item.ref);
      LedgerUpdate(Edges(m), i, Fold(Get(m, p).value, item.ref));
    } else {
      var e := FreshEdge(item, caller, callee, resolution, n);
      NewRecord(m, e);
      LedgerSnoc(Edges(m), e);
    }
  }

  ghost predicate AllCross(ctx: Context, item: Item, cands: seq<Symbol>) {
    DistinctIds(cands) && forall i :: 0 <= i < |cands| ==> CrossFile(ctx, item, cands[i])
  }

  /** Recording the first `n` candidates leaves the pairs of the later ones alone. */
  lemma UntouchedPair(ctx: Context, m: EdgeTable, item: Item, caller: Option<Symbol>,
                      cands: seq<Symbol>, resolution: Resolution, n: nat)
    requires AllCross(ctx, item, cands) && n < |cands|
    ensures var p := (CallerKey(item.file, caller), cands[n].id);
            Get(TableUpTo(ctx, m, item, caller, cands, resolution, n), p) == Get(m, p)
  {
    TableUpToMiss(ctx, m, item, caller, cands, resolution, n, (CallerKey(item.file, caller), cands[n].id));
  }

  function Evidence(m: EdgeTable): real { WeightedEvidence(Edges(m)) }
  function Duplicates(m: EdgeTable): real { WeightedDuplicates(Edges(m)) }

  lemma TableUpToStep(ctx: Context, m: EdgeTable, item: Item, caller: Option<Symbol>,
                      cands: seq<Symbol>, resolution: Resolution, n: nat, own: real)
      returns (before: EdgeTable, after: EdgeTable)
    requires AllCross(ctx, item, cands) && 0 < n <= |cands|
    requires own == EdgeWeight(item.ref, |cands|)
    ensures before == TableUpTo(ctx, m, item, caller, cands, resolution, n - 1)
    ensures after == TableUpTo(ctx, m, item, caller, cands, resolution, n)
    ensures Evidence(after) == Evidence(before) + PairWeight(m, CallerKey(item.file, caller), cands[n - 1], own)
    ensures Duplicates(after) == Duplicates(before) + PairWeight(m, CallerKey(item.file, caller), cands[n - 1], 0.0)
  {
    UntouchedPair(ctx, m, item, caller, cands, resolution, n - 1);
    before := TableUpTo(ctx, m, item, caller, cands, resolution, n - 1);
    after := AddRecord(before, item, caller, cands[n - 1], resolution, |cands|);
    AddRecordLedger(before, item, caller, cands[n - 1], resolution, |cands|);
  }

  lemma {:induction false} TableUpToLedger(ctx: Context, m: EdgeTable, item: Item, caller: Option<Symbol>,
                                           cands: seq<Symbol>, resolution: Resolution, n: nat, own: real)
                                             returns (after: EdgeTable)
    requires AllCross(ctx, item, cands) && n <= |cands|
    requires own == EdgeWeight(item.ref, |cands|)
    ensures after == TableUpTo(ctx, m, item, caller, cands, resolution, n)
    ensures Evidence(after) == Evidence(m) + Gain(m, CallerKey(item.file, caller), cands, own, n)
    ensures Duplicates(after) == Duplicates(m) + DuplicateGain(m, CallerKey(item.file, caller), cands, n)
  {
    if n == 0 {
      after := m;
    } else {
      var last := TableUpToLedger(ctx, m, item, caller, cands, resolution, n - 1, own);
      var before, next := TableUpToStep(ctx, m, item, caller, cands, resolution, n, own);
      after := next;
    }
  }

  predicate SomePairExists(m: EdgeTable, key: string, cands: seq<Symbol>) {
    exists i :: 0 <= i < |cands| && PairExists(m, key, cands[i])
  }

  lemma {:induction false} MetDuplicateIff(ctx: Context, m: EdgeTable, item: Item, caller: Option<Symbol>,
                                           cands: seq<Symbol>, resolution: Resolution, n: nat)
    requires AllCross(ctx, item, cands) && n <= |cands|
    ensures MetDuplicate(ctx, m, item, caller, cands, resolution, n)
      <==> SomePairExists(m, CallerKey(item.file, caller), cands[..n])
  {
    if n == 0 {
    } else {
      MetDuplicateIff(ctx, m, item, caller, cands, resolution, n - 1);
      UntouchedPair(ctx, m, item, caller, cands, resolution, n - 1);
      assert cands[..n] == cands[..n - 1] + [cands[n - 1]];
      SomePairSnoc(m, CallerKey(item.file, caller), cands[..n - 1], cands[n - 1]);
    }
  }

  lemma SomePairSnoc(m: EdgeTable, key: string, front: seq<Symbol>, last: Symbol)
    ensures SomePairExists(m, key, front + [last]) <==> SomePairExists(m, key, front) || PairExists(m, key, last)
  {
    var all := front + [last];
    if i :| 0 <= i < |front| && PairExists(m, key, front[i]) { assert all[i] == front[i]; }
    if PairExists(m, key, last) { assert all[|front|] == last; }
    if i :| 0 <= i < |all| && PairExists(m, key, all[i]) { if i < |front| { assert all[i] == front[i]; } }
  }

  // ---- which references may share a pair -----------------------------------------

  /** The reference fans out: a bare name with several cross-file definitions. */
  predicate Ambiguous(ctx: Context, item: Item) {
    Classify(ctx, item).Candidates? && |Classify(ctx, item).callees| > 1
  }

  ghost predicate Mixes(ctx: Context, a: Item, b: Item) {
    exists p: Pair :: Reaches(ctx, a, p) && Reaches(ctx, b, p) && Ambiguous(ctx, a) != Ambiguous(ctx, b)
  }

  /** No caller/callee pair is reached both by an ambiguous and by an unambiguous reference. */
  ghost predicate NoMixedPair(ctx: Context, items: seq<Item>) {
    forall i, j :: 0 <= i < |items| && 0 <= j < |items| ==> !Mixes(ctx, items[i], items[j])
  }

  /** Ids determine names, and caller keys determine files. Canonical ids give both. */
  ghost predicate Coherent(ctx: Context, items: seq<Item>) {
    && (forall i, j :: 0 <= i < |AllSymbols(ctx.canonical)| && 0 <= j < |AllSymbols(ctx.canonical)|
          && Indexed(AllSymbols(ctx.canonical)[i]) && Indexed(AllSymbols(ctx.canonical)[j])
          && AllSymbols(ctx.canonical)[i].id == AllSymbols(ctx.canonical)[j].id
          ==> AllSymbols(ctx.canonical)[i].name == AllSymbols(ctx.canonical)[j].name)
    && (forall i, j :: 0 <= i < |items| && 0 <= j < |items|
          && CallerKey(items[i].file, CallerOf(ctx, items[i])) == CallerKey(items[j].file, CallerOf(ctx, items[j]))
          ==> ctx.norm(items[i].file) == ctx.norm(items[j].file))
  }

  function KeyOf(ctx: Context, item: Item): string { CallerKey(item.file, CallerOf(ctx, item)) }

  /** Weight of an edge the item creates. */
  function WeightFor(ctx: Context, item: Item): real
    requires Classify(ctx, item).Candidates?
  {
    EdgeWeight(item.ref, |Classify(ctx, item).callees|)
  }

  lemma AmbiguousIsByName(ctx: Context, item: Item, p: Pair)
    requires WellIndexed(ctx) && Ambiguous(ctx, item) && Reaches(ctx, item, p)
    ensures !Truthy(item.ref.targetId) && item.ref.evidenceKind.None?
    ensures Classify(ctx, item) == ByName(ctx, item)
    ensures Carries(AllSymbols(ctx.canonical), RefName(item), p.1)
  {
    CandidatesAreIndexed(ctx, item);
    var symbols := AllSymbols(ctx.canonical);
    ByNameIsCarriers(symbols, RefName(item), p.1);
    CrossFileDefsMembers(ctx, item, IdsNamed(symbols, RefName(item)));
  }

  /** Two ambiguous references that share one pair share all their candidates. */
  lemma AmbiguousShareAll(ctx: Context, items: seq<Item>, i: nat, j: nat, p: Pair)
    requires WellIndexed(ctx) && Coherent(ctx, items) && i < |items| && j < |items|
    requires Reaches(ctx, items[i], p) && Reaches(ctx, items[j], p)
    requires Ambiguous(ctx, items[i]) && Ambiguous(ctx, items[j])
    ensures Classify(ctx, items[i]) == Classify(ctx, items[j])
  {
    AmbiguousIsByName(ctx, items[i], p);
    AmbiguousIsByName(ctx, items[j], p);
    var symbols := AllSymbols(ctx.canonical);
    var a :| 0 <= a < |symbols| && Indexed(symbols[a]) && symbols[a].name == RefName(items[i]) && symbols[a].id == p.1;
    var b :| 0 <= b < |symbols| && Indexed(symbols[b]) && symbols[b].name == RefName(items[j]) && symbols[b].id == p.1;
    assert symbols[a].name == symbols[b].name;
  }

  /** Equal shares add up to the whole. */
  lemma SharesAddUp(n: nat)
    requires n > 1
    ensures Times(n, 1.0 / n as real) == 1.0 && 0.0 < 1.0 / n as real <= 0.5
  {
    TimesIsProduct(n, 1.0 / n as real);
  }

  lemma WeightOfItem(ctx: Context, item: Item)
    requires WellIndexed(ctx) && Classify(ctx, item).Candidates?
    ensures |Classify(ctx, item).callees| > 0
    ensures if Ambiguous(ctx, item) then 0.0 < WeightFor(ctx, item) <= 0.5
            else WeightFor(ctx, item) == 1.0 && |Classify(ctx, item).callees| == 1
    ensures Times(|Classify(ctx, item).callees|, WeightFor(ctx, item)) == 1.0
  {
    CandidatesAreIndexed(ctx, item);
    var n := |Classify(ctx, item).callees|;
    if Ambiguous(ctx, item) {
      assert WeightFor(ctx, item) == 1.0 / n as real;
      SharesAddUp(n);
    } else {
      assert Times(1, 1.0) == Times(0, 1.0) + 1.0;
    }
  }

  /** The weight stored for a pair is that of the references that reached it so far. */
  lemma StoredWeight(ctx: Context, items: seq<Item>, p: Pair, j: nat)
    requires WellIndexed(ctx) && Coherent(ctx, items) && NoMixedPair(ctx, items)
    requires j < |items| && Reaches(ctx, items[j], p)
    ensures TableEntry(ctx, items, p).Some? && TableEntry(ctx, items, p).value.weight == WeightFor(ctx, items[j])
  {
    EntryIsEvidence(ctx, items, p);
    var f: nat :| Summarizes(ctx, items, p, f, TableEntry(ctx, items, p).value);
    assert !Mixes(ctx, items[f], items[j]);
    if Ambiguous(ctx, items[j]) {
      AmbiguousShareAll(ctx, items, f, j, p);
      AmbiguousIsByName(ctx, items[f], p);
      AmbiguousIsByName(ctx, items[j], p);
    } else {
      WeightOfItem(ctx, items[f]);
      WeightOfItem(ctx, items[j]);
    }
  }

  // ---- conservation, one reference at a time -------------------------------------

  ghost predicate MixesWithAny(ctx: Context, front: seq<Item>, item: Item) {
    exists i :: 0 <= i < |front| && Mixes(ctx, front[i], item)
  }

  lemma CoherentPrefix(ctx: Context, items: seq<Item>, n: nat)
    requires n <= |items|
    ensures Coherent(ctx, items) ==> Coherent(ctx, items[..n])
    ensures NoMixedPair(ctx, items) ==> NoMixedPair(ctx, items[..n])
  {
    assert forall i :: 0 <= i < n ==> items[..n][i] == items[i];
  }

  ghost predicate Settled(ctx: Context, front: seq<Item>, item: Item, m: EdgeTable) {
    && WellIndexed(ctx) && Coherent(ctx, front + [item]) && NoMixedPair(ctx, front)
    && m == Run(ctx, false, Initial(None), front).table
    && BucketOf(ctx, item) == InResolved
  }

  function PairAt(ctx: Context, item: Item, i: nat): Pair
    requires Classify(ctx, item).Candidates? && i < |Classify(ctx, item).callees|
  {
    (KeyOf(ctx, item), Classify(ctx, item).callees[i].id)
  }

  function CreditAt(ctx: Context, m: EdgeTable, item: Item, i: nat): real
    requires Classify(ctx, item).Candidates? && i < |Classify(ctx, item).callees|
  {
    PairWeight(m, KeyOf(ctx, item), Classify(ctx, item).callees[i], WeightFor(ctx, item))
  }

  /** Each candidate pair is reached by the reference; it exists already exactly when an
      earlier reference reached it. */
  lemma PairHistory(ctx: Context, front: seq<Item>, item: Item, m: EdgeTable, i: nat)
    requires Settled(ctx, front, item, m) && i < |Classify(ctx, item).callees|
    ensures Reaches(ctx, item, PairAt(ctx, item, i))
    ensures Get(m, PairAt(ctx, item, i)) == TableEntry(ctx, front, PairAt(ctx, item, i))
    ensures PairExists(m, KeyOf(ctx, item), Classify(ctx, item).callees[i])
      <==> exists f :: 0 <= f < |front| && Reaches(ctx, front[f], PairAt(ctx, item, i))
  {
    BucketCandidates(ctx, item);
    var p := PairAt(ctx, item, i);
    EdgeTableExact(ctx, false, Initial(None), front, p);
    EntryIsEvidence(ctx, front, p);
  }

  /** What one candidate is credited, judged by any earlier reference to its pair. */
  lemma CreditIs(ctx: Context, front: seq<Item>, item: Item, m: EdgeTable, i: nat, f: nat)
    requires Settled(ctx, front, item, m) && i < |Classify(ctx, item).callees|
    requires f < |front| && Reaches(ctx, front[f], PairAt(ctx, item, i))
    ensures Classify(ctx, front[f]).Candidates? && CreditAt(ctx, m, item, i) == WeightFor(ctx, front[f])
  {
    PairHistory(ctx, front, item, m, i);
    var items := front + [item];
    CoherentPrefix(ctx, items, |front|);
    assert items[..|front|] == front;
    StoredWeight(ctx, front, PairAt(ctx, item, i), f);
  }

  lemma CreditCompared(ctx: Context, front: seq<Item>, item: Item, m: EdgeTable, i: nat, f: nat)
    requires Settled(ctx, front, item, m) && i < |Classify(ctx, item).callees|
    requires f < |front| && Reaches(ctx, front[f], PairAt(ctx, item, i))
    ensures Ambiguous(ctx, front[f]) == Ambiguous(ctx, item) ==> CreditAt(ctx, m, item, i) == WeightFor(ctx, item)
    ensures !Ambiguous(ctx, front[f]) ==> CreditAt(ctx, m, item, i) == 1.0
    ensures Ambiguous(ctx, front[f]) ==> CreditAt(ctx, m, item, i) <= 0.5
  {
    CreditIs(ctx, front, item, m, i, f);
    WeightOfItem(ctx, front[f]);
    WeightOfItem(ctx, item);
    if Ambiguous(ctx, front[f]) && Ambiguous(ctx, item) {
      PairHistory(ctx, front, item, m, i);
      SameWeight(ctx, front, item, f, PairAt(ctx, item, i));
    }
  }

  lemma SameWeight(ctx: Context, front: seq<Item>, item: Item, f: nat, p: Pair)
    requires WellIndexed(ctx) && Coherent(ctx, front + [item]) && f < |front|
    requires Reaches(ctx, front[f], p) && Reaches(ctx, item, p)
    requires Ambiguous(ctx, front[f]) && Ambiguous(ctx, item)
    ensures Classify(ctx, front[f]) == Classify(ctx, item) && WeightFor(ctx, front[f]) == WeightFor(ctx, item)
  {
    var items := front + [item];
    assert items[f] == front[f] && items[|front|] == item;
    AmbiguousShareAll(ctx, items, f, |front|, p);
    AmbiguousIsByName(ctx, front[f], p);
    AmbiguousIsByName(ctx, item, p);
  }

  lemma EvenCredit(ctx: Context, front: seq<Item>, item: Item, m: EdgeTable, i: nat)
    requires Settled(ctx, front, item, m) && i < |Classify(ctx, item).callees|
    requires !MixesWithAny(ctx, front, item)
    ensures CreditAt(ctx, m, item, i) == WeightFor(ctx, item)
  {
    PairHistory(ctx, front, item, m, i);
    if f :| 0 <= f < |front| && Reaches(ctx, front[f], PairAt(ctx, item, i)) {
      assert !Mixes(ctx, front[f], item);
      CreditCompared(ctx, front, item, m, i, f);
    }
  }

  lemma AtLeastOwnWeight(ctx: Context, front: seq<Item>, item: Item, m: EdgeTable, i: nat)
    requires Settled(ctx, front, item, m) && i < |Classify(ctx, item).callees| && Ambiguous(ctx, item)
    ensures CreditAt(ctx, m, item, i) >= WeightFor(ctx, item)
  {
    WeightOfItem(ctx, item);
    PairHistory(ctx, front, item, m, i);
    if f :| 0 <= f < |front| && Reaches(ctx, front[f], PairAt(ctx, item, i)) {
      CreditCompared(ctx, front, item, m, i, f);
    }
  }

  /** If nothing mixes, either all pairs of the reference exist already or none does. */
  lemma AllOrNone(ctx: Context, front: seq<Item>, item: Item, m: EdgeTable, i: nat, j: nat)
    requires Settled(ctx, front, item, m)
    requires i < |Classify(ctx, item).callees| && j < |Classify(ctx, item).callees|
    requires !MixesWithAny(ctx, front, item) && PairExists(m, KeyOf(ctx, item), Classify(ctx, item).callees[i])
    ensures PairExists(m, KeyOf(ctx, item), Classify(ctx, item).callees[j])
  {
    PairHistory(ctx, front, item, m, i);
    PairHistory(ctx, front, item, m, j);
    var f :| 0 <= f < |front| && Reaches(ctx, front[f], PairAt(ctx, item, i));
    assert !Mixes(ctx, front[f], item);
    if Ambiguous(ctx, item) {
      SameWeight(ctx, front, item, f, PairAt(ctx, item, i));
      SharedReach(ctx, front[f], item, PairAt(ctx, item, i), PairAt(ctx, item, j));
    }
  }

  lemma SharedReach(ctx: Context, a: Item, b: Item, p: Pair, q: Pair)
    requires WellIndexed(ctx) && Ambiguous(ctx, a) && Classify(ctx, a) == Classify(ctx, b)
    requires Reaches(ctx, a, p) && Reaches(ctx, b, p) && Reaches(ctx, b, q)
    ensures Reaches(ctx, a, q)
  {
    CandidatesAreIndexed(ctx, a);
  }

  /** Folding a constant credit over the candidates. */
  lemma {:induction false} ConstantGain(m: EdgeTable, key: string, cands: seq<Symbol>, own: real, n: nat)
    requires n <= |cands| && forall i :: 0 <= i < n ==> PairWeight(m, key, cands[i], own) == own
    ensures Gain(m, key, cands, own, n) == Times(n, own)
    ensures (forall i :: 0 <= i < n ==> PairExists(m, key, cands[i])) ==>
            DuplicateGain(m, key, cands, n) == Times(n, own)
    ensures (forall i :: 0 <= i < n ==> !PairExists(m, key, cands[i])) ==> DuplicateGain(m, key, cands, n) == 0.0
  {
    if n == 0 {
    } else {
      ConstantGain(m, key, cands, own, n - 1);
    }
  }

  /** Folding credits that are never less than the constant, and once more by `d`. */
  lemma {:induction false} MarginGain(m: EdgeTable, key: string, cands: seq<Symbol>, own: real, n: nat, k: nat, d: real)
    requires n <= |cands| && k < |cands| && forall i :: 0 <= i < |cands| ==> PairWeight(m, key, cands[i], own) >= own
    requires PairWeight(m, key, cands[k], own) >= own + d && d >= 0.0
    ensures Gain(m, key, cands, own, n) >= Times(n, own)
    ensures k < n ==> Gain(m, key, cands, own, n) >= Times(n, own) + d
  {
    if n == 0 {
    } else {
      MarginGain(m, key, cands, own, n - 1, k, d);
    }
  }

  ghost function GainOf(ctx: Context, m: EdgeTable, item: Item): real
    requires Classify(ctx, item).Candidates?
  {
    Gain(m, KeyOf(ctx, item), Classify(ctx, item).callees, WeightFor(ctx, item), |Classify(ctx, item).callees|)
  }

  ghost function DuplicateGainOf(ctx: Context, m: EdgeTable, item: Item): real
    requires Classify(ctx, item).Candidates?
  {
    DuplicateGain(m, KeyOf(ctx, item), Classify(ctx, item).callees, |Classify(ctx, item).callees|)
  }

  /** An unmixed reference is credited one whole record, and one duplicate if it met any. */
  lemma UnmixedGain(ctx: Context, front: seq<Item>, item: Item, m: EdgeTable)
    requires Settled(ctx, front, item, m) && !MixesWithAny(ctx, front, item)
    ensures GainOf(ctx, m, item) == 1.0
    ensures DuplicateGainOf(ctx, m, item)
         == if SomePairExists(m, KeyOf(ctx, item), Classify(ctx, item).callees) then 1.0 else 0.0
  {
    var cands := Classify(ctx, item).callees;
    WeightOfItem(ctx, item);
    forall i | 0 <= i < |cands|
      ensures PairWeight(m, KeyOf(ctx, item), cands[i], WeightFor(ctx, item)) == WeightFor(ctx, item)
    {
      EvenCredit(ctx, front, item, m, i);
    }
    ConstantGain(m, KeyOf(ctx, item), cands, WeightFor(ctx, item), |cands|);
    if i :| 0 <= i < |cands| && PairExists(m, KeyOf(ctx, item), cands[i]) {
      forall j | 0 <= j < |cands| ensures PairExists(m, KeyOf(ctx, item), cands[j]) {
        AllOrNone(ctx, front, item, m, i, j);
      }
    }
  }

  /** The first mixing candidate. */
  lemma MixedCredit(ctx: Context, front: seq<Item>, item: Item, m: EdgeTable) returns (k: nat)
    requires Settled(ctx, front, item, m) && MixesWithAny(ctx, front, item)
    ensures k < |Classify(ctx, item).callees|
    ensures if Ambiguous(ctx, item) then CreditAt(ctx, m, item, k) == 1.0 else CreditAt(ctx, m, item, k) <= 0.5
  {
    var cands := Classify(ctx, item).callees;
    var f :| 0 <= f < |front| && Mixes(ctx, front[f], item);
    var p: Pair :| Reaches(ctx, front[f], p) && Reaches(ctx, item, p)
      && Ambiguous(ctx, front[f]) != Ambiguous(ctx, item);
    k :| 0 <= k < |cands| && cands[k].id == p.1;
    assert PairAt(ctx, item, k) == p;
    CreditCompared(ctx, front, item, m, k, f);
  }

  /** The first reference to mix is credited at least half a record too much, if it is
      ambiguous, or at least half a record too little. */
  lemma MixedGain(ctx: Context, front: seq<Item>, item: Item, m: EdgeTable)
    requires Settled(ctx, front, item, m) && MixesWithAny(ctx, front, item)
    ensures if Ambiguous(ctx, item) then GainOf(ctx, m, item) >= 1.5 else GainOf(ctx, m, item) <= 0.5
  {
    var cands, own := Classify(ctx, item).callees, WeightFor(ctx, item);
    var k := MixedCredit(ctx, front, item, m);
    WeightOfItem(ctx, item);
    if Ambiguous(ctx, item) {
      forall i | 0 <= i < |cands| ensures PairWeight(m, KeyOf(ctx, item), cands[i], own) >= own {
        AtLeastOwnWeight(ctx, front, item, m, i);
      }
      MarginGain(m, KeyOf(ctx, item), cands, own, |cands|, k, 0.5);
    } else {
      SingleGain(m, KeyOf(ctx, item), cands, own);
    }
  }

  lemma SingleGain(m: EdgeTable, key: string, cands: seq<Symbol>, own: real)
    requires |cands| == 1
    ensures Gain(m, key, cands, own, 1) == PairWeight(m, key, cands[0], own)
  {
    assert Gain(m, key, cands, own, 1) == Gain(m, key, cands, own, 0) + PairWeight(m, key, cands[0], own);
  }

  /** The weighted edges account for exactly the resolved and the duplicate raw records. */
  ghost predicate Balanced(b: Book) {
    && WeightedEvidence(Edges(b.table)) == b.coverage.resolvedEvidence as real
    && WeightedDuplicates(Edges(b.table)) == b.coverage.duplicateEvidence as real
  }

  lemma RunSnocItem(ctx: Context, front: seq<Item>, item: Item)
    ensures Run(ctx, false, Initial(None), front + [item]) == Step(ctx, false,
            Run(ctx, false, Initial(None), front), item)
  {
    assert (front + [item])[..|front|] == front;
  }

  ghost predicate Credited(ctx: Context, before: Book, item: Item, after: Book) {
    && Classify(ctx, item).Candidates?
    && after.coverage.resolvedEvidence == before.coverage.resolvedEvidence + 1
    && after.coverage.duplicateEvidence == before.coverage.duplicateEvidence
         + (if SomePairExists(before.table, KeyOf(ctx, item), Classify(ctx, item).callees) then 1 else 0)
    && WeightedEvidence(Edges(after.table)) == WeightedEvidence(Edges(before.table)) + GainOf(ctx, before.table, item)
    && WeightedDuplicates(Edges(after.table)) == WeightedDuplicates(Edges(before.table))
      + DuplicateGainOf(ctx, before.table, item)
  }

  ghost predicate LedgerUntouched(before: Book, after: Book) {
    && after.table == before.table
    && after.coverage.resolvedEvidence == before.coverage.resolvedEvidence
    && after.coverage.duplicateEvidence == before.coverage.duplicateEvidence
  }

  lemma ResolvedCounters(ctx: Context, before: Book, item: Item)
    requires WellIndexed(ctx) && BucketOf(ctx, item) == InResolved
    ensures Classify(ctx, item).Candidates?
    ensures var after := Step(ctx, false, before, item);
            && after.coverage.resolvedEvidence == before.coverage.resolvedEvidence + 1
            && after.coverage.duplicateEvidence == before.coverage.duplicateEvidence
                 + (if SomePairExists(before.table, KeyOf(ctx, item), Classify(ctx, item).callees) then 1 else 0)
  {
    BucketCandidates(ctx, item);
    var v := Classify(ctx, item);
    MetDuplicateIff(ctx, before.table, item, CallerOf(ctx, item), v.callees, v.resolution, |v.callees|);
    assert v.callees[..|v.callees|] == v.callees;
    CandidatesBump(ctx, CountRaw(before.coverage, item.ref), before.table, item, CallerOf(ctx, item), v.callees,
      v.resolution);
  }

  lemma ResolvedTable(ctx: Context, before: Book, item: Item) returns (after: EdgeTable)
    requires WellIndexed(ctx) && BucketOf(ctx, item) == InResolved
    ensures Classify(ctx, item).Candidates? && after == Step(ctx, false, before, item).table
    ensures Evidence(after) == Evidence(before.table) + GainOf(ctx, before.table, item)
    ensures Duplicates(after) == Duplicates(before.table) + DuplicateGainOf(ctx, before.table, item)
  {
    BucketCandidates(ctx, item);
    var v := Classify(ctx, item);
    after := TableUpToLedger(ctx, before.table, item, CallerOf(ctx, item), v.callees, v.resolution, |v.callees|,
      WeightFor(ctx, item));
  }

  lemma ResolvedStep(ctx: Context, before: Book, item: Item)
    requires WellIndexed(ctx) && BucketOf(ctx, item) == InResolved
    ensures Credited(ctx, before, item, Step(ctx, false, before, item))
  {
    ResolvedCounters(ctx, before, item);
    var after := ResolvedTable(ctx, before, item);
  }

  lemma OtherStep(ctx: Context, before: Book, item: Item)
    requires WellIndexed(ctx) && BucketOf(ctx, item) != InResolved
    ensures LedgerUntouched(before, Step(ctx, false, before, item))
  {
    if Classify(ctx, item).Candidates? {
      BucketCandidates(ctx, item);
      var v := Classify(ctx, item);
      assert TableUpTo(ctx, before.table, item, CallerOf(ctx, item), v.callees, v.resolution, 1)
          == TableUpTo(ctx, before.table, item, CallerOf(ctx, item), v.callees, v.resolution, 0);
    }
  }

  /** What one reference adds to the two sides of the ledger. */
  lemma StepLedger(ctx: Context, front: seq<Item>, item: Item)
    requires WellIndexed(ctx)
    ensures var before := Run(ctx, false, Initial(None), front);
            var after := Run(ctx, false, Initial(None), front + [item]);
            if BucketOf(ctx, item) == InResolved then Credited(ctx, before, item, after)
            else LedgerUntouched(before, after)
  {
    RunSnocItem(ctx, front, item);
    if BucketOf(ctx, item) == InResolved {
      ResolvedStep(ctx, Run(ctx, false, Initial(None), front), item);
    } else {
      OtherStep(ctx, Run(ctx, false, Initial(None), front), item);
    }
  }

  /** One reference keeps the ledger balanced exactly when it mixes with no earlier one. */
  lemma StepBalanced(ctx: Context, front: seq<Item>, item: Item)
    requires WellIndexed(ctx) && Coherent(ctx, front + [item]) && NoMixedPair(ctx, front)
    requires Balanced(Run(ctx, false, Initial(None), front))
    ensures Balanced(Run(ctx, false, Initial(None), front + [item])) <==> !MixesWithAny(ctx, front, item)
  {
    StepLedger(ctx, front, item);
    var m := Run(ctx, false, Initial(None), front).table;
    if BucketOf(ctx, item) != InResolved {
      NotResolvedReachesNothing(ctx, front, item);
    } else if MixesWithAny(ctx, front, item) {
      MixedGain(ctx, front, item, m);
    } else {
      UnmixedGain(ctx, front, item, m);
    }
  }

  lemma NotResolvedReachesNothing(ctx: Context, front: seq<Item>, item: Item)
    requires BucketOf(ctx, item) != InResolved
    ensures !MixesWithAny(ctx, front, item)
  {
    assert forall p: Pair :: !Reaches(ctx, item, p);
  }

  lemma MixesSymmetric(ctx: Context, a: Item, b: Item)
    requires Mixes(ctx, a, b)
    ensures Mixes(ctx, b, a)
  {
    var p: Pair :| Reaches(ctx, a, p) && Reaches(ctx, b, p) && Ambiguous(ctx, a) != Ambiguous(ctx, b);
    assert Reaches(ctx, b, p) && Reaches(ctx, a, p);
  }

  lemma NoMixedSnoc(ctx: Context, front: seq<Item>, item: Item)
    ensures NoMixedPair(ctx, front + [item]) <==> NoMixedPair(ctx, front) && !MixesWithAny(ctx, front, item)
  {
    var items := front + [item];
    assert forall i :: 0 <= i < |front| ==> items[i] == front[i];
    assert items[|front|] == item;
    if NoMixedPair(ctx, items) {
      forall i | 0 <= i < |front| ensures !Mixes(ctx, front[i], item) { assert !Mixes(ctx, items[i], items[|front|]); }
      forall i, j | 0 <= i < |front| && 0 <= j < |front| ensures !Mixes(ctx, front[i], front[j]) {
        assert !Mixes(ctx, items[i], items[j]);
      }
    } else {
      var i, j :| 0 <= i < |items| && 0 <= j < |items| && Mixes(ctx, items[i], items[j]);
      if i == |front| || j == |front| {
        MixesSymmetric(ctx, items[i], items[j]);
      }
    }
  }

  ghost predicate BalancedAfter(ctx: Context, items: seq<Item>) {
    Balanced(Run(ctx, false, Initial(None), items))
  }

  ghost predicate BalancedThroughout(ctx: Context, items: seq<Item>) {
    forall n :: 0 <= n <= |items| ==> BalancedAfter(ctx, items[..n])
  }

  lemma BalancedSnoc(ctx: Context, front: seq<Item>, item: Item)
    ensures BalancedThroughout(ctx, front + [item])
      <==> BalancedThroughout(ctx, front) && BalancedAfter(ctx, front + [item])
  {
    hide BalancedAfter;
    var items := front + [item];
    assert items[..|items|] == items;
    forall n | 0 <= n <= |front| ensures items[..n] == front[..n] {}
    if BalancedThroughout(ctx, items) {
      assert BalancedAfter(ctx, items[..|items|]);
      forall n | 0 <= n <= |front| ensures BalancedAfter(ctx, front[..n]) { assert BalancedAfter(ctx, items[..n]); }
    }
    if BalancedThroughout(ctx, front) && BalancedAfter(ctx, items) {
      forall n | 0 <= n <= |items| ensures BalancedAfter(ctx, items[..n]) {
        if n <= |front| { assert BalancedAfter(ctx, front[..n]); }
      }
    }
  }

  /** The main law of the ledger: it balances after every reference if and only if no pair
      is reached by both an ambiguous and an unambiguous reference. */
  lemma {:induction false} BalancedThroughoutIffUnmixed(ctx: Context, items: seq<Item>)
    requires WellIndexed(ctx) && Coherent(ctx, items)
    ensures BalancedThroughout(ctx, items) <==> NoMixedPair(ctx, items)
  {
    hide Run, Balanced, BalancedThroughout, NoMixedPair, Coherent, WellIndexed, MixesWithAny;
    if items == [] {
      NothingUnbalanced(ctx);
    } else {
      var front, item := items[..|items| - 1], items[|items| - 1];
      assert items == front + [item];
      CoherentPrefix(ctx, items, |front|);
      BalancedThroughoutIffUnmixed(ctx, front);
      NoMixedSnoc(ctx, front, item);
      BalancedSnoc(ctx, front, item);
      if NoMixedPair(ctx, front) {
        ThroughoutAtEnd(ctx, front);
        StepBalanced(ctx, front, item);
      }
    }
  }

  lemma ThroughoutAtEnd(ctx: Context, items: seq<Item>)
    requires BalancedThroughout(ctx, items)
    ensures BalancedAfter(ctx, items)
  {
    hide BalancedAfter;
    assert items[..|items|] == items;
    assert BalancedAfter(ctx, items[..|items|]);
  }

  lemma NothingUnbalanced(ctx: Context)
    ensures BalancedThroughout(ctx, []) && NoMixedPair(ctx, [])
  {
    EmptyBalanced(ctx);
    var none: seq<Item> := [];
    forall n | 0 <= n <= |none| ensures BalancedAfter(ctx, none[..n]) { assert none[..n] == []; }
  }

  lemma EmptyBalanced(ctx: Context)
    ensures BalancedAfter(ctx, [])
  {
    assert Edges(Initial(None).table) == [];
  }
}
