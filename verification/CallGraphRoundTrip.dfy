/** Build, save, load: a graph built from well-formed symbols comes back unchanged if its
    references conserve evidence, and is refused by the validator if they do not. */
module CallGraphRoundTrip {
  import opened JsMap
  import opened Text
  import opened SymbolId
  import opened CallGraphTypes
  import opened CallGraphIndex
  import opened CallGraphBuild
  import opened CallGraphIndexes
  import opened CallGraphEvidence
  import opened CallGraphLedger
  import opened CallGraphPersist

  // ---- well-formed input ---------------------------------------------------------

  /** The id is canonical and names this symbol in this file. */
  predicate CanonicalId(norm: string -> string, sym: Symbol) {
    && !StartsWith(sym.id, "file:")
    && ParseCanonical(sym.id).Some?
    && ParseCanonical(sym.id).value.symbolName == Some(sym.name)
    && norm(ParseCanonical(sym.id).value.filePath) == norm(sym.filePath)
  }

  predicate WellFormedSymbol(norm: string -> string, file: string, sym: Symbol) {
    && CanonicalId(norm, sym) && norm(sym.filePath) == norm(file)
    && !IsBlank(sym.id) && !IsBlank(sym.name) && !IsBlank(sym.kind) && !IsBlank(sym.filePath)
  }

  /** Ids minted by `buildSymbolId` from a mintable path and name are canonical. */
  lemma MintedIsCanonical(norm: string -> string, sym: Symbol, path: string, line: nat)
    requires sym.id == BuildSymbolId(path, sym.name, sym.kind, line) && IsKindToken(sym.kind)
    requires Mintable(path, sym.name) && sym.name != "" && norm(path) == norm(sym.filePath)
    ensures CanonicalId(norm, sym)
  {
    CanonicalFields(path, sym.name, sym.kind, line);
    FilePrefix(path, sym.name, sym.kind, line);
  }

  predicate WellFormedTable(norm: string -> string, symbols: SymbolTable) {
    forall i :: 0 <= i < |symbols| ==>
      forall j :: 0 <= j < |symbols[i].1| ==> WellFormedSymbol(norm, symbols[i].0, symbols[i].1[j])
  }

  /** A reference that names its caller names one in its own file. */
  predicate OwnCaller(ctx: Context, item: Item) {
    Truthy(item.ref.callerSymbolId) && Get(ctx.index.byId, item.ref.callerSymbolId.value).Some? ==>
      ctx.norm(Get(ctx.index.byId, item.ref.callerSymbolId.value).value.filePath) == ctx.norm(item.file)
  }

  ghost predicate WellFormedInput(norm: string -> string, stdlib: set<string>, symbols: SymbolTable, refs: RefTable) {
    && WellFormedTable(norm, symbols)
    && forall i :: 0 <= i < |Items(refs)| ==>
         !IsBlank(Items(refs)[i].file) && OwnCaller(ContextFor(norm, stdlib, symbols), Items(refs)[i])
  }

  // ---- every symbol the builder meets is well-formed -----------------------------

  /** The symbol is well-formed for some spelling of the file this key stands for. */
  ghost predicate SoundIn(norm: string -> string, key: string, sym: Symbol) {
    exists file :: WellFormedSymbol(norm, file, sym) && norm(file) == key
  }

  ghost predicate EntrySound(norm: string -> string, entry: (string, seq<Symbol>)) {
    forall j :: 0 <= j < |entry.1| ==> SoundIn(norm, entry.0, entry.1[j])
  }

  ghost predicate TableSound(norm: string -> string, canonical: SymbolTable) {
    forall i :: 0 <= i < |canonical| ==> EntrySound(norm, canonical[i])
  }

  lemma {:induction false} CanonicalSound(norm: string -> string, all: SymbolTable)
    requires WellFormedTable(norm, all)
    ensures TableSound(norm, CanonicalSymbols(norm, all))
  {
    if all == [] {
    } else {
      var front, entry := all[..|all| - 1], all[|all| - 1];
      assert forall i :: 0 <= i < |front| ==> front[i] == all[i];
      CanonicalSound(norm, front);
      var m := CanonicalSymbols(norm, front);
      var key := norm(entry.0);
      forall j | 0 <= j < |entry.1| ensures SoundIn(norm, key, entry.1[j]) {
        assert WellFormedSymbol(norm, entry.0, entry.1[j]);
      }
      assert EntrySound(norm, (key, entry.1));
      if Get(m, key).Some? {
        var at := PutFirst(m, key, entry.1);
      } else {
        PutNew(m, key, entry.1);
      }
    }
  }

  ghost predicate SoundSymbol(norm: string -> string, sym: Symbol) {
    exists file :: WellFormedSymbol(norm, file, sym)
  }

  lemma {:induction false} AllSymbolsSound(norm: string -> string, table: SymbolTable, i: nat)
    requires TableSound(norm, table) && i < |AllSymbols(table)|
    ensures SoundSymbol(norm, AllSymbols(table)[i])
  {
    var front := table[..|table| - 1];
    if i < |AllSymbols(front)| {
      forall k | 0 <= k < |front| ensures EntrySound(norm, front[k]) { assert EntrySound(norm, table[k]); }
      AllSymbolsSound(norm, front, i);
    } else {
      var j := i - |AllSymbols(front)|;
      assert EntrySound(norm, table[|table| - 1]);
      assert AllSymbols(table)[i] == table[|table| - 1].1[j];
    }
  }

  lemma ByIdSound(ctx: Context, id: string)
    requires WellIndexed(ctx) && TableSound(ctx.norm, ctx.canonical) && Get(ctx.index.byId, id).Some?
    ensures SoundSymbol(ctx.norm, Get(ctx.index.byId, id).value) && Get(ctx.index.byId, id).value.id == id
  {
    ByIdIsLastCarrier(AllSymbols(ctx.canonical), id);
    var s := Get(ctx.index.byId, id).value;
    var i :| 0 <= i < |AllSymbols(ctx.canonical)| && AllSymbols(ctx.canonical)[i] == s;
    AllSymbolsSound(ctx.norm, ctx.canonical, i);
  }

  /** The enclosing or named caller is well-formed and lives in the reference's file. */
  lemma CallerSound(ctx: Context, item: Item)
    requires WellIndexed(ctx) && TableSound(ctx.norm, ctx.canonical) && OwnCaller(ctx, item)
    ensures CallerOf(ctx, item).Some? ==>
      SoundSymbol(ctx.norm, CallerOf(ctx, item).value) && ctx.norm(CallerOf(ctx, item).value.filePath)
        == ctx.norm(item.file)
  {
    if Truthy(item.ref.callerSymbolId) && Get(ctx.index.byId, item.ref.callerSymbolId.value).Some? {
      ByIdSound(ctx, item.ref.callerSymbolId.value);
    } else if Get(ctx.canonical, ctx.norm(item.file)).Some? {
      var at := GetIndex(ctx.canonical, ctx.norm(item.file));
      var symbols := ctx.canonical[at].1;
      EnclosingIsInnermost(symbols, item.ref.line);
      if Enclosing(symbols, item.ref.line).Some? {
        var s := Enclosing(symbols, item.ref.line).value;
        var i :| 0 <= i < |symbols| && symbols[i] == s;
        assert EntrySound(ctx.norm, ctx.canonical[at]);
        assert SoundIn(ctx.norm, ctx.canonical[at].0, symbols[i]);
        var file :| WellFormedSymbol(ctx.norm, file, symbols[i]) && ctx.norm(file) == ctx.canonical[at].0;
      }
    }
  }

  lemma SameIdSameSymbol(norm: string -> string, a: Symbol, b: Symbol)
    requires SoundSymbol(norm, a) && SoundSymbol(norm, b) && a.id == b.id
    ensures a.name == b.name && norm(a.filePath) == norm(b.filePath)
  {}

  /** Canonical ids determine names, and caller keys determine files. */
  lemma WellFormedIsCoherent(norm: string -> string, stdlib: set<string>, symbols: SymbolTable, refs: RefTable)
    requires WellFormedInput(norm, stdlib, symbols, refs)
    ensures Coherent(ContextFor(norm, stdlib, symbols), Items(refs))
  {
    var ctx := ContextFor(norm, stdlib, symbols);
    CanonicalSound(norm, symbols);
    var all := AllSymbols(ctx.canonical);
    forall i, j | 0 <= i < |all| && 0 <= j < |all| && Indexed(all[i]) && Indexed(all[j]) && all[i].id == all[j].id
      ensures all[i].name == all[j].name
    {
      AllSymbolsSound(norm, ctx.canonical, i);
      AllSymbolsSound(norm, ctx.canonical, j);
      SameIdSameSymbol(norm, all[i], all[j]);
    }
    var items := Items(refs);
    forall i, j | 0 <= i < |items| && 0 <= j < |items|
      && CallerKey(items[i].file, CallerOf(ctx, items[i])) == CallerKey(items[j].file, CallerOf(ctx, items[j]))
      ensures norm(items[i].file) == norm(items[j].file)
    {
      KeyDeterminesFile(ctx, items[i], items[j]);
    }
  }

  lemma KeyDeterminesFile(ctx: Context, a: Item, b: Item)
    requires WellIndexed(ctx) && TableSound(ctx.norm, ctx.canonical) && OwnCaller(ctx, a) && OwnCaller(ctx, b)
    requires KeyOf(ctx, a) == KeyOf(ctx, b)
    ensures ctx.norm(a.file) == ctx.norm(b.file)
  {
    CallerSound(ctx, a);
    CallerSound(ctx, b);
    match (CallerOf(ctx, a), CallerOf(ctx, b)) {
      case (Some(x), Some(y)) => SameIdSameSymbol(ctx.norm, x, y);
      case (None, None) =>
        assert a.file == ("file:" + a.file)[5..] && b.file == ("file:" + b.file)[5..];
      case (Some(x), None) => assert StartsWith("file:" + b.file, "file:");
      case (None, Some(y)) => assert StartsWith("file:" + a.file, "file:");
    }
  }

  // ---- every edge passes the validator -------------------------------------------

  lemma CanonicalKeyNames(norm: string -> string, sym: Symbol, file: string)
    requires SoundSymbol(norm, sym) && norm(sym.filePath) == norm(file)
    ensures KeyNames(norm, sym.id, file, Some(sym.name))
  {}

  lemma ModuleKeyNames(norm: string -> string, file: string)
    ensures KeyNames(norm, "file:" + file, file, None) && !IsBlank("file:" + file)
  {
    assert ("file:" + file)[5..] == file;
    assert ("file:" + file)[0] == 'f';
  }

  /** The validator's view of one edge, given a sound caller and callee. */
  lemma FirstEdgeOk(ctx: Context, item: Item, callee: Symbol, e: Edge)
    requires WellIndexed(ctx) && TableSound(ctx.norm, ctx.canonical)
    requires OwnCaller(ctx, item) && !IsBlank(item.file)
    requires Classify(ctx, item).Candidates? && SoundSymbol(ctx.norm, callee)
    requires e == FirstEdge(ctx, item, callee).(evidenceCount := e.evidenceCount, evidenceKind := e.evidenceKind)
    requires e.evidenceCount.Some? && e.evidenceCount.value >= 1
    ensures EdgeOk(ctx.norm, e)
  {
    CallerSound(ctx, item);
    CanonicalKeyNames(ctx.norm, callee, callee.filePath);
    WeightOfItem(ctx, item);
    assert e.weight == WeightFor(ctx, item);
    match CallerOf(ctx, item) {
      case Some(s) => CanonicalKeyNames(ctx.norm, s, item.file);
      case None => ModuleKeyNames(ctx.norm, item.file);
    }
  }

  lemma {:induction false} ReachCountPositive(ctx: Context, items: seq<Item>, p: Pair, f: nat)
    requires f < |items| && Reaches(ctx, items[f], p)
    ensures ReachCount(ctx, items, p) >= 1
  {
    if f == |items| - 1 {
    } else {
      ReachCountPositive(ctx, items[..|items| - 1], p, f);
    }
  }

  lemma BuiltEdgeOk(ctx: Context, items: seq<Item>, i: nat)
    requires WellIndexed(ctx) && TableSound(ctx.norm, ctx.canonical)
    requires forall j :: 0 <= j < |items| ==> OwnCaller(ctx, items[j]) && !IsBlank(items[j].file)
    requires i < |Run(ctx, false, Initial(None), items).table|
    ensures EdgeOk(ctx.norm, Edges(Run(ctx, false, Initial(None), items).table)[i])
  {
    var m := Run(ctx, false, Initial(None), items).table;
    RunKeyed(ctx, false, Initial(None), items);
    var p, e := m[i].0, m[i].1;
    GetAt(m, i);
    EdgeTableExact(ctx, false, Initial(None), items, p);
    EntryIsEvidence(ctx, items, p);
    var f: nat :| Summarizes(ctx, items, p, f, e);
    ReachCountPositive(ctx, items, p, f);
    ByIdSound(ctx, p.1);
    FirstEdgeOk(ctx, items[f], Get(ctx.index.byId, p.1).value, e);
  }

  // ---- the saved maps are accepted as they stand ---------------------------------

  lemma {:induction false} ViewsReadable(norm: string -> string, edges: seq<Edge>)
    requires AllOk(norm, edges)
    ensures Readable(Outgoing(edges)) && Readable(Incoming(edges)) && ReadableDegrees(InDegrees(edges))
  {
    ViewsAreMaps(edges);
    if edges == [] {
    } else {
      var front, e := edges[..|edges| - 1], edges[|edges| - 1];
      assert forall i :: 0 <= i < |front| ==> front[i] == edges[i];
      ViewsReadable(norm, front);
      AllOkAt(norm, edges, |edges| - 1);
      LinkReadable(Outgoing(front), e.callerKey, e.calleeKey);
      LinkReadable(Incoming(front), e.calleeKey, e.callerKey);
      CreditReadable(InDegrees(front), e.calleeKey, e.weight);
    }
  }

  predicate NoBlank(s: seq<string>) { forall j :: 0 <= j < |s| ==> !IsBlank(s[j]) }

  lemma ReadableAt(m: Adjacency, k: string)
    requires Readable(m) && Get(m, k).Some?
    ensures NoBlank(Get(m, k).value) && Distinct(Get(m, k).value)
  {
    var i := GetIndex(m, k);
  }

  lemma PutReadable(m: Adjacency, k: string, s: seq<string>)
    requires Readable(m) && !IsBlank(k) && NoBlank(s) && Distinct(s)
    ensures Readable(Put(m, k, s))
  {
    PutShape(m, k, s);
    if Get(m, k).Some? {
      var i := PutFirst(m, k, s);
    } else {
      PutNew(m, k, s);
    }
  }

  lemma LinkReadable(m: Adjacency, k: string, v: string)
    requires Readable(m) && !IsBlank(k) && !IsBlank(v)
    ensures Readable(Link(m, k, v))
  {
    if Get(m, k).Some? { ReadableAt(m, k); }
    PutReadable(m, k, Add(OrElse(Get(m, k), []), v));
  }

  lemma CreditReadable(m: Degrees, k: string, w: real)
    requires ReadableDegrees(m) && !IsBlank(k) && w > 0.0
    ensures ReadableDegrees(Credit(m, k, w))
  {
    var total := OrElse(Get(m, k), 0.0) + w;
    PutShape(m, k, total);
    if Get(m, k).Some? {
      var i := PutFirst(m, k, total);
    } else {
      PutNew(m, k, total);
    }
  }

  lemma EqualCountsMatch(x: real)
    ensures CountsMatch(x, x)
  {}

  // ---- the round trip ------------------------------------------------------------

  lemma BuiltCoverageOk(norm: string -> string, stdlib: set<string>, symbols: SymbolTable, refs: RefTable,
                        builtAt: string)
    ensures var g := Graph(norm, stdlib, symbols, refs, None, builtAt);
            g.coverage.Some? && CoverageOk(g.coverage.value)
  {
    var ctx := ContextFor(norm, stdlib, symbols);
    EvidencePartition(norm, stdlib, symbols, refs, builtAt);
    RunCountsBuckets(ctx, Items(refs));
    BucketsPartition(ctx, Items(refs));
  }

  lemma BuiltEdgesOk(norm: string -> string, stdlib: set<string>, symbols: SymbolTable, refs: RefTable, builtAt: string)
    requires WellFormedInput(norm, stdlib, symbols, refs)
    ensures var g := Graph(norm, stdlib, symbols, refs, None, builtAt);
            DistinctPairs(g.edges) && forall i :: 0 <= i < |g.edges| ==> EdgeOk(norm, g.edges[i])
  {
    hide Run, EdgeOk;
    var ctx := ContextFor(norm, stdlib, symbols);
    var g := Graph(norm, stdlib, symbols, refs, None, builtAt);
    var items := Items(refs);
    CanonicalSound(norm, symbols);
    forall i | 0 <= i < |g.edges| ensures EdgeOk(norm, g.edges[i]) { BuiltEdgeOk(ctx, items, i); }
    RunKeyed(ctx, false, Initial(None), items);
    KeyedIsDistinct(Run(ctx, false, Initial(None), items).table);
  }

  /** Up to the ledger, a graph built from well-formed input always passes. */
  lemma BuiltAcceptedIfLedgerOk(norm: string -> string, stdlib: set<string>, symbols: SymbolTable, refs: RefTable,
                                builtAt: string, id: Identity)
    requires WellFormedInput(norm, stdlib, symbols, refs)
    requires !IsBlank(builtAt) && !IsBlank(id.reviewGraphVersion) && !IsBlank(id.reviewGraphSignature)
    ensures var g := Graph(norm, stdlib, symbols, refs, None, builtAt);
            g.coverage.Some? && (Accepts(norm, Save(g, id), g.coverage.value)
              <==> LedgerOk(Save(g, id), g.coverage.value))
  {
    hide Run, EdgeOk, LedgerOk, Items, ContextFor, WellFormedInput, CoverageOk, Readable, ReadableDegrees;
    var g := Graph(norm, stdlib, symbols, refs, None, builtAt);
    BuiltCoverageOk(norm, stdlib, symbols, refs, builtAt);
    BuiltEdgesOk(norm, stdlib, symbols, refs, builtAt);
    ViewsReadable(norm, g.edges);
  }

  // ---- exactly which built graphs are accepted -----------------------------------

  /** Over the pairs the references reach, references times first weight matches the number
      of resolved references, and without first references the number of those that return. */
  ghost predicate Conserved(ctx: Context, items: seq<Item>) {
    && CountsMatch(PairEvidence(ctx, items, Reached(ctx, items)), CountIn(ctx, items, InResolved) as real)
    && CountsMatch(PairDuplicates(ctx, items, Reached(ctx, items)), Returns(ctx, items) as real)
  }

  /** Adding the same other evidence to both sides keeps the difference and widens the
      tolerance. */
  lemma MatchWidens(evidence: real, resolved: int, others: int)
    requires CountsMatch(evidence, resolved as real) && evidence >= 0.0 && resolved >= 0 && others >= 0
    ensures CountsMatch((resolved + others) as real, evidence + others as real)
  {}

  /** For a snapshot whose counters partition its total, the third comparison is implied. */
  lemma TwoComparisons(raw: Persisted, c: Coverage)
    requires WeightedEvidence(raw.edges) >= 0.0 && c.resolvedEvidence >= 0
    requires c.unresolvedEvidence >= 0 && c.typeOnlyEvidence >= 0 && c.unsupportedEvidence >= 0
             && c.sameFileEvidence >= 0
    requires c.resolvedEvidence + c.unresolvedEvidence + c.typeOnlyEvidence + c.unsupportedEvidence + c.sameFileEvidence
             == c.totalEvidence
    requires raw.totalRefs == Some(c.totalEvidence) && raw.unresolvedRefs == Some(c.unresolvedEvidence)
    ensures LedgerOk(raw, c) <==> CountsMatch(WeightedEvidence(raw.edges), c.resolvedEvidence as real)
                                  && CountsMatch(WeightedDuplicates(raw.edges), c.duplicateEvidence as real)
  {
    hide CountsMatch, WeightedEvidence, WeightedDuplicates;
    var evidence := WeightedEvidence(raw.edges);
    var others := c.totalEvidence - c.resolvedEvidence;
    assert evidence + c.unresolvedEvidence as real + c.typeOnlyEvidence as real
           + c.unsupportedEvidence as real + c.sameFileEvidence as real == evidence + others as real;
    if CountsMatch(evidence, c.resolvedEvidence as real) {
      MatchWidens(evidence, c.resolvedEvidence, others);
    }
  }

  lemma ContextIndexed(norm: string -> string, stdlib: set<string>, symbols: SymbolTable)
    ensures WellIndexed(ContextFor(norm, stdlib, symbols))
  {}

  lemma BuiltDuplicates(norm: string -> string, stdlib: set<string>, symbols: SymbolTable, refs: RefTable,
                        builtAt: string)
    ensures var g := Graph(norm, stdlib, symbols, refs, None, builtAt);
            var run := Run(ContextFor(norm, stdlib, symbols), false, Initial(None), Items(refs));
            && g.edges == Edges(run.table) && g.coverage.Some?
            && g.coverage.value.duplicateEvidence == run.coverage.duplicateEvidence
  {
    hide Run, Items, ContextFor;
  }

  lemma LedgerOkIffConserved(norm: string -> string, stdlib: set<string>, symbols: SymbolTable, refs: RefTable,
                             builtAt: string, id: Identity)
    ensures var g := Graph(norm, stdlib, symbols, refs, None, builtAt);
            g.coverage.Some?
            && (LedgerOk(Save(g, id), g.coverage.value) <==> Conserved(ContextFor(norm, stdlib, symbols), Items(refs)))
  {
    hide Graph, Run, Items, ContextFor, CountsMatch, WeightedEvidence, WeightedDuplicates, PairEvidence, PairDuplicates,
         LedgerOk, Reached, CountIn, Returns, WellIndexed;
    var ctx, items := ContextFor(norm, stdlib, symbols), Items(refs);
    EvidencePartition(norm, stdlib, symbols, refs, builtAt);
    BuiltDuplicates(norm, stdlib, symbols, refs, builtAt);
    ContextIndexed(norm, stdlib, symbols);
    LedgerIsPairSums(ctx, items);
    DuplicatesAreReturns(ctx, items);
    var g := Graph(norm, stdlib, symbols, refs, None, builtAt);
    TwoComparisons(Save(g, id), g.coverage.value);
  }

  /** A graph built from well-formed input passes its own validator if and only if its
      references conserve evidence. */
  lemma BuiltAcceptedIff(norm: string -> string, stdlib: set<string>, symbols: SymbolTable, refs: RefTable,
                         builtAt: string, id: Identity)
    requires WellFormedInput(norm, stdlib, symbols, refs)
    requires !IsBlank(builtAt) && !IsBlank(id.reviewGraphVersion) && !IsBlank(id.reviewGraphSignature)
    ensures var g := Graph(norm, stdlib, symbols, refs, None, builtAt);
            g.coverage.Some?
            && (Accepts(norm, Save(g, id), g.coverage.value)
                <==> Conserved(ContextFor(norm, stdlib, symbols), Items(refs)))
  {
    hide Accepts, LedgerOk, Conserved, Graph;
    BuiltAcceptedIfLedgerOk(norm, stdlib, symbols, refs, builtAt, id);
    LedgerOkIffConserved(norm, stdlib, symbols, refs, builtAt, id);
  }

  /** Without a mixed pair evidence is conserved exactly. */
  lemma UnmixedConserves(ctx: Context, items: seq<Item>)
    requires WellIndexed(ctx) && Coherent(ctx, items) && NoMixedPair(ctx, items)
    ensures PairEvidence(ctx, items, Reached(ctx, items)) == CountIn(ctx, items, InResolved) as real
    ensures PairDuplicates(ctx, items, Reached(ctx, items)) == Returns(ctx, items) as real
    ensures Conserved(ctx, items)
  {
    hide Run, Coherent, NoMixedPair, PairEvidence, PairDuplicates, Reached, CountIn, Returns, WeightedEvidence,
      WeightedDuplicates;
    BalancedThroughoutIffUnmixed(ctx, items);
    ThroughoutAtEnd(ctx, items);
    LedgerIsPairSums(ctx, items);
    DuplicatesAreReturns(ctx, items);
    RunCountsBuckets(ctx, items);
    EqualCountsMatch(CountIn(ctx, items, InResolved) as real);
    EqualCountsMatch(Returns(ctx, items) as real);
  }

  /** Build, save, load: with well-formed ids and callers in their own files the loaded graph
      is the built one, edges, maps, coverage and all, whenever evidence is conserved. */
  lemma BuiltGraphSurvivesReload(norm: string -> string, stdlib: set<string>, symbols: SymbolTable, refs: RefTable,
                                 builtAt: string, id: Identity)
    requires WellFormedInput(norm, stdlib, symbols, refs)
    requires !IsBlank(builtAt) && !IsBlank(id.reviewGraphVersion) && !IsBlank(id.reviewGraphSignature)
    ensures var g := Graph(norm, stdlib, symbols, refs, None, builtAt);
            var raw := Save(g, id);
            && Expected(raw, Some(id)) && Expected(raw, None)
            && (Accepts(norm, raw, LoadCoverage(raw)) <==> Conserved(ContextFor(norm, stdlib, symbols), Items(refs)))
            && Rehydrate(raw, LoadCoverage(raw)) == g
  {
    hide Run, Items, ContextFor, Conserved, Accepts, WellFormedInput;
    BuiltAcceptedIff(norm, stdlib, symbols, refs, builtAt, id);
  }

  /** The whole program, run end to end. */
  method BuildSaveLoad(norm: string -> string, stdlib: set<string>, symbols: SymbolTable, refs: RefTable,
                       builtAt: string, id: Identity) returns (built: FunctionCallGraph, loaded: Option<Loaded>)
    requires WellFormedInput(norm, stdlib, symbols, refs)
    requires !IsBlank(builtAt) && !IsBlank(id.reviewGraphVersion) && !IsBlank(id.reviewGraphSignature)
    ensures built == Graph(norm, stdlib, symbols, refs, None, builtAt)
    ensures loaded == if Conserved(ContextFor(norm, stdlib, symbols), Items(refs)) then Some(Loaded(built, id))
            else None
  {
    hide Graph, Items, ContextFor, Conserved, Accepts, WellFormedInput;
    built := BuildCallGraph(norm, stdlib, symbols, refs, None, builtAt);
    BuiltGraphSurvivesReload(norm, stdlib, symbols, refs, builtAt, id);
    loaded := LoadCallGraph(norm, Some(Save(built, id)), Some(id));
  }
}
