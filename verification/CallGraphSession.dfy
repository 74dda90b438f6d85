/** The session's own path (clients/runtime-session.ts:1722-1732): the graph built from an extracted
    review graph with the extraction's counters, and exactly when it is accepted back. */
module CallGraphSession {
  import opened JsMap
  import opened Text
  import opened SymbolId
  import opened CallGraphTypes
  import opened CallGraphIndex
  import opened CallGraphBuild
  import opened CallGraphIndexes
  import opened CallGraphEvidence
  import opened CallGraphLedger
  import opened CallGraphPersist
  import opened CallGraphRoundTrip
  import opened ReviewGraphExtract
  import opened CallGraphAdapter

  // ---- tagged references keep the ledger balanced --------------------------------

  ghost predicate AllTaggedItems(items: seq<Item>) { forall i :: 0 <= i < |items| ==> items[i].ref.evidenceKind.Some? }

  lemma {:induction false} TaggedWeighsOne(ctx: Context, items: seq<Item>, p: Pair)
    requires AllTaggedItems(items) && ReachCount(ctx, items, p) > 0
    ensures FirstWeight(ctx, items, p) == 1.0
  {
    var front, item := items[..|items| - 1], items[|items| - 1];
    assert items[|items| - 1].ref.evidenceKind.Some?;
    if ReachCount(ctx, front, p) == 0 {
    } else {
      TaggedWeighsOne(ctx, front, p);
    }
  }

  /** A tagged reference has one candidate and is credited one record for it. */
  lemma TaggedGain(ctx: Context, front: seq<Item>, item: Item, m: EdgeTable)
    requires WellIndexed(ctx) && AllTaggedItems(front) && item.ref.evidenceKind.Some?
    requires m == Run(ctx, false, Initial(None), front).table && BucketOf(ctx, item) == InResolved
    ensures Classify(ctx, item).Candidates? && GainOf(ctx, m, item) == 1.0
    ensures DuplicateGainOf(ctx, m, item)
            == if SomePairExists(m, KeyOf(ctx, item), Classify(ctx, item).callees) then 1.0 else 0.0
  {
    hide Run, TableEntry;
    CandidatesAreIndexed(ctx, item);
    var cands, key := Classify(ctx, item).callees, KeyOf(ctx, item);
    var p: Pair := (key, cands[0].id);
    EdgeTableExact(ctx, false, Initial(None), front, p);
    EntryIsCounted(ctx, front, p);
    if PairExists(m, key, cands[0]) { TaggedWeighsOne(ctx, front, p); }
    SingleGain(m, key, cands, WeightFor(ctx, item));
    assert DuplicateGain(m, key, cands, 1) == DuplicateGain(m, key, cands, 0) + PairWeight(m, key, cands[0], 0.0);
    assert SomePairExists(m, key, cands) <==> PairExists(m, key, cands[0]);
  }

  lemma {:induction false} TaggedBalanced(ctx: Context, items: seq<Item>)
    requires WellIndexed(ctx) && AllTaggedItems(items)
    ensures BalancedAfter(ctx, items)
  {
    hide Run, WellIndexed, BucketOf, GainOf, DuplicateGainOf, SomePairExists;
    if items == [] {
      EmptyBalanced(ctx);
    } else {
      var front, item := items[..|items| - 1], items[|items| - 1];
      assert items == front + [item];
      TaggedBalanced(ctx, front);
      StepLedger(ctx, front, item);
      if BucketOf(ctx, item) == InResolved {
        TaggedGain(ctx, front, item, Run(ctx, false, Initial(None), front).table);
      }
    }
  }

  // ---- the session's graph -------------------------------------------------------

  /** The graph the session builds and saves. */
  function SessionGraph(norm: string -> string, stdlib: set<string>, g: ReviewGraph,
                        builtAt: string): FunctionCallGraph {
    Graph(norm, stdlib, SymbolsOf(g.nodes), ExtractEdges(g, g.edges).refs, Some(CoverageOf(g)), builtAt)
  }

  lemma SessionInput(norm: string -> string, stdlib: set<string>, g: ReviewGraph)
    requires SoundGraph(norm, g)
    ensures var ctx, x := ContextFor(norm, stdlib, SymbolsOf(g.nodes)), ExtractEdges(g, g.edges);
            FitsNodes(ctx, g) && Faithful(ctx, g, x, Untracked(g, g.edges)) && AllTaggedItems(Items(x.refs))
  {
    hide Items, ExtractEdges, SymbolsOf, ContextFor, NodeSymbol, CountsAs, IsNodeSymbol, IsCallerFile;
    var ctx, x := ContextFor(norm, stdlib, SymbolsOf(g.nodes)), ExtractEdges(g, g.edges);
    forall id ensures Get(ctx.index.byId, id) == NodeSymbol(g, id) { ByIdIsNodeSymbol(norm, stdlib, g, id); }
    ExtractionIsFaithful(ctx, g, g.edges);
    forall i | 0 <= i < |Items(x.refs)| ensures Items(x.refs)[i].ref.evidenceKind.Some? {
      assert Extracted(ctx, g, Items(x.refs)[i]);
    }
  }

  predicate PartitionsTotal(c: Coverage) {
    && c.unresolvedEvidence >= 0 && c.typeOnlyEvidence >= 0 && c.unsupportedEvidence >= 0 && c.sameFileEvidence >= 0
    && c.resolvedEvidence + c.unresolvedEvidence + c.typeOnlyEvidence + c.unsupportedEvidence + c.sameFileEvidence
       == c.totalEvidence
  }

  lemma SessionCoverage(norm: string -> string, stdlib: set<string>, g: ReviewGraph, builtAt: string)
    requires SoundGraph(norm, g)
    ensures var ctx, x := ContextFor(norm, stdlib, SymbolsOf(g.nodes)), ExtractEdges(g, g.edges);
            var items, session := Items(x.refs), SessionGraph(norm, stdlib, g, builtAt);
            && session.coverage.Some? && CoverageOk(session.coverage.value)
            && session.edges == Edges(Run(ctx, false, Initial(None), items).table)
            && session.totalRefs == session.coverage.value.totalEvidence
            && session.unresolvedRefs == session.coverage.value.unresolvedEvidence
            && session.coverage.value.resolvedEvidence == CountIn(ctx, items, InResolved)
            && session.coverage.value.duplicateEvidence == Returns(ctx, items)
            && PartitionsTotal(session.coverage.value)
  {
    hide Run, Items, ExtractEdges, SymbolsOf, ContextFor, AllExtracted, CountIn, Returns, FitsNodes, AllTaggedItems;
    var ctx, x := ContextFor(norm, stdlib, SymbolsOf(g.nodes)), ExtractEdges(g, g.edges);
    SessionInput(norm, stdlib, g);
    ContextIndexed(norm, stdlib, SymbolsOf(g.nodes));
    assert CountsAs(ctx, Items(x.refs), CoverageOf(g), Untracked(g, g.edges));
    SuppliedRun(ctx, CoverageOf(g), Items(x.refs));
    LanguagesAreNamed(g.persistedWhole, g.nodes);
    BucketsPartition(ctx, Items(x.refs));
  }

  lemma SessionLedger(norm: string -> string, stdlib: set<string>, g: ReviewGraph, builtAt: string, id: Identity)
    requires SoundGraph(norm, g)
    ensures var session := SessionGraph(norm, stdlib, g, builtAt);
            session.coverage.Some? && LedgerOk(Save(session, id), session.coverage.value)
  {
    hide Run, Items, ExtractEdges, SymbolsOf, ContextFor, CountIn, Returns, SoundGraph, LedgerOk, CoverageOk,
         CountsMatch, Faithful, WeightedEvidence, WeightedDuplicates, WellIndexed, SessionGraph, AllTaggedItems,
         FitsNodes;
    var ctx, x := ContextFor(norm, stdlib, SymbolsOf(g.nodes)), ExtractEdges(g, g.edges);
    var session := SessionGraph(norm, stdlib, g, builtAt);
    SessionInput(norm, stdlib, g);
    SessionCoverage(norm, stdlib, g, builtAt);
    ContextIndexed(norm, stdlib, SymbolsOf(g.nodes));
    TaggedBalanced(ctx, Items(x.refs));
    RunCountsBuckets(ctx, Items(x.refs));
    DuplicatesAreReturns(ctx, Items(x.refs));
    LedgerIsPairSums(ctx, Items(x.refs));
    TwoComparisons(Save(session, id), session.coverage.value);
    EqualCountsMatch(CountIn(ctx, Items(x.refs), InResolved) as real);
    EqualCountsMatch(Returns(ctx, Items(x.refs)) as real);
  }

  /** The maps do not depend on where the counters come from. */
  lemma SessionMaps(norm: string -> string, stdlib: set<string>, g: ReviewGraph, builtAt: string)
    requires SoundGraph(norm, g)
    ensures var session := SessionGraph(norm, stdlib, g, builtAt);
            && DistinctPairs(session.edges) && session.builtAt == builtAt
            && session.callees == Outgoing(session.edges) && session.callers == Incoming(session.edges)
            && session.inDegree == InDegrees(session.edges)
  {
    hide Run, Items, ExtractEdges, SymbolsOf, ContextFor, SoundGraph, Outgoing, Incoming, InDegrees, CoverageOk,
         CountIn, Returns, PartitionsTotal;
    SessionCoverage(norm, stdlib, g, builtAt);
    var ctx, items := ContextFor(norm, stdlib, SymbolsOf(g.nodes)), Items(ExtractEdges(g, g.edges).refs);
    RunKeyed(ctx, false, Initial(None), items);
    KeyedIsDistinct(Run(ctx, false, Initial(None), items).table);
  }

  /** Extract, build, save, load: whatever calls and references the review graph holds, resolved
      or not, the validator accepts the session's snapshot exactly if it can read back the keys
      of its edges, and then gives back the graph that was built. */
  lemma SessionAcceptedIffEdgesOk(norm: string -> string, stdlib: set<string>, g: ReviewGraph, builtAt: string,
                                  id: Identity)
    requires SoundGraph(norm, g)
    requires !IsBlank(builtAt) && !IsBlank(id.reviewGraphVersion) && !IsBlank(id.reviewGraphSignature)
    ensures var session := SessionGraph(norm, stdlib, g, builtAt);
            var raw := Save(session, id);
            && Expected(raw, Some(id)) && (Accepts(norm, raw, LoadCoverage(raw)) <==> AllOk(norm, session.edges))
            && Rehydrate(raw, LoadCoverage(raw)) == session
  {
    hide Run, Items, ExtractEdges, SymbolsOf, ContextFor, CountIn, Returns, SoundGraph, LedgerOk, CoverageOk,
         Readable, ReadableDegrees, AllOk, DistinctPairs, SessionGraph, Outgoing, Incoming, InDegrees;
    var session := SessionGraph(norm, stdlib, g, builtAt);
    SessionCoverage(norm, stdlib, g, builtAt);
    SessionLedger(norm, stdlib, g, builtAt, id);
    SessionMaps(norm, stdlib, g, builtAt);
    if AllOk(norm, session.edges) { ViewsReadable(norm, session.edges); }
  }

  // ---- which symbols the snapshot can read back ----------------------------------

  /** Ids come from `buildSymbolId`; a caller file is spelled as the symbols of that file are. */
  ghost predicate HasMintedId(sym: Symbol) {
    exists kind: string, line: nat :: IsKindToken(kind) && sym.id == BuildSymbolId(sym.filePath, sym.name, kind, line)
  }

  ghost predicate MintedGraph(norm: string -> string, g: ReviewGraph) {
    && (forall sym :: IsNodeSymbol(g.nodes, sym) ==> HasMintedId(sym))
    && (forall sym, file :: IsNodeSymbol(g.nodes, sym) && IsCallerFile(g, file) && norm(file) == norm(sym.filePath)
                            ==> file == sym.filePath)
  }

  /** File and name are not blank, and a colon in the name is absorbed by the file. */
  predicate Loads(norm: string -> string, sym: Symbol) {
    && !IsBlank(sym.filePath) && !IsBlank(sym.name)
    && if IsModuleForm(sym.filePath) then |sym.id| >= 5 && norm(sym.id[5..]) == norm(sym.filePath)
       else IsOneLine(sym.filePath) && (':' !in sym.name || AbsorbedByFile(norm, sym.filePath, sym.name))
  }

  lemma SymbolLoadsIff(norm: string -> string, sym: Symbol)
    requires HasMintedId(sym)
    ensures Loads(norm, sym)
            <==> !IsBlank(sym.filePath) && !IsBlank(sym.name) && KeyNames(norm, sym.id, sym.filePath, Some(sym.name))
    ensures !IsBlank(sym.id)
  {
    hide KeyNames, AbsorbedByFile, IsKindToken;
    var kind: string, line: nat :| IsKindToken(kind) && sym.id == BuildSymbolId(sym.filePath, sym.name, kind, line);
    CalleeNamedIff(norm, sym.filePath, sym.name, kind, line);
    FilePrefix(sym.filePath, sym.name, kind, line);
    assert sym.id[|sym.filePath|] == ':';
  }

  /** Both ends of the edge can be read back. */
  predicate EdgeLoads(norm: string -> string, g: ReviewGraph, e: Edge) {
    && !IsBlank(e.callerFile)
    && NodeSymbol(g, e.calleeKey).Some? && Loads(norm, NodeSymbol(g, e.calleeKey).value)
    && (e.callerSymbol.Some? ==> NodeSymbol(g, e.callerKey).Some? && Loads(norm, NodeSymbol(g, e.callerKey).value))
  }

  lemma KindIsNotBlank(kind: string)
    requires kind in SYMBOL_KINDS
    ensures !IsBlank(kind)
  {
    assert !IsSpace(kind[0]);
  }

  /** The caller of an extracted reference is a symbol of its own file. */
  lemma CallerIsNode(norm: string -> string, stdlib: set<string>, g: ReviewGraph, ctx: Context, item: Item)
    requires SoundGraph(norm, g) && MintedGraph(norm, g) && ctx == ContextFor(norm, stdlib, SymbolsOf(g.nodes))
    requires FitsNodes(ctx, g) && Extracted(ctx, g, item)
    ensures CallerOf(ctx, item).Some? ==>
              && IsNodeSymbol(g.nodes, CallerOf(ctx, item).value) && CallerOf(ctx, item).value.filePath == item.file
              && NodeSymbol(g, CallerOf(ctx, item).value.id) == CallerOf(ctx, item)
  {
    hide IsNodeSymbol, SymbolsOf, NodeSymbol, IsCallerFile, HasMintedId, CanonicalSymbols, AllSymbols;
    if Truthy(item.ref.callerSymbolId) && Get(ctx.index.byId, item.ref.callerSymbolId.value).Some? {
      assert Get(ctx.index.byId, item.ref.callerSymbolId.value) == NodeSymbol(g, item.ref.callerSymbolId.value);
      NodeSymbolIs(g, item.ref.callerSymbolId.value);
    } else if CallerOf(ctx, item).Some? {
      var sym := EnclosingIsNode(norm, stdlib, g, ctx, item);
      NodeSymbolIs(g, sym.id);
    }
  }

  lemma EnclosingIsNode(norm: string -> string, stdlib: set<string>, g: ReviewGraph, ctx: Context, item: Item)
    returns (sym: Symbol)
    requires SoundGraph(norm, g) && MintedGraph(norm, g) && ctx == ContextFor(norm, stdlib, SymbolsOf(g.nodes))
    requires IsCallerFile(g, item.file)
    requires Enclosing(OrElse(Get(ctx.canonical, ctx.norm(item.file)), []), item.ref.line).Some?
    ensures Enclosing(OrElse(Get(ctx.canonical, ctx.norm(item.file)), []), item.ref.line) == Some(sym)
    ensures IsNodeSymbol(g.nodes, sym) && sym.filePath == item.file
  {
    hide IsNodeSymbol, SymbolsOf, IsCallerFile, HasMintedId, CanonicalSymbols, AllSymbols, Enclosing;
    var table := SymbolsOf(g.nodes);
    EnclosingIsInnermost([], item.ref.line);
    var at := GetIndex(ctx.canonical, norm(item.file));
    var symbols := ctx.canonical[at].1;
    EnclosingIsInnermost(symbols, item.ref.line);
    sym := Enclosing(symbols, item.ref.line).value;
    var j :| 0 <= j < |symbols| && symbols[j] == sym;
    ExtractedContext(norm, stdlib, g);
    ExtractedByFile(g.nodes);
    assert ListFits(g.nodes, table[at]) && table[at].1[j] == sym;
  }

  /** The validator's view of one edge, given its ends. */
  lemma EdgeOkFromEnds(norm: string -> string, g: ReviewGraph, e: Edge, callee: Symbol, caller: Option<Symbol>)
    requires HasMintedId(callee) && callee.kind in SYMBOL_KINDS && NodeSymbol(g, callee.id) == Some(callee)
    requires e.calleeKey == callee.id && e.calleeFile == callee.filePath && e.calleeSymbol == callee.name
    requires e.calleeKind == Some(callee.kind) && e.weight == 1.0 && e.evidenceCount.Some? && e.evidenceCount.value >= 1
    requires caller.Some? ==>
               && HasMintedId(caller.value) && caller.value.kind in SYMBOL_KINDS
               && NodeSymbol(g, caller.value.id) == caller && caller.value.filePath == e.callerFile
               && e.callerKey == caller.value.id && e.callerSymbol == Some(caller.value.name)
               && e.callerKind == Some(caller.value.kind)
    requires caller.None? ==> e.callerKey == "file:" + e.callerFile && e.callerSymbol == None && e.callerKind == None
    ensures EdgeOk(norm, e) <==> EdgeLoads(norm, g, e)
  {
    hide KeyNames, Loads, NodeSymbol, HasMintedId;
    SymbolLoadsIff(norm, callee);
    KindIsNotBlank(callee.kind);
    match caller {
      case Some(s) =>
        SymbolLoadsIff(norm, s);
        KindIsNotBlank(s.kind);
      case None => ModuleKeyNames(norm, e.callerFile);
    }
  }

  lemma SessionEdgeOkIff(norm: string -> string, stdlib: set<string>, g: ReviewGraph, ctx: Context, items: seq<Item>,
                         i: nat)
    requires SoundGraph(norm, g) && MintedGraph(norm, g) && ctx == ContextFor(norm, stdlib, SymbolsOf(g.nodes))
    requires FitsNodes(ctx, g) && AllExtracted(ctx, g, items) && WellIndexed(ctx)
    requires i < |Run(ctx, false, Initial(None), items).table|
    ensures var e := Edges(Run(ctx, false, Initial(None), items).table)[i]; EdgeOk(norm, e) <==> EdgeLoads(norm, g, e)
  {
    hide Run, EdgeOk, EdgeLoads, NodeSymbol, IsNodeSymbol, HasMintedId, Extracted, TableEntry, SymbolsOf, ContextFor;
    var m := Run(ctx, false, Initial(None), items).table;
    RunKeyed(ctx, false, Initial(None), items);
    var p, e := m[i].0, m[i].1;
    GetAt(m, i);
    EdgeTableExact(ctx, false, Initial(None), items, p);
    EntryIsEvidence(ctx, items, p);
    var f: nat :| Summarizes(ctx, items, p, f, e);
    assert Extracted(ctx, g, items[f]);
    ReachCountPositive(ctx, items, p, f);
    FirstEdgeOkIff(norm, stdlib, g, ctx, items[f], p, e);
  }

  lemma FirstEdgeOkIff(norm: string -> string, stdlib: set<string>, g: ReviewGraph, ctx: Context, item: Item, p: Pair,
                       e: Edge)
    requires SoundGraph(norm, g) && MintedGraph(norm, g) && ctx == ContextFor(norm, stdlib, SymbolsOf(g.nodes))
    requires FitsNodes(ctx, g) && Extracted(ctx, g, item) && WellIndexed(ctx)
    requires Reaches(ctx, item, p) && Get(ctx.index.byId, p.1).Some?
    requires e == FirstEdge(ctx, item, Get(ctx.index.byId, p.1).value)
                  .(evidenceCount := e.evidenceCount, evidenceKind := e.evidenceKind)
    requires e.evidenceCount.Some? && e.evidenceCount.value >= 1
    ensures EdgeOk(norm, e) <==> EdgeLoads(norm, g, e)
  {
    hide EdgeOk, EdgeLoads, NodeSymbol, IsNodeSymbol, HasMintedId, SymbolsOf, ContextFor, Classify, CallerOf;
    assert Get(ctx.index.byId, p.1) == NodeSymbol(g, p.1);
    var callee := NodeSymbol(g, p.1).value;
    NodeSymbolIs(g, p.1);
    NodeSymbolHasName(g.nodes, callee);
    var caller := CallerOf(ctx, item);
    CallerIsNode(norm, stdlib, g, ctx, item);
    if caller.Some? { NodeSymbolHasName(g.nodes, caller.value); }
    EdgeOkFromEnds(norm, g, e, callee, caller);
  }

  /** The exact condition: a session's graph over minted ids is accepted if and only if both ends
      of each of its edges have files and names that load: not blank, the file one line, and a
      colon in the name absorbed by the file. Symbols no edge touches do not matter. */
  lemma SessionAcceptedIff(norm: string -> string, stdlib: set<string>, g: ReviewGraph, builtAt: string, id: Identity)
    requires SoundGraph(norm, g) && MintedGraph(norm, g)
    requires !IsBlank(builtAt) && !IsBlank(id.reviewGraphVersion) && !IsBlank(id.reviewGraphSignature)
    ensures var session := SessionGraph(norm, stdlib, g, builtAt);
            var raw := Save(session, id);
            Accepts(norm, raw, LoadCoverage(raw))
            <==> forall i :: 0 <= i < |session.edges| ==> EdgeLoads(norm, g, session.edges[i])
  {
    hide Run, Items, ExtractEdges, SymbolsOf, ContextFor, CountIn, Returns, SoundGraph, MintedGraph, CoverageOk,
         Accepts, EdgeOk, EdgeLoads, SessionGraph, FitsNodes, CountsAs, AllExtracted, WellIndexed;
    var ctx, x := ContextFor(norm, stdlib, SymbolsOf(g.nodes)), ExtractEdges(g, g.edges);
    var session := SessionGraph(norm, stdlib, g, builtAt);
    SessionAcceptedIffEdgesOk(norm, stdlib, g, builtAt, id);
    SessionInput(norm, stdlib, g);
    SessionCoverage(norm, stdlib, g, builtAt);
    ContextIndexed(norm, stdlib, SymbolsOf(g.nodes));
    forall i | 0 <= i < |session.edges|
      ensures EdgeOk(norm, session.edges[i]) <==> EdgeLoads(norm, g, session.edges[i])
    {
      SessionEdgeOkIff(norm, stdlib, g, ctx, Items(x.refs), i);
    }
  }

  // ---- canonical ids -------------------------------------------------------------

  /** In particular every graph whose symbols have canonical ids is accepted. */
  lemma SessionGraphSurvivesReload(norm: string -> string, stdlib: set<string>, g: ReviewGraph, builtAt: string,
                                   id: Identity)
    requires WellFormedGraph(norm, g)
    requires !IsBlank(builtAt) && !IsBlank(id.reviewGraphVersion) && !IsBlank(id.reviewGraphSignature)
    ensures var session := SessionGraph(norm, stdlib, g, builtAt);
            var raw := Save(session, id);
            && Expected(raw, Some(id)) && Accepts(norm, raw, LoadCoverage(raw))
            && Rehydrate(raw, LoadCoverage(raw)) == session
  {
    hide Accepts, SessionGraph, Rehydrate;
    SessionAcceptedIffEdgesOk(norm, stdlib, g, builtAt, id);
    CanonicalEdgesOk(norm, stdlib, g, builtAt);
  }

  lemma CanonicalEdgesOk(norm: string -> string, stdlib: set<string>, g: ReviewGraph, builtAt: string)
    requires WellFormedGraph(norm, g)
    ensures AllOk(norm, SessionGraph(norm, stdlib, g, builtAt).edges)
  {
    hide Run, Items, ExtractEdges, SymbolsOf, ContextFor, SoundGraph, CoverageOk, CountIn, Returns, EdgeOk,
         IsNodeSymbol, WellFormedSymbol, IsCallerFile, FitsNodes, CountsAs, SessionGraph, OwnCaller;
    var ctx, x := ContextFor(norm, stdlib, SymbolsOf(g.nodes)), ExtractEdges(g, g.edges);
    SessionInput(norm, stdlib, g);
    SessionCoverage(norm, stdlib, g, builtAt);
    ExtractedTableWellFormed(norm, g);
    forall i | 0 <= i < |Items(x.refs)|
      ensures !IsBlank(Items(x.refs)[i].file) && OwnCaller(ctx, Items(x.refs)[i])
    {
      assert Extracted(ctx, g, Items(x.refs)[i]);
      ExtractedOwnsCaller(ctx, g, Items(x.refs)[i]);
    }
    BuiltEdgesOk(norm, stdlib, SymbolsOf(g.nodes), x.refs, builtAt);
    BuiltDuplicates(norm, stdlib, SymbolsOf(g.nodes), x.refs, builtAt);
  }

  lemma ExtractedOwnsCaller(ctx: Context, g: ReviewGraph, item: Item)
    requires Extracted(ctx, g, item)
    ensures OwnCaller(ctx, item)
  {}

  /** The session task, run end to end. */
  method BuildSessionGraph(norm: string -> string, stdlib: set<string>, g: ReviewGraph, builtAt: string, id: Identity)
    returns (built: FunctionCallGraph, loaded: Option<Loaded>)
    requires SoundGraph(norm, g)
    requires !IsBlank(builtAt) && !IsBlank(id.reviewGraphVersion) && !IsBlank(id.reviewGraphSignature)
    ensures built == SessionGraph(norm, stdlib, g, builtAt)
    ensures loaded == if AllOk(norm, built.edges) then Some(Loaded(built, id)) else None
  {
    hide Graph, ExtractEdges, SymbolsOf, Accepts, AllOk;
    var allSymbols, allRefs, coverage := ExtractSymbolsAndRefsFromGraph(g);
    built := BuildCallGraph(norm, stdlib, allSymbols, allRefs, Some(coverage), builtAt);
    SessionAcceptedIffEdgesOk(norm, stdlib, g, builtAt, id);
    loaded := LoadCallGraph(norm, Some(Save(built, id)), Some(id));
  }
}
