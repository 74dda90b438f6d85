/** `extractSymbolsAndRefsFromGraph` (clients/review-graph/builder.ts): the symbols, tagged
    references and coverage counters the session hands to the call-graph builder. */
module ReviewGraphExtract {
  import opened JsMap
  import opened Text
  import opened CallGraphTypes
  import opened CallGraphIndex
  import opened CallGraphBuild

  datatype NodeKind = SymbolNode | FileNode | OtherNode

  datatype Node = Node(
    kind: NodeKind, filePath: Option<string>, symbolName: Option<string>, symbolKind: Option<string>,
    line: Option<int>, endLine: Option<int>, column: Option<int>, unresolvedName: bool,
    language: string, extraction: Option<seq<Option<LanguageStatus>>>)

  datatype EdgeKind = CallsEdge | ReferencesEdge | OtherEdge

  /** `referenceKind` and `line` come from the edge's metadata. */
  datatype GraphEdge = GraphEdge(
    kind: EdgeKind, from: string, to: string, resolution: Option<Resolution>,
    referenceKind: Option<ReferenceKind>, line: Option<int>)

  /** `persistedWhole`: the persisted snapshot was neither partial nor in progress. */
  datatype ReviewGraph = ReviewGraph(nodes: Entries<string, Node>, edges: seq<GraphEdge>, persistedWhole: bool)

  const SYMBOL_KINDS := {"class", "interface", "type", "variable", "method", "property", "function"}

  function KindOf(n: Node): string {
    if n.symbolKind.Some? && n.symbolKind.value in SYMBOL_KINDS then n.symbolKind.value else "function"
  }

  /** `map.get(key)` with the value appended to its list. */
  function Append<T>(m: Entries<string, seq<T>>, key: string, x: T): Entries<string, seq<T>> {
    Put(m, key, OrElse(Get(m, key), []) + [x])
  }

  // ---- symbols -------------------------------------------------------------------

  function SymbolOf(id: string, n: Node): Option<Symbol> {
    if n.kind == SymbolNode && Truthy(n.filePath) && Truthy(n.symbolName)
    then Some(Symbol(id, n.symbolName.value, KindOf(n), n.filePath.value, OrElse(n.line, 1), n.endLine,
      OrElse(n.column, 1)))
    else None
  }

  function SymbolsOf(nodes: Entries<string, Node>): SymbolTable {
    if nodes == [] then []
    else
      var before, last := SymbolsOf(nodes[..|nodes| - 1]), nodes[|nodes| - 1];
      var sym := SymbolOf(last.0, last.1);
      if sym.None? then before else Append(before, sym.value.filePath, sym.value)
  }

  /** `nodeSymbols` */
  function NodeSymbolsOf(nodes: Entries<string, Node>): Entries<string, Symbol> {
    if nodes == [] then []
    else
      var before, last := NodeSymbolsOf(nodes[..|nodes| - 1]), nodes[|nodes| - 1];
      var sym := SymbolOf(last.0, last.1);
      if sym.None? then before else Put(before, last.0, sym.value)
  }

  /** The symbol a node id stands for. */
  function NodeSymbol(g: ReviewGraph, id: string): Option<Symbol> {
    match Get(g.nodes, id) case Some(n) => SymbolOf(id, n) case None => None
  }

  // ---- references ----------------------------------------------------------------

  function CallerFileOf(g: ReviewGraph, e: GraphEdge): Option<string> {
    var from := Get(g.nodes, e.from);
    if from.Some? && from.value.kind != OtherNode then from.value.filePath
    else if StartsWith(e.from, "file:") then Some(e.from[5..]) else None
  }

  function ReferenceKindOf(e: GraphEdge): ReferenceKind {
    if e.kind == CallsEdge then CallReference else OrElse(e.referenceKind, UnknownReference)
  }

  function ResolutionOf(g: ReviewGraph, e: GraphEdge): Resolution {
    var target := Get(g.nodes, e.to);
    OrElse(e.resolution, if target.Some? && !target.value.unresolvedName then Exact else Unresolved)
  }

  function TargetNameOf(g: ReviewGraph, e: GraphEdge): Option<string> {
    var target := Get(g.nodes, e.to);
    if target.Some? && target.value.symbolName.Some? then target.value.symbolName
    else if StartsWith(e.to, "symbol-name:") then Some(e.to[|"symbol-name:"|..]) else None
  }

  function RefOf(g: ReviewGraph, e: GraphEdge, callerFile: string): SymbolRef {
    var from, name := Get(g.nodes, e.from), TargetNameOf(g, e);
    SymbolRef(
      if Truthy(name) then callerFile + ":" + name.value else e.to, None,
      if e.line.Some? then e.line.value else if from.Some? then OrElse(from.value.line, 1) else 1,
      Some(if e.kind == CallsEdge then Calls else References), Some(ReferenceKindOf(e)), Some(e.to),
      if from.Some? && from.value.kind == SymbolNode then Some(e.from) else None, Some(ResolutionOf(g, e)))
  }

  // ---- counters ------------------------------------------------------------------

  function CountEdge(c: Coverage, e: GraphEdge): Coverage {
    var counted := c.(totalEvidence := c.totalEvidence + 1);
    if e.kind == CallsEdge then counted.(callsEvidence := c.callsEvidence + 1)
    else counted.(referencesEvidence := c.referencesEvidence + 1)
  }

  predicate Resolves(g: ReviewGraph, e: GraphEdge) {
    NodeSymbol(g, e.to).Some? && ResolutionOf(g, e) != NameOnly && ResolutionOf(g, e) != Unresolved
  }

  function CountTarget(g: ReviewGraph, c: Coverage, e: GraphEdge): Coverage {
    match ReferenceKindOf(e)
    case TypeReference => c.(typeOnlyEvidence := c.typeOnlyEvidence + 1)
    case UnknownReference => c.(unsupportedEvidence := c.unsupportedEvidence + 1)
    case CallReference =>
      if !Resolves(g, e) then c.(unresolvedEvidence := c.unresolvedEvidence + 1)
      else c.(eligibleEvidence := c.eligibleEvidence + 1, resolvedEvidence := c.resolvedEvidence + 1)
  }

  datatype Extract = Extract(refs: RefTable, coverage: Coverage)

  function ExtractOne(g: ReviewGraph, x: Extract, e: GraphEdge): Extract {
    if e.kind == OtherEdge then x
    else
      var c, file := CountEdge(x.coverage, e), CallerFileOf(g, e);
      if !Truthy(file) then Extract(x.refs, c.(unsupportedEvidence := c.unsupportedEvidence + 1))
      else Extract(Append(x.refs, file.value, RefOf(g, e, file.value)), CountTarget(g, c, e))
  }

  function ExtractEdges(g: ReviewGraph, edges: seq<GraphEdge>): Extract {
    if edges == [] then Extract([], EmptyCoverage().(complete := g.persistedWhole, languages := Some([])))
    else ExtractOne(g, ExtractEdges(g, edges[..|edges| - 1]), edges[|edges| - 1])
  }

  // ---- what the file nodes say ---------------------------------------------------

  /** No metadata, none at all, or an unavailable language: unavailable. */
  function StatusOf(n: Node): LanguageStatus {
    if n.extraction.None? || n.extraction.value == [] || Some(Unavailable) in n.extraction.value then Unavailable
    else if Some(Partial) in n.extraction.value then Partial
    else Complete
  }

  function Worst(prior: Option<LanguageStatus>, status: LanguageStatus): LanguageStatus {
    if prior == Some(Unavailable) || status == Unavailable then Unavailable
    else if prior == Some(Partial) || status == Partial then Partial
    else status
  }

  datatype FileFacts = FileFacts(seen: bool, complete: bool, languages: Entries<string, LanguageStatus>)

  function AddFile(f: FileFacts, n: Node): FileFacts {
    if n.kind != FileNode then f
    else
      FileFacts(true, f.complete && StatusOf(n) == Complete,
                if n.language == "" then f.languages
                else Put(f.languages, n.language, Worst(Get(f.languages, n.language), StatusOf(n))))
  }

  function FactsOf(whole: bool, nodes: Entries<string, Node>): FileFacts {
    if nodes == [] then FileFacts(false, whole, [])
    else AddFile(FactsOf(whole, nodes[..|nodes| - 1]), nodes[|nodes| - 1].1)
  }

  /** Without any file node nothing proves a complete scan. */
  function WithFiles(c: Coverage, f: FileFacts): Coverage {
    c.(complete := f.complete && f.seen, languages := Some(f.languages))
  }

  function CoverageOf(g: ReviewGraph): Coverage {
    WithFiles(ExtractEdges(g, g.edges).coverage, FactsOf(g.persistedWhole, g.nodes))
  }

  /** A scan counts as complete exactly if the snapshot was whole, there are file nodes, and the
      extraction of each was complete. */
  lemma {:induction false} CompleteIff(whole: bool, nodes: Entries<string, Node>)
    ensures FactsOf(whole, nodes).complete
            <==> && whole
                 && forall i :: 0 <= i < |nodes| && nodes[i].1.kind == FileNode ==> StatusOf(nodes[i].1) == Complete
    ensures FactsOf(whole, nodes).seen <==> exists i :: 0 <= i < |nodes| && nodes[i].1.kind == FileNode
  {
    hide StatusOf;
    if nodes == [] {
    } else {
      var front, last := nodes[..|nodes| - 1], nodes[|nodes| - 1];
      CompleteIff(whole, front);
      assert nodes == front + [last];
      FileSnoc(front, last);
    }
  }

  lemma FileSnoc(front: Entries<string, Node>, last: (string, Node))
    ensures (exists i :: 0 <= i < |front + [last]| && (front + [last])[i].1.kind == FileNode)
            <==> last.1.kind == FileNode || exists i :: 0 <= i < |front| && front[i].1.kind == FileNode
  {
    var all := front + [last];
    assert all[|front|] == last;
    if i :| 0 <= i < |front| && front[i].1.kind == FileNode { assert all[i] == front[i]; }
  }

  // ---- the program ---------------------------------------------------------------

  lemma {:induction false} NodeSymbolsLookup(nodes: Entries<string, Node>, id: string)
    requires Unique(nodes)
    ensures Get(NodeSymbolsOf(nodes), id) == match Get(nodes, id) case Some(n) => SymbolOf(id, n) case None => None
  {
    hide SymbolOf;
    if nodes == [] {
    } else {
      var front, last := nodes[..|nodes| - 1], nodes[|nodes| - 1];
      NodeSymbolsLookup(front, id);
      assert nodes == front + [last];
      GetAppend(front, [last], id);
      HasIsGet(front, last.0);
      if SymbolOf(last.0, last.1).Some? { PutGet(NodeSymbolsOf(front), last.0, SymbolOf(last.0, last.1).value, id); }
    }
  }

  method ExtractSymbols(nodes: Entries<string, Node>)
    returns (allSymbols: SymbolTable, nodeSymbols: Entries<string, Symbol>)
    ensures allSymbols == SymbolsOf(nodes) && nodeSymbols == NodeSymbolsOf(nodes)
  {
    hide SymbolOf, Append;
    allSymbols, nodeSymbols := [], [];
    for i := 0 to |nodes|
      invariant allSymbols == SymbolsOf(nodes[..i]) && nodeSymbols == NodeSymbolsOf(nodes[..i])
    {
      TakeSnoc(nodes, i);
      var sym := SymbolOf(nodes[i].0, nodes[i].1);
      if sym.None? { continue; }
      nodeSymbols := Put(nodeSymbols, nodes[i].0, sym.value);
      allSymbols := Append(allSymbols, sym.value.filePath, sym.value);
    }
    assert nodes[..|nodes|] == nodes;
  }

  /** One edge: count it, and hand it on where it has a caller file. */
  method ExtractEdge(g: ReviewGraph, nodeSymbols: Entries<string, Symbol>, allRefs: RefTable, c: Coverage, e: GraphEdge)
    returns (refs: RefTable, coverage: Coverage)
    requires Unique(g.nodes) && nodeSymbols == NodeSymbolsOf(g.nodes)
    ensures Extract(refs, coverage) == ExtractOne(g, Extract(allRefs, c), e)
  {
    hide Append, RefOf, CallerFileOf, ResolutionOf, NodeSymbolsOf;
    NodeSymbolsLookup(g.nodes, e.to);
    refs, coverage := allRefs, c;
    if e.kind != CallsEdge && e.kind != ReferencesEdge { return; }
    coverage := CountEdge(coverage, e);
    var file := CallerFileOf(g, e);
    if !Truthy(file) {
      coverage := coverage.(unsupportedEvidence := coverage.unsupportedEvidence + 1);
      return;
    }
    refs := Append(refs, file.value, RefOf(g, e, file.value));
    var targetSymbol, resolution := Get(nodeSymbols, e.to), ResolutionOf(g, e);
    if ReferenceKindOf(e) == TypeReference {
      coverage := coverage.(typeOnlyEvidence := coverage.typeOnlyEvidence + 1);
    } else if ReferenceKindOf(e) != CallReference {
      coverage := coverage.(unsupportedEvidence := coverage.unsupportedEvidence + 1);
    } else if targetSymbol.None? || resolution == NameOnly || resolution == Unresolved {
      coverage := coverage.(unresolvedEvidence := coverage.unresolvedEvidence + 1);
    } else {
      coverage := coverage.(eligibleEvidence := coverage.eligibleEvidence + 1,
        resolvedEvidence := coverage.resolvedEvidence + 1);
    }
  }

  method ReadFileNodes(g: ReviewGraph, counted: Coverage) returns (coverage: Coverage)
    requires counted.complete == g.persistedWhole && counted.languages == Some([])
    ensures coverage == WithFiles(counted, FactsOf(g.persistedWhole, g.nodes))
  {
    var sawRelevantFileNode, complete := false, counted.complete;
    var languages: Entries<string, LanguageStatus> := [];
    for i := 0 to |g.nodes|
      invariant FileFacts(sawRelevantFileNode, complete, languages) == FactsOf(g.persistedWhole, g.nodes[..i])
    {
      TakeSnoc(g.nodes, i);
      var node := g.nodes[i].1;
      if node.kind != FileNode { continue; }
      sawRelevantFileNode := true;
      var languageStatus := StatusOf(node);
      if languageStatus != Complete { complete := false; }
      if node.language != "" {
        languages := Put(languages, node.language, Worst(Get(languages, node.language), languageStatus));
      }
    }
    assert g.nodes[..|g.nodes|] == g.nodes;
    if !sawRelevantFileNode { complete := false; }
    coverage := counted.(complete := complete, languages := Some(languages));
  }

  lemma {:induction false} EdgesKeepMetadata(g: ReviewGraph, edges: seq<GraphEdge>)
    ensures ExtractEdges(g, edges).coverage.complete == g.persistedWhole
    ensures ExtractEdges(g, edges).coverage.languages == Some([])
  {
    hide CallerFileOf, RefOf, Append, Resolves;
    if edges == [] {
    } else {
      EdgesKeepMetadata(g, edges[..|edges| - 1]);
    }
  }

  method ExtractSymbolsAndRefsFromGraph(g: ReviewGraph)
    returns (allSymbols: SymbolTable, allRefs: RefTable, coverage: Coverage)
    requires Unique(g.nodes)
    ensures allSymbols == SymbolsOf(g.nodes) && allRefs == ExtractEdges(g, g.edges).refs && coverage == CoverageOf(g)
  {
    hide ExtractOne, SymbolsOf, NodeSymbolsOf, FactsOf;
    var nodeSymbols;
    allSymbols, nodeSymbols := ExtractSymbols(g.nodes);
    allRefs, coverage := [], EmptyCoverage().(complete := g.persistedWhole, languages := Some([]));
    for i := 0 to |g.edges|
      invariant Extract(allRefs, coverage) == ExtractEdges(g, g.edges[..i])
    {
      TakeSnoc(g.edges, i);
      allRefs, coverage := ExtractEdge(g, nodeSymbols, allRefs, coverage, g.edges[i]);
    }
    assert g.edges[..|g.edges|] == g.edges;
    EdgesKeepMetadata(g, g.edges);
    coverage := ReadFileNodes(g, coverage);
  }
}
