/** When the session's call graph claims to be complete, read off the nodes and records of the
    review graph (clients/review-graph/builder.ts:6229-6285, clients/call-graph.ts:661-671). */
module CallGraphCompleteness {
  import opened JsMap
  import opened CallGraphTypes
  import opened CallGraphIndex
  import opened CallGraphBuild
  import opened CallGraphIndexes
  import opened CallGraphRoundTrip
  import opened ReviewGraphExtract
  import opened CallGraphAdapter
  import opened CallGraphSession
  import opened CallGraphSources

  // ---- what the file nodes say ---------------------------------------------------

  predicate SaysUnavailable(n: Node) {
    || n.extraction.None? || n.extraction.value == []
    || exists i :: 0 <= i < |n.extraction.value| && n.extraction.value[i] == Some(Unavailable)
  }

  predicate SaysPartial(n: Node) {
    n.extraction.Some? && exists i :: 0 <= i < |n.extraction.value| && n.extraction.value[i] == Some(Partial)
  }

  lemma StatusIs(n: Node)
    ensures StatusOf(n) == if SaysUnavailable(n) then Unavailable else if SaysPartial(n) then Partial else Complete
  {}

  predicate IsFileOf(n: Node, language: string) { n.kind == FileNode && n.language == language && language != "" }

  predicate SomeFile(nodes: Entries<string, Node>, language: string) {
    exists i :: 0 <= i < |nodes| && IsFileOf(nodes[i].1, language)
  }

  predicate SomeUnavailable(nodes: Entries<string, Node>, language: string) {
    exists i :: 0 <= i < |nodes| && IsFileOf(nodes[i].1, language) && SaysUnavailable(nodes[i].1)
  }

  predicate SomePartial(nodes: Entries<string, Node>, language: string) {
    exists i :: 0 <= i < |nodes| && IsFileOf(nodes[i].1, language) && SaysPartial(nodes[i].1)
  }

  lemma SomeSnoc(front: Entries<string, Node>, last: (string, Node), language: string)
    ensures var nodes := front + [last];
            && (SomeFile(nodes, language) <==> SomeFile(front, language) || IsFileOf(last.1, language))
            && (SomeUnavailable(nodes, language) <==>
                  SomeUnavailable(front, language) || (IsFileOf(last.1, language) && SaysUnavailable(last.1)))
            && (SomePartial(nodes, language) <==>
                  SomePartial(front, language) || (IsFileOf(last.1, language) && SaysPartial(last.1)))
  {
    hide IsFileOf, SaysUnavailable, SaysPartial;
    var nodes := front + [last];
    assert nodes[|front|] == last && forall i :: 0 <= i < |front| ==> nodes[i] == front[i];
  }

  /** A language has the worst status of its files: unavailable, else partial, else complete. */
  lemma {:induction false} LanguageIsWorst(whole: bool, nodes: Entries<string, Node>, language: string)
    ensures Get(FactsOf(whole, nodes).languages, language)
            == if !SomeFile(nodes, language) then None
               else Some(if SomeUnavailable(nodes, language) then Unavailable
                         else if SomePartial(nodes, language) then Partial else Complete)
  {
    hide SomeFile, SomeUnavailable, SomePartial, StatusOf, SaysUnavailable, SaysPartial;
    if nodes == [] {
      NoFiles(language);
    } else {
      var front, last := nodes[..|nodes| - 1], nodes[|nodes| - 1];
      assert nodes == front + [last];
      LanguageIsWorst(whole, front, language);
      SomeSnoc(front, last, language);
      StatusIs(last.1);
      NothingUnlessFile(front, language);
      var ls, l := FactsOf(whole, front).languages, last.1.language;
      if last.1.kind == FileNode && l != "" { PutGet(ls, l, Worst(Get(ls, l), StatusOf(last.1)), language); }
    }
  }

  lemma NoFiles(language: string)
    ensures !SomeFile([], language) && !SomeUnavailable([], language) && !SomePartial([], language)
  {}

  lemma NothingUnlessFile(nodes: Entries<string, Node>, language: string)
    ensures SomeUnavailable(nodes, language) || SomePartial(nodes, language) ==> SomeFile(nodes, language)
  {
    hide SaysUnavailable, SaysPartial;
  }

  // ---- what the records say ------------------------------------------------------

  /** The record comes from some file, and is a call or a reference to a type. */
  ghost predicate Supported(g: ReviewGraph, e: GraphEdge) {
    e.kind != OtherEdge ==>
      (exists file :: CallsFrom(g, e, file)) && (IsCall(e) || e.referenceKind == Some(TypeReference))
  }

  ghost predicate AllSupported(g: ReviewGraph, edges: seq<GraphEdge>) {
    forall i :: 0 <= i < |edges| ==> Supported(g, edges[i])
  }

  predicate AnyRecord(edges: seq<GraphEdge>) { exists i :: 0 <= i < |edges| && edges[i].kind != OtherEdge }

  lemma SupportedIs(g: ReviewGraph, e: GraphEdge)
    requires e.kind != OtherEdge
    ensures Supported(g, e) <==> Truthy(CallerFileOf(g, e)) && ReferenceKindOf(e) != UnknownReference
  {
    hide CallerFileOf;
    forall file ensures CallsFrom(g, e, file) <==> Truthy(CallerFileOf(g, e)) && CallerFileOf(g, e).value == file {
      RecordOrigin(g, e, file);
    }
    if Truthy(CallerFileOf(g, e)) { assert CallsFrom(g, e, CallerFileOf(g, e).value); }
  }

  lemma RecordsSnoc(g: ReviewGraph, front: seq<GraphEdge>, e: GraphEdge)
    ensures AllSupported(g, front + [e]) <==> AllSupported(g, front) && Supported(g, e)
    ensures AnyRecord(front + [e]) <==> AnyRecord(front) || e.kind != OtherEdge
  {
    hide Supported;
    var edges := front + [e];
    assert edges[|front|] == e && forall i :: 0 <= i < |front| ==> edges[i] == front[i];
  }

  lemma {:induction false} UnsupportedIff(g: ReviewGraph, edges: seq<GraphEdge>)
    ensures var c := ExtractEdges(g, edges).coverage;
            && c.unsupportedEvidence >= 0 && (c.unsupportedEvidence == 0 <==> AllSupported(g, edges))
            && c.totalEvidence >= 0 && (c.totalEvidence > 0 <==> AnyRecord(edges))
  {
    hide AllSupported, AnyRecord, CallerFileOf, RefOf, Append, Resolves, Supported;
    if edges == [] {
      NoRecords(g);
    } else {
      var front, e := edges[..|edges| - 1], edges[|edges| - 1];
      assert edges == front + [e];
      UnsupportedIff(g, front);
      RecordsSnoc(g, front, e);
      if e.kind != OtherEdge { SupportedIs(g, e); } else { OtherIsSupported(g, e); }
    }
  }

  lemma OtherIsSupported(g: ReviewGraph, e: GraphEdge)
    requires e.kind == OtherEdge
    ensures Supported(g, e)
  {}

  lemma NoRecords(g: ReviewGraph)
    ensures AllSupported(g, []) && !AnyRecord([])
  {}

  // ---- the claim -----------------------------------------------------------------

  predicate FullyRead(n: Node) { !SaysUnavailable(n) && !SaysPartial(n) }

  predicate AllRead(nodes: Entries<string, Node>) {
    forall i :: 0 <= i < |nodes| && nodes[i].1.kind == FileNode ==> FullyRead(nodes[i].1)
  }

  lemma {:induction false} ReadLanguagesComplete(whole: bool, nodes: Entries<string, Node>)
    requires AllRead(nodes)
    ensures forall i :: 0 <= i < |FactsOf(whole, nodes).languages| ==> FactsOf(whole, nodes).languages[i].1 == Complete
  {
    hide StatusOf, SaysUnavailable, SaysPartial;
    if nodes == [] {
    } else {
      var front, last := nodes[..|nodes| - 1], nodes[|nodes| - 1].1;
      assert nodes == front + [nodes[|nodes| - 1]];
      ReadLanguagesComplete(whole, front);
      StatusIs(last);
      var ls := FactsOf(whole, front).languages;
      if last.kind == FileNode && last.language != "" {
        if Get(ls, last.language).Some? {
          var i := PutFirst(ls, last.language, Worst(Get(ls, last.language), StatusOf(last)));
        } else {
          PutNew(ls, last.language, Worst(None, StatusOf(last)));
        }
      }
    }
  }

  predicate AnySymbol(nodes: Entries<string, Node>) { exists i :: 0 <= i < |nodes| && IsSymbol(nodes[i].1) }

  lemma {:induction false} SymbolsOfAny(nodes: Entries<string, Node>)
    ensures |SymbolsOf(nodes)| > 0 <==> AnySymbol(nodes)
  {
    hide IsSymbol, SymbolOf;
    if nodes == [] {
    } else {
      var front, last := nodes[..|nodes| - 1], nodes[|nodes| - 1];
      SymbolsOfAny(front);
      assert nodes == front + [last] && forall i :: 0 <= i < |front| ==> nodes[i] == front[i];
      IsSymbolIff(last.0, last.1);
      var sym, table := SymbolOf(last.0, last.1), SymbolsOf(front);
      if sym.Some? {
        var key := sym.value.filePath;
        PutShape(table, key, OrElse(Get(table, key), []) + [sym.value]);
      }
    }
  }

  lemma IsSymbolIff(id: string, n: Node)
    ensures IsSymbol(n) <==> SymbolOf(id, n).Some?
  {}

  predicate AnyFile(nodes: Entries<string, Node>) { exists i :: 0 <= i < |nodes| && nodes[i].1.kind == FileNode }

  /** The session's graph claims to be complete exactly if the snapshot was whole, there are file
      nodes and each was read completely, every record is supported, and there is a symbol or a
      record at all. */
  lemma SessionCompleteIff(norm: string -> string, stdlib: set<string>, g: ReviewGraph, builtAt: string)
    requires SoundGraph(norm, g)
    ensures var session := SessionGraph(norm, stdlib, g, builtAt);
            && session.coverage.Some?
            && (session.coverage.value.complete <==>
                  && g.persistedWhole && AnyFile(g.nodes) && AllRead(g.nodes) && AllSupported(g, g.edges)
                  && (AnySymbol(g.nodes) || AnyRecord(g.edges)))
  {
    hide Run, Items, SymbolsOf, ContextFor, SoundGraph, AllSupported, AnyRecord, AnySymbol, AnyFile, ExtractEdges,
      FactsOf, FullyRead, CanonicalSymbols;
    var ctx, x := ContextFor(norm, stdlib, SymbolsOf(g.nodes)), ExtractEdges(g, g.edges);
    ContextIndexed(norm, stdlib, SymbolsOf(g.nodes));
    SuppliedRun(ctx, CoverageOf(g), Items(x.refs));
    UnsupportedIff(g, g.edges);
    SymbolsOfAny(g.nodes);
    ReadIff(g.persistedWhole, g.nodes);
    if AllRead(g.nodes) { ReadLanguagesComplete(g.persistedWhole, g.nodes); }
  }

  lemma ReadIff(whole: bool, nodes: Entries<string, Node>)
    ensures FactsOf(whole, nodes).complete <==> whole && AllRead(nodes)
    ensures FactsOf(whole, nodes).seen <==> AnyFile(nodes)
  {
    hide FactsOf, StatusOf, SaysUnavailable, SaysPartial;
    CompleteIff(whole, nodes);
    forall i | 0 <= i < |nodes| ensures StatusOf(nodes[i].1) == Complete <==> FullyRead(nodes[i].1) {
      StatusIs(nodes[i].1);
    }
  }
}
