/** The session's call graph read off the review graph itself: which of its records make which
    edge, who the caller is, and what the edge says (clients/review-graph/builder.ts:6150-6227,
    clients/call-graph.ts:489-655). */
module CallGraphSources {
  import opened JsMap
  import opened Text
  import opened CallGraphTypes
  import opened CallGraphIndex
  import opened CallGraphBuild
  import opened CallGraphIndexes
  import opened CallGraphEvidence
  import opened CallGraphLedger
  import opened CallGraphPairs
  import opened CallGraphPersist
  import opened CallGraphRoundTrip
  import opened ReviewGraphExtract
  import opened CallGraphAdapter
  import opened CallGraphSession

  // ---- the records ---------------------------------------------------------------

  /** A call, or a reference that is tagged as one. */
  predicate IsCall(e: GraphEdge) {
    e.kind == CallsEdge || (e.kind == ReferencesEdge && e.referenceKind == Some(CallReference))
  }

  /** A symbol node with a file and a name. */
  predicate IsSymbol(n: Node) {
    && n.kind == SymbolNode && n.filePath.Some? && n.filePath.value != ""
    && n.symbolName.Some? && n.symbolName.value != ""
  }

  predicate SymbolAt(g: ReviewGraph, id: string) { Get(g.nodes, id).Some? && IsSymbol(Get(g.nodes, id).value) }

  /** The record names its target for sure: by its own resolution, or because the target's name
      was resolved. */
  predicate Settled(g: ReviewGraph, e: GraphEdge) {
    match e.resolution
    case Some(r) => r != NameOnly && r != Unresolved
    case None => Get(g.nodes, e.to).Some? && !Get(g.nodes, e.to).value.unresolvedName
  }

  /** The file the record comes from: that of its symbol or file node, or the one its key names. */
  predicate CallsFrom(g: ReviewGraph, e: GraphEdge, file: string) {
    && file != ""
    && match Get(g.nodes, e.from)
       case Some(n) => if n.kind == OtherNode then e.from == "file:" + file else n.filePath == Some(file)
       case None => e.from == "file:" + file
  }

  /** A call to a symbol of another file. */
  predicate CrossCall(norm: string -> string, g: ReviewGraph, e: GraphEdge, file: string) {
    && IsCall(e) && SymbolAt(g, e.to) && Settled(g, e) && CallsFrom(g, e, file)
    && norm(Get(g.nodes, e.to).value.filePath.value) != norm(file)
  }

  // ---- who calls -----------------------------------------------------------------

  function StartOf(n: Node): int { if n.line.Some? then n.line.value else 1 }

  /** The line of the record, else that of the node it comes from, else the first. */
  function LineOf(g: ReviewGraph, e: GraphEdge): int {
    if e.line.Some? then e.line.value
    else match Get(g.nodes, e.from) case Some(n) => StartOf(n) case None => 1
  }

  /** A function or method of the file around the line; a kind that is not known counts as one. */
  predicate Around(norm: string -> string, n: Node, file: string, line: int) {
    && IsSymbol(n) && norm(n.filePath.value) == norm(file)
    && (n.symbolKind.None? || n.symbolKind.value !in {"class", "interface", "type", "variable", "property"})
    && StartOf(n) <= line && (n.endLine.None? || line <= n.endLine.value)
  }

  /** The innermost of them: it starts last, and is the first node among those that do. */
  ghost predicate Innermost(norm: string -> string, nodes: Entries<string, Node>, file: string, line: int, i: nat) {
    && i < |nodes| && Around(norm, nodes[i].1, file, line)
    && forall j :: 0 <= j < |nodes| && Around(norm, nodes[j].1, file, line) ==>
         StartOf(nodes[j].1) < StartOf(nodes[i].1) || (StartOf(nodes[j].1) == StartOf(nodes[i].1) && i <= j)
  }

  ghost predicate NothingAround(norm: string -> string, nodes: Entries<string, Node>, file: string, line: int) {
    forall j :: 0 <= j < |nodes| ==> !Around(norm, nodes[j].1, file, line)
  }

  /** The caller of a record: the symbol it comes from; without one, the innermost function around
      its line; without that, the file. */
  ghost predicate CallerIs(norm: string -> string, g: ReviewGraph, e: GraphEdge, file: string, key: string) {
    if SymbolAt(g, e.from) then key == e.from
    else if NothingAround(norm, g.nodes, file, LineOf(g, e)) then key == "file:" + file
    else exists i: nat :: Innermost(norm, g.nodes, file, LineOf(g, e), i) && key == g.nodes[i].0
  }

  /** The record is evidence for a call of `b` by `a`. */
  ghost predicate EdgeFor(norm: string -> string, g: ReviewGraph, e: GraphEdge, a: string, b: string) {
    e.to == b && exists file :: CrossCall(norm, g, e, file) && CallerIs(norm, g, e, file, a)
  }

  // ---- the innermost function, in node order -------------------------------------

  /** The symbols of one file, in node order. */
  function FileSymbols(nodes: Entries<string, Node>, file: string): seq<Symbol> {
    if nodes == [] then []
    else
      var front, last := FileSymbols(nodes[..|nodes| - 1], file), nodes[|nodes| - 1];
      var sym := SymbolOf(last.0, last.1);
      if sym.Some? && sym.value.filePath == file then front + [sym.value] else front
  }

  lemma {:induction false} TableHasFile(nodes: Entries<string, Node>, file: string)
    ensures OrElse(Get(SymbolsOf(nodes), file), []) == FileSymbols(nodes, file)
  {
    hide SymbolOf;
    if nodes == [] {
    } else {
      var front, last := nodes[..|nodes| - 1], nodes[|nodes| - 1];
      TableHasFile(front, file);
      var sym := SymbolOf(last.0, last.1);
      if sym.Some? {
        var key := sym.value.filePath;
        PutGet(SymbolsOf(front), key, OrElse(Get(SymbolsOf(front), key), []) + [sym.value], file);
      }
    }
  }

  /** A node of the file, as the builder sees it. */
  lemma AroundIsEnclosing(norm: string -> string, id: string, n: Node, file: string, line: int)
    ensures Around(norm, n, file, line) <==>
            var s := SymbolOf(id, n); s.Some? && norm(s.value.filePath) == norm(file) && Encloses(s.value, line)
    ensures SymbolOf(id, n).Some? ==> SymbolOf(id, n).value.line == StartOf(n) && SymbolOf(id, n).value.id == id
  {}

  /** The symbol of a node encloses the line, in exactly this file. */
  predicate Wraps(node: (string, Node), file: string, line: int) {
    var s := SymbolOf(node.0, node.1);
    s.Some? && s.value.filePath == file && Encloses(s.value, line)
  }

  /** The first of the nodes that wrap the line starting last. */
  ghost predicate Tightest(nodes: Entries<string, Node>, file: string, line: int, i: nat) {
    && i < |nodes| && Wraps(nodes[i], file, line)
    && forall j :: 0 <= j < |nodes| && Wraps(nodes[j], file, line) ==>
         StartOf(nodes[j].1) < StartOf(nodes[i].1) || (StartOf(nodes[j].1) == StartOf(nodes[i].1) && i <= j)
  }

  lemma TightestSnoc(front: Entries<string, Node>, last: (string, Node), file: string, line: int, i: nat)
    requires Tightest(front, file, line, i)
    ensures Wraps(last, file, line) && StartOf(last.1) > StartOf(front[i].1) ==>
              Tightest(front + [last], file, line, |front|)
    ensures !(Wraps(last, file, line) && StartOf(last.1) > StartOf(front[i].1)) ==>
              Tightest(front + [last], file, line, i)
  {
    hide Wraps, StartOf;
    var all := front + [last];
    assert all[|front|] == last && forall j :: 0 <= j < |front| ==> all[j] == front[j];
  }

  lemma WrapsSnoc(front: Entries<string, Node>, last: (string, Node), file: string, line: int)
    requires forall j :: 0 <= j < |front| ==> !Wraps(front[j], file, line)
    ensures Wraps(last, file, line) ==> Tightest(front + [last], file, line, |front|)
    ensures !Wraps(last, file, line) ==>
              forall j :: 0 <= j < |front + [last]| ==> !Wraps((front + [last])[j], file, line)
  {
    hide Wraps, StartOf;
    var all := front + [last];
    assert all[|front|] == last && forall j :: 0 <= j < |front| ==> all[j] == front[j];
  }

  lemma SymbolStart(id: string, n: Node)
    ensures SymbolOf(id, n).Some? ==> SymbolOf(id, n).value.line == StartOf(n) && SymbolOf(id, n).value.id == id
  {}

  /** The scan over the symbols of a file finds the tightest node. */
  lemma {:induction false} EnclosingIsTightest(nodes: Entries<string, Node>, file: string, line: int)
    ensures match Enclosing(FileSymbols(nodes, file), line)
            case None => forall j :: 0 <= j < |nodes| ==> !Wraps(nodes[j], file, line)
            case Some(s) =>
              exists i: nat :: Tightest(nodes, file, line, i) && SymbolOf(nodes[i].0, nodes[i].1) == Some(s)
  {
    hide SymbolOf, Encloses, StartOf;
    if nodes == [] {
    } else {
      var front, last := nodes[..|nodes| - 1], nodes[|nodes| - 1];
      assert nodes == front + [last];
      EnclosingIsTightest(front, file, line);
      SymbolStart(last.0, last.1);
      ScanSnoc(front, last, file, line);
      match Enclosing(FileSymbols(front, file), line) {
        case None => WrapsSnoc(front, last, file, line);
        case Some(s) =>
          var i: nat :| Tightest(front, file, line, i) && SymbolOf(front[i].0, front[i].1) == Some(s);
          SymbolStart(front[i].0, front[i].1);
          TightestSnoc(front, last, file, line, i);
          assert nodes[i] == front[i];
      }
    }
  }

  lemma ScanSnoc(front: Entries<string, Node>, last: (string, Node), file: string, line: int)
    ensures var best, sym := Enclosing(FileSymbols(front, file), line), SymbolOf(last.0, last.1);
            Enclosing(FileSymbols(front + [last], file), line)
            == if Wraps(last, file, line) && (best.None? || sym.value.line > best.value.line) then sym else best
  {
    hide SymbolOf, Encloses;
    var nodes := front + [last];
    assert nodes[..|front|] == front;
    var sym := SymbolOf(last.0, last.1);
    if sym.Some? && sym.value.filePath == file {
      var symbols := FileSymbols(front, file);
      assert (symbols + [sym.value])[..|symbols|] == symbols;
    }
  }

  // ---- the builder's list of a file ----------------------------------------------

  lemma {:induction false} CanonicalUnique(norm: string -> string, table: SymbolTable)
    ensures Unique(CanonicalSymbols(norm, table))
  {
    if table == [] {
    } else {
      var front, last := table[..|table| - 1], table[|table| - 1];
      CanonicalUnique(norm, front);
      PutShape(CanonicalSymbols(norm, front), norm(last.0), last.1);
    }
  }

  /** All symbols whose file has this key spell it alike. */
  ghost predicate Spells(norm: string -> string, nodes: Entries<string, Node>, file: string, spelling: string) {
    forall sym :: IsNodeSymbol(nodes, sym) ==> (norm(sym.filePath) == norm(file) <==> sym.filePath == spelling)
  }

  function CanonicalList(norm: string -> string, stdlib: set<string>, g: ReviewGraph, file: string): seq<Symbol> {
    OrElse(Get(ContextFor(norm, stdlib, SymbolsOf(g.nodes)).canonical, norm(file)), [])
  }

  lemma {:induction false} NoSymbolsOf(nodes: Entries<string, Node>, file: string)
    requires forall sym :: IsNodeSymbol(nodes, sym) ==> sym.filePath != file
    ensures FileSymbols(nodes, file) == []
  {
    hide IsNodeSymbol, SymbolOf;
    if nodes == [] {
    } else {
      var front, last := nodes[..|nodes| - 1], nodes[|nodes| - 1];
      assert nodes == front + [last];
      forall sym | IsNodeSymbol(front, sym) ensures sym.filePath != file { NodeSymbolSnoc(front, last, sym); }
      NoSymbolsOf(front, file);
      var own := SymbolOf(last.0, last.1);
      if own.Some? { NodeSymbolSnoc(front, last, own.value); }
    }
  }

  lemma {:induction false} SomeSymbolOf(nodes: Entries<string, Node>, sym: Symbol)
    requires IsNodeSymbol(nodes, sym)
    ensures FileSymbols(nodes, sym.filePath) != []
  {
    hide IsNodeSymbol, SymbolOf;
    if nodes == [] {
      NoNodes(sym);
    } else {
      var front, last := nodes[..|nodes| - 1], nodes[|nodes| - 1];
      assert nodes == front + [last];
      NodeSymbolSnoc(front, last, sym);
      if IsNodeSymbol(front, sym) { SomeSymbolOf(front, sym); }
    }
  }

  lemma ListOfKnownFile(norm: string -> string, stdlib: set<string>, g: ReviewGraph, sym: Symbol)
    requires SoundGraph(norm, g) && IsNodeSymbol(g.nodes, sym)
    ensures CanonicalList(norm, stdlib, g, sym.filePath) == FileSymbols(g.nodes, sym.filePath)
  {
    hide IsNodeSymbol, SymbolsOf, CanonicalSymbols, SoundGraph, FileSymbols;
    var table := SymbolsOf(g.nodes);
    TableHasFile(g.nodes, sym.filePath);
    SomeSymbolOf(g.nodes, sym);
    CanonicalUnique(norm, table);
    ExtractedContext(norm, stdlib, g);
    var i := GetIndex(table, sym.filePath);
    GetAt(ContextFor(norm, stdlib, table).canonical, i);
  }

  lemma ListOfUnknownFile(norm: string -> string, stdlib: set<string>, g: ReviewGraph, file: string)
    requires SoundGraph(norm, g) && forall sym :: IsNodeSymbol(g.nodes, sym) ==> norm(sym.filePath) != norm(file)
    ensures CanonicalList(norm, stdlib, g, file) == []
  {
    hide IsNodeSymbol, SymbolsOf, CanonicalSymbols, SoundGraph;
    var table := SymbolsOf(g.nodes);
    ExtractedByFile(g.nodes);
    ExtractedContext(norm, stdlib, g);
    var canonical := ContextFor(norm, stdlib, table).canonical;
    forall i | 0 <= i < |canonical| ensures canonical[i].0 != norm(file) {
      assert ListFits(g.nodes, table[i]);
      var sym :| IsNodeSymbol(g.nodes, sym) && sym.filePath == table[i].0;
    }
    KeyIsNew(canonical, norm(file));
  }

  /** The builder looks for the caller among the symbols of the record's file, in node order. */
  lemma ListIsFileSymbols(norm: string -> string, stdlib: set<string>, g: ReviewGraph, file: string)
    returns (spelling: string)
    requires SoundGraph(norm, g)
    ensures CanonicalList(norm, stdlib, g, file) == FileSymbols(g.nodes, spelling)
    ensures Spells(norm, g.nodes, file, spelling)
  {
    hide IsNodeSymbol, CanonicalList, FileSymbols;
    if sym :| IsNodeSymbol(g.nodes, sym) && norm(sym.filePath) == norm(file) {
      spelling := sym.filePath;
      ListOfKnownFile(norm, stdlib, g, sym);
      SameKeySameList(norm, stdlib, g, file, spelling);
    } else {
      spelling := file;
      ListOfUnknownFile(norm, stdlib, g, file);
      NoSymbolsOf(g.nodes, file);
    }
  }

  lemma SameKeySameList(norm: string -> string, stdlib: set<string>, g: ReviewGraph, a: string, b: string)
    requires norm(a) == norm(b)
    ensures CanonicalList(norm, stdlib, g, a) == CanonicalList(norm, stdlib, g, b)
  {}

  lemma WrapsIsAround(norm: string -> string, nodes: Entries<string, Node>, file: string, spelling: string, line: int,
                      i: nat)
    requires Spells(norm, nodes, file, spelling) && i < |nodes|
    ensures Wraps(nodes[i], spelling, line) <==> Around(norm, nodes[i].1, file, line)
  {
    AroundIsEnclosing(norm, nodes[i].0, nodes[i].1, file, line);
    var s := SymbolOf(nodes[i].0, nodes[i].1);
    if s.Some? { assert IsNodeSymbol(nodes, s.value); }
  }

  /** The search for an enclosing symbol finds the innermost function around the line. */
  lemma EnclosingIsInnermostNode(norm: string -> string, stdlib: set<string>, g: ReviewGraph, file: string, line: int)
    requires SoundGraph(norm, g)
    ensures match Enclosing(CanonicalList(norm, stdlib, g, file), line)
            case None => NothingAround(norm, g.nodes, file, line)
            case Some(s) =>
              exists i: nat :: && i < |g.nodes| && Innermost(norm, g.nodes, file, line, i) && s.id == g.nodes[i].0
                               && SymbolOf(g.nodes[i].0, g.nodes[i].1) == Some(s)
  {
    hide IsNodeSymbol, CanonicalList, FileSymbols, SoundGraph, Spells, Wraps, Around, StartOf, SymbolOf;
    var spelling := ListIsFileSymbols(norm, stdlib, g, file);
    var nodes := g.nodes;
    EnclosingIsTightest(nodes, spelling, line);
    forall j: nat | j < |nodes| ensures Wraps(nodes[j], spelling, line) <==> Around(norm, nodes[j].1, file, line) {
      WrapsIsAround(norm, nodes, file, spelling, line, j);
    }
    match Enclosing(CanonicalList(norm, stdlib, g, file), line) {
      case None =>
      case Some(s) =>
        var i: nat :| Tightest(nodes, spelling, line, i) && SymbolOf(nodes[i].0, nodes[i].1) == Some(s);
        SymbolStart(nodes[i].0, nodes[i].1);
        assert Innermost(norm, nodes, file, line, i);
    }
  }

  lemma InnermostUnique(norm: string -> string, nodes: Entries<string, Node>, file: string, line: int, i: nat, j: nat)
    requires Innermost(norm, nodes, file, line, i) && Innermost(norm, nodes, file, line, j)
    ensures i == j
  {}

  // ---- one record, one reference -------------------------------------------------

  lemma SymbolAtIs(g: ReviewGraph, id: string)
    ensures SymbolAt(g, id) <==> NodeSymbol(g, id).Some?
    ensures SymbolAt(g, id) ==> && NodeSymbol(g, id).value.id == id
                                && NodeSymbol(g, id).value.filePath == Get(g.nodes, id).value.filePath.value
                                && NodeSymbol(g, id).value.name == Get(g.nodes, id).value.symbolName.value
  {}

  /** The reference is tagged as a call of a settled target. */
  lemma RecordIsCall(ctx: Context, g: ReviewGraph, e: GraphEdge, file: string)
    requires FitsNodes(ctx, g) && e.kind != OtherEdge && e.to != ""
    ensures var v := Classify(ctx, Item(file, RefOf(g, e, file)));
            && (v.Candidates? <==> IsCall(e) && SymbolAt(g, e.to) && Settled(g, e))
            && (v.Candidates? ==> v.callees == [NodeSymbol(g, e.to).value])
  {
    hide NodeSymbol, TargetNameOf;
    SymbolAtIs(g, e.to);
    assert Get(ctx.index.byId, e.to) == NodeSymbol(g, e.to);
  }

  lemma RecordOrigin(g: ReviewGraph, e: GraphEdge, file: string)
    ensures CallsFrom(g, e, file) <==> Truthy(CallerFileOf(g, e)) && CallerFileOf(g, e).value == file
  {
    if CallsFrom(g, e, file) && StartsWith(e.from, "file:") { assert "file:" + e.from[5..] == e.from; }
    assert ("file:" + file)[5..] == file;
  }

  lemma RecordLine(g: ReviewGraph, e: GraphEdge, file: string)
    ensures RefOf(g, e, file).line == LineOf(g, e)
  {
    hide TargetNameOf, ResolutionOf;
  }

  lemma RecordNamesCaller(ctx: Context, g: ReviewGraph, e: GraphEdge, file: string)
    requires FitsNodes(ctx, g) && (NodeSymbol(g, e.from).Some? ==> e.from != "")
    ensures var ref := RefOf(g, e, file);
            (if Truthy(ref.callerSymbolId) then Get(ctx.index.byId, ref.callerSymbolId.value) else None)
            == NodeSymbol(g, e.from)
  {
    hide TargetNameOf, ResolutionOf;
    assert Get(ctx.index.byId, e.from) == NodeSymbol(g, e.from);
  }

  /** The caller the builder settles on. */
  lemma RecordCaller(norm: string -> string, stdlib: set<string>, g: ReviewGraph, ctx: Context, e: GraphEdge,
                     file: string, key: string)
    requires SoundGraph(norm, g) && ctx == ContextFor(norm, stdlib, SymbolsOf(g.nodes)) && FitsNodes(ctx, g)
    ensures var item := Item(file, RefOf(g, e, file));
            key == CallerKey(file, CallerOf(ctx, item)) <==> CallerIs(norm, g, e, file, key)
  {
    hide SymbolsOf, CanonicalSymbols, IsNodeSymbol, NodeSymbol, Around, LineOf, RefOf, SymbolAt, FitsNodes;
    SymbolAtIs(g, e.from);
    NodeSymbolIs(g, e.from);
    RecordNamesCaller(ctx, g, e, file);
    RecordLine(g, e, file);
    if !SymbolAt(g, e.from) {
      EnclosingIsInnermostNode(norm, stdlib, g, file, LineOf(g, e));
      match Enclosing(CanonicalList(norm, stdlib, g, file), LineOf(g, e)) {
        case None =>
        case Some(s) =>
          var i: nat :| && Innermost(norm, g.nodes, file, LineOf(g, e), i) && s.id == g.nodes[i].0
                        && SymbolOf(g.nodes[i].0, g.nodes[i].1) == Some(s);
          assert !NothingAround(norm, g.nodes, file, LineOf(g, e));
          forall j: nat | Innermost(norm, g.nodes, file, LineOf(g, e), j) ensures i == j {
            InnermostUnique(norm, g.nodes, file, LineOf(g, e), i, j);
          }
      }
    }
  }

  /** The builder's reference of a record reaches exactly the pairs the record is evidence for. */
  lemma RecordReaches(norm: string -> string, stdlib: set<string>, g: ReviewGraph, ctx: Context, e: GraphEdge,
                      file: string, p: Pair)
    requires SoundGraph(norm, g) && ctx == ContextFor(norm, stdlib, SymbolsOf(g.nodes)) && FitsNodes(ctx, g)
    requires e.kind != OtherEdge && e.to != "" && CallsFrom(g, e, file)
    ensures Reaches(ctx, Item(file, RefOf(g, e, file)), p) <==> EdgeFor(norm, g, e, p.0, p.1)
  {
    hide SymbolsOf, CanonicalSymbols, SoundGraph, NodeSymbol, Classify, CallerOf, CallerIs, SymbolAt, Settled, RefOf,
      FitsNodes, CallsFrom;
    assert ctx.norm == norm;
    var item := Item(file, RefOf(g, e, file));
    RecordIsCall(ctx, g, e, file);
    RecordCaller(norm, stdlib, g, ctx, e, file, p.0);
    SymbolAtIs(g, e.to);
    forall f | CallsFrom(g, e, f) ensures f == file {
      RecordOrigin(g, e, f);
      RecordOrigin(g, e, file);
    }
    if Classify(ctx, item).Candidates? { assert Classify(ctx, item).callees[0].id == e.to; }
  }

  /** A record without a caller file is evidence for nothing. */
  lemma UntrackedIsNone(norm: string -> string, g: ReviewGraph, e: GraphEdge, a: string, b: string)
    requires e.kind == OtherEdge || !Truthy(CallerFileOf(g, e))
    ensures !EdgeFor(norm, g, e, a, b)
  {
    hide CallerFileOf, CallerIs, Settled, SymbolAt;
    forall file ensures !CrossCall(norm, g, e, file) { RecordOrigin(g, e, file); }
  }

  // ---- all records ---------------------------------------------------------------

  /** How many of the records are evidence for the pair. */
  ghost function Records(norm: string -> string, g: ReviewGraph, edges: seq<GraphEdge>, a: string, b: string): nat {
    if edges == [] then 0
    else
      Records(norm, g, edges[..|edges| - 1], a, b) + if EdgeFor(norm, g, edges[|edges| - 1], a, b) then 1 else 0
  }

  /** Every record that is evidence for the pair has this kind. */
  ghost predicate AllOf(norm: string -> string, g: ReviewGraph, edges: seq<GraphEdge>, a: string, b: string,
                        kind: EdgeKind)
  {
    forall i :: 0 <= i < |edges| && EdgeFor(norm, g, edges[i], a, b) ==> edges[i].kind == kind
  }

  lemma {:induction false} ReachCountAppend(ctx: Context, a: seq<Item>, b: seq<Item>, p: Pair)
    ensures ReachCount(ctx, a + b, p) == ReachCount(ctx, a, p) + ReachCount(ctx, b, p)
  {
    hide Reaches;
    if b == [] {
      assert a + b == a;
    } else {
      assert (a + b)[..|a + b| - 1] == a + b[..|b| - 1];
      ReachCountAppend(ctx, a, b[..|b| - 1], p);
    }
  }

  lemma ReachCountInsert(ctx: Context, a: seq<Item>, item: Item, b: seq<Item>, p: Pair)
    ensures ReachCount(ctx, a + [item] + b, p) == ReachCount(ctx, a + b, p) + if Reaches(ctx, item, p) then 1 else 0
  {
    hide Reaches;
    ReachCountAppend(ctx, a + [item], b, p);
    ReachCountAppend(ctx, a, b, p);
    ReachCountSnoc(ctx, a, item, p);
  }

  lemma AllTaggedInsert(ctx: Context, a: seq<Item>, item: Item, b: seq<Item>, p: Pair, kind: Option<EvidenceKind>)
    ensures AllTagged(ctx, a + [item] + b, p, kind)
            <==> AllTagged(ctx, a + b, p, kind) && (Reaches(ctx, item, p) ==> item.ref.evidenceKind == kind)
  {
    hide Reaches;
    var rest, all := a + b, a + [item] + b;
    assert all[|a|] == item;
    if AllTagged(ctx, all, p, kind) {
      forall i | 0 <= i < |rest| && Reaches(ctx, rest[i], p) ensures rest[i].ref.evidenceKind == kind {
        if i < |a| { assert all[i] == rest[i]; } else { assert all[i + 1] == rest[i]; }
      }
    }
    if AllTagged(ctx, rest, p, kind) && (Reaches(ctx, item, p) ==> item.ref.evidenceKind == kind) {
      forall i | 0 <= i < |all| && Reaches(ctx, all[i], p) ensures all[i].ref.evidenceKind == kind {
        if i < |a| { assert all[i] == rest[i]; } else if i > |a| { assert all[i] == rest[i - 1]; }
      }
    }
  }

  /** What the references of some records amount to, for one pair. */
  ghost predicate Amounts(norm: string -> string, g: ReviewGraph, ctx: Context, edges: seq<GraphEdge>,
                          items: seq<Item>, p: Pair)
  {
    && ReachCount(ctx, items, p) == Records(norm, g, edges, p.0, p.1)
    && (AllTagged(ctx, items, p, Some(Calls)) <==> AllOf(norm, g, edges, p.0, p.1, CallsEdge))
    && (AllTagged(ctx, items, p, Some(References)) <==> AllOf(norm, g, edges, p.0, p.1, ReferencesEdge))
  }

  lemma AllOfSnoc(norm: string -> string, g: ReviewGraph, edges: seq<GraphEdge>, e: GraphEdge, a: string, b: string,
                  kind: EdgeKind)
    ensures AllOf(norm, g, edges + [e], a, b, kind)
            <==> AllOf(norm, g, edges, a, b, kind) && (EdgeFor(norm, g, e, a, b) ==> e.kind == kind)
  {
    hide EdgeFor;
    var all := edges + [e];
    assert all[|edges|] == e && forall i :: 0 <= i < |edges| ==> all[i] == edges[i];
  }

  lemma RecordTag(g: ReviewGraph, e: GraphEdge, file: string)
    ensures RefOf(g, e, file).evidenceKind == Some(if e.kind == CallsEdge then Calls else References)
  {
    hide TargetNameOf, ResolutionOf;
  }

  lemma StepAmounts(norm: string -> string, stdlib: set<string>, g: ReviewGraph, ctx: Context, front: seq<GraphEdge>,
                    x: Extract, e: GraphEdge, p: Pair)
    requires SoundGraph(norm, g) && ctx == ContextFor(norm, stdlib, SymbolsOf(g.nodes)) && FitsNodes(ctx, g)
    requires (e.kind != OtherEdge ==> e.to != "") && Amounts(norm, g, ctx, front, Items(x.refs), p)
    ensures Amounts(norm, g, ctx, front + [e], Items(ExtractOne(g, x, e).refs), p)
  {
    hide SymbolsOf, CanonicalSymbols, ContextFor, SoundGraph, FitsNodes, Reaches, EdgeFor, CallerFileOf, RefOf, Append,
      Items, CallsFrom, ReachCount, AllTagged, AllOf;
    assert (front + [e])[..|front|] == front;
    AllOfSnoc(norm, g, front, e, p.0, p.1, CallsEdge);
    AllOfSnoc(norm, g, front, e, p.0, p.1, ReferencesEdge);
    if e.kind == OtherEdge || !Truthy(CallerFileOf(g, e)) {
      UntrackedIsNone(norm, g, e, p.0, p.1);
    } else {
      var file := CallerFileOf(g, e).value;
      var item := Item(file, RefOf(g, e, file));
      var a, b := ItemsSplit(x.refs, file, item.ref);
      RecordOrigin(g, e, file);
      RecordTag(g, e, file);
      RecordReaches(norm, stdlib, g, ctx, e, file, p);
      ReachCountInsert(ctx, a, item, b, p);
      AllTaggedInsert(ctx, a, item, b, p, Some(Calls));
      AllTaggedInsert(ctx, a, item, b, p, Some(References));
    }
  }

  lemma {:induction false} EdgesAmount(norm: string -> string, stdlib: set<string>, g: ReviewGraph, ctx: Context,
                                       edges: seq<GraphEdge>, p: Pair)
    requires SoundGraph(norm, g) && ctx == ContextFor(norm, stdlib, SymbolsOf(g.nodes)) && FitsNodes(ctx, g)
    requires forall i :: 0 <= i < |edges| && edges[i].kind != OtherEdge ==> edges[i].to != ""
    ensures Amounts(norm, g, ctx, edges, Items(ExtractEdges(g, edges).refs), p)
  {
    hide SymbolsOf, ContextFor, SoundGraph, FitsNodes, ExtractOne, EdgeFor, Reaches, Amounts;
    if edges == [] {
      NothingAmounts(norm, g, ctx, p);
    } else {
      var front, e := edges[..|edges| - 1], edges[|edges| - 1];
      EdgesAmount(norm, stdlib, g, ctx, front, p);
      StepAmounts(norm, stdlib, g, ctx, front, ExtractEdges(g, front), e, p);
      assert edges == front + [e];
    }
  }

  lemma NothingAmounts(norm: string -> string, g: ReviewGraph, ctx: Context, p: Pair)
    ensures Amounts(norm, g, ctx, [], Items(ExtractEdges(g, []).refs), p)
  {}

  // ---- the session's edges -------------------------------------------------------

  /** Place and kind of a symbol, as its node gives them; an unknown kind reads as a function. */
  predicate IsNode(n: Node, file: string, name: string, kind: Option<string>, line: Option<int>, column: Option<int>) {
    && n.filePath == Some(file) && n.symbolName == Some(name)
    && line == Some(if n.line.Some? then n.line.value else 1)
    && column == Some(if n.column.Some? then n.column.value else 1)
    && kind == Some(
         if n.symbolKind.Some?
            && n.symbolKind.value in {"class", "interface", "type", "variable", "property", "method", "function"}
         then n.symbolKind.value else "function")
  }

  /** The caller's end: a symbol's node, or nothing but the file. */
  ghost predicate ReportsCaller(g: ReviewGraph, a: string, e: Edge) {
    && (e.callerSymbol.None? ==>
          && a == "file:" + e.callerFile && e.callerKind.None? && e.callerLine.None? && e.callerColumn.None?)
    && (e.callerSymbol.Some? ==>
          && SymbolAt(g, a)
          && exists file ::
               IsNode(Get(g.nodes, a).value, file, e.callerSymbol.value, e.callerKind, e.callerLine, e.callerColumn))
  }

  /** What the edge of a pair says, given the records that are evidence for it. */
  ghost predicate Reports(norm: string -> string, g: ReviewGraph, a: string, b: string, e: Edge) {
    && e.evidenceCount == Some(Records(norm, g, g.edges, a, b)) && e.weight == 1.0
    && e.evidenceKind == Some(if AllOf(norm, g, g.edges, a, b, CallsEdge) then Calls
                              else if AllOf(norm, g, g.edges, a, b, ReferencesEdge) then References else Mixed)
    && SymbolAt(g, b)
    && IsNode(Get(g.nodes, b).value, e.calleeFile, e.calleeSymbol, e.calleeKind, e.calleeLine, e.calleeColumn)
    && ReportsCaller(g, a, e) && norm(e.callerFile) != norm(e.calleeFile)
  }

  lemma EntryReports(norm: string -> string, stdlib: set<string>, g: ReviewGraph, ctx: Context, items: seq<Item>,
                     p: Pair, e: Edge)
    requires SoundGraph(norm, g) && ctx == ContextFor(norm, stdlib, SymbolsOf(g.nodes))
    requires WellIndexed(ctx) && FitsNodes(ctx, g) && AllTaggedItems(items)
    requires Amounts(norm, g, ctx, g.edges, items, p) && TableEntry(ctx, items, p) == Some(e)
    ensures Reports(norm, g, p.0, p.1, e)
  {
    hide Reaches, Records, AllOf, NodeSymbol, FitsNodes, TableEntry, SymbolAt, ReachCount, WellIndexed, CallerOf,
      Classify, FirstWeight, SoundGraph, ContextFor, IsNode, ReportsCaller;
    EntryIsEvidence(ctx, items, p);
    EntryIsCounted(ctx, items, p);
    var f: nat :| Summarizes(ctx, items, p, f, e);
    TaggedWeighsOne(ctx, items, p);
    ReachedIsIndexed(ctx, items[f], p);
    IndexedIsSymbol(ctx, g, p.1, e);
    assert items[f].ref.evidenceKind.Some?;
    FirstEdgeEnds(ctx, items[f], Get(ctx.index.byId, p.1).value);
    CallerReported(norm, stdlib, g, ctx, items[f], p, e);
    NotBoth(ctx, items, p, f);
    assert ctx.norm == norm by { NormIs(norm, stdlib, SymbolsOf(g.nodes)); }
  }

  lemma NormIs(norm: string -> string, stdlib: set<string>, table: SymbolTable)
    ensures ContextFor(norm, stdlib, table).norm == norm
  {}

  lemma SymbolOfIsNode(id: string, n: Node)
    ensures SymbolOf(id, n).Some? ==>
              var s := SymbolOf(id, n).value; IsNode(n, s.filePath, s.name, Some(s.kind), Some(s.line), Some(s.column))
  {}

  lemma IndexedIsSymbol(ctx: Context, g: ReviewGraph, id: string, e: Edge)
    requires FitsNodes(ctx, g) && Get(ctx.index.byId, id).Some?
    ensures SymbolAt(g, id)
    ensures var s := Get(ctx.index.byId, id).value;
            IsNode(Get(g.nodes, id).value, s.filePath, s.name, Some(s.kind), Some(s.line), Some(s.column))
  {
    assert Get(ctx.index.byId, id) == NodeSymbol(g, id);
    SymbolAtIs(g, id);
    SymbolOfIsNode(id, Get(g.nodes, id).value);
  }

  lemma FirstEdgeEnds(ctx: Context, item: Item, callee: Symbol)
    ensures var e, caller := FirstEdge(ctx, item, callee), CallerOf(ctx, item);
            && e.calleeFile == callee.filePath && e.calleeSymbol == callee.name && e.calleeKind == Some(callee.kind)
            && e.calleeLine == Some(callee.line) && e.calleeColumn == Some(callee.column)
            && e.callerFile == item.file && e.callerKey == CallerKey(item.file, caller)
            && (caller.None? ==>
                  e.callerSymbol.None? && e.callerKind.None? && e.callerLine.None? && e.callerColumn.None?)
            && (caller.Some? ==>
                  && e.callerSymbol == Some(caller.value.name) && e.callerKind == Some(caller.value.kind)
                  && e.callerLine == Some(caller.value.line) && e.callerColumn == Some(caller.value.column))
  {
    hide Classify, CallerOf;
  }

  /** The caller the builder settles on is the symbol of its node. */
  lemma CallerNode(norm: string -> string, stdlib: set<string>, g: ReviewGraph, ctx: Context, item: Item)
    requires SoundGraph(norm, g) && ctx == ContextFor(norm, stdlib, SymbolsOf(g.nodes)) && FitsNodes(ctx, g)
    requires CallerOf(ctx, item).Some?
    ensures var s := CallerOf(ctx, item).value;
            && SymbolAt(g, s.id)
            && IsNode(Get(g.nodes, s.id).value, s.filePath, s.name, Some(s.kind), Some(s.line), Some(s.column))
  {
    hide SymbolsOf, CanonicalSymbols, NodeSymbol, SymbolAt, Innermost, SymbolOf, IsNode;
    var named, s := item.ref.callerSymbolId, CallerOf(ctx, item).value;
    if Truthy(named) && Get(ctx.index.byId, named.value).Some? {
      assert Get(ctx.index.byId, named.value) == NodeSymbol(g, named.value);
      SymbolAtIs(g, named.value);
      SymbolIsNode(g, named.value);
    } else {
      EnclosingIsInnermostNode(norm, stdlib, g, item.file, item.ref.line);
      var i: nat :| && i < |g.nodes| && Innermost(norm, g.nodes, item.file, item.ref.line, i)
                    && s.id == g.nodes[i].0 && SymbolOf(g.nodes[i].0, g.nodes[i].1) == Some(s);
      GetAt(g.nodes, i);
      SymbolOfIsNode(s.id, g.nodes[i].1);
      IsSymbolOf(g, s.id, g.nodes[i].1);
    }
  }

  lemma SymbolIsNode(g: ReviewGraph, id: string)
    requires NodeSymbol(g, id).Some?
    ensures Get(g.nodes, id).Some?
    ensures var s := NodeSymbol(g, id).value;
            && s.id == id
            && IsNode(Get(g.nodes, id).value, s.filePath, s.name, Some(s.kind), Some(s.line), Some(s.column))
  {
    SymbolOfIsNode(id, Get(g.nodes, id).value);
  }

  lemma IsSymbolOf(g: ReviewGraph, id: string, n: Node)
    requires Get(g.nodes, id) == Some(n) && SymbolOf(id, n).Some?
    ensures SymbolAt(g, id)
  {}

  lemma CallerReported(norm: string -> string, stdlib: set<string>, g: ReviewGraph, ctx: Context, item: Item, p: Pair,
                       e: Edge)
    requires SoundGraph(norm, g) && ctx == ContextFor(norm, stdlib, SymbolsOf(g.nodes)) && FitsNodes(ctx, g)
    requires Reaches(ctx, item, p) && Get(ctx.index.byId, p.1).Some?
    requires e == FirstEdge(ctx, item, Get(ctx.index.byId, p.1).value)
                  .(evidenceCount := e.evidenceCount, evidenceKind := e.evidenceKind)
    ensures ReportsCaller(g, p.0, e)
  {
    hide CallerOf, Classify, SoundGraph, ContextFor, FitsNodes, SymbolAt, IsNode, FirstEdge;
    FirstEdgeEnds(ctx, item, Get(ctx.index.byId, p.1).value);
    var caller := CallerOf(ctx, item);
    if caller.Some? { CallerNode(norm, stdlib, g, ctx, item); }
  }

  lemma NotBoth(ctx: Context, items: seq<Item>, p: Pair, f: nat)
    requires f < |items| && Reaches(ctx, items[f], p) && items[f].ref.evidenceKind.Some?
    ensures AllTagged(ctx, items, p, Some(Calls)) ==> items[f].ref.evidenceKind == Some(Calls)
    ensures AllTagged(ctx, items, p, Some(References)) ==> items[f].ref.evidenceKind == Some(References)
    ensures AllTagged(ctx, items, p, items[f].ref.evidenceKind)
            ==> AllTagged(ctx, items, p, Some(Calls)) || AllTagged(ctx, items, p, Some(References))
  {
    hide Reaches;
  }

  /** The session's graph has an edge from `a` to `b` exactly if some record of the review graph is
      evidence for that call: a call, or a reference tagged as one, to a settled symbol of another
      file, whose caller is the symbol it comes from or the innermost function around it or its
      file. The edge counts those records, says whether they were calls, references or both, and
      describes both ends as their nodes do. */
  lemma SessionEdgeIff(norm: string -> string, stdlib: set<string>, g: ReviewGraph, builtAt: string, a: string,
                       b: string)
    requires SoundGraph(norm, g)
    ensures var edges := SessionGraph(norm, stdlib, g, builtAt).edges;
            && ((exists e :: EdgeOf(edges, (a, b), e))
                <==> exists i :: 0 <= i < |g.edges| && EdgeFor(norm, g, g.edges[i], a, b))
            && forall e :: EdgeOf(edges, (a, b), e) ==> Reports(norm, g, a, b, e)
  {
    hide Run, Items, ExtractEdges, SymbolsOf, ContextFor, SoundGraph, SessionGraph, FitsNodes, Faithful, CoverageOk,
      AllTaggedItems, EdgeFor, Records, TableEntry, Reports, CountIn, Returns, Reaches, Amounts, PartitionsTotal;
    var ctx, items := ContextFor(norm, stdlib, SymbolsOf(g.nodes)), Items(ExtractEdges(g, g.edges).refs);
    var session := SessionGraph(norm, stdlib, g, builtAt);
    var m := Run(ctx, false, Initial(None), items).table;
    SessionInput(norm, stdlib, g);
    SessionCoverage(norm, stdlib, g, builtAt);
    ContextIndexed(norm, stdlib, SymbolsOf(g.nodes));
    TargetsNamed(norm, g);
    EdgesAmount(norm, stdlib, g, ctx, g.edges, (a, b));
    RunKeyed(ctx, false, Initial(None), items);
    EdgeTableExact(ctx, false, Initial(None), items, (a, b));
    EntryIsCounted(ctx, items, (a, b));
    RecordsPositive(norm, g, g.edges, a, b);
    EdgeIsEntry(m, (a, b));
    if TableEntry(ctx, items, (a, b)).Some? {
      EntryReports(norm, stdlib, g, ctx, items, (a, b), TableEntry(ctx, items, (a, b)).value);
    }
    AmountsCount(norm, g, ctx, g.edges, items, (a, b));
  }

  lemma AmountsCount(norm: string -> string, g: ReviewGraph, ctx: Context, edges: seq<GraphEdge>, items: seq<Item>,
                     p: Pair)
    requires Amounts(norm, g, ctx, edges, items, p)
    ensures ReachCount(ctx, items, p) == Records(norm, g, edges, p.0, p.1)
  {}

  lemma TargetsNamed(norm: string -> string, g: ReviewGraph)
    requires SoundGraph(norm, g)
    ensures forall i :: 0 <= i < |g.edges| && g.edges[i].kind != OtherEdge ==> g.edges[i].to != ""
  {}

  lemma {:induction false} RecordsPositive(norm: string -> string, g: ReviewGraph, edges: seq<GraphEdge>, a: string,
                                           b: string)
    ensures Records(norm, g, edges, a, b) > 0 <==> exists i :: 0 <= i < |edges| && EdgeFor(norm, g, edges[i], a, b)
  {
    hide EdgeFor;
    if edges == [] {
    } else {
      var front, last := edges[..|edges| - 1], edges[|edges| - 1];
      RecordsPositive(norm, g, front, a, b);
      assert forall i :: 0 <= i < |front| ==> front[i] == edges[i];
    }
  }

  /** In particular a call between two symbols of different files is an edge between them, whatever
      kind of symbol the caller is. */
  lemma SymbolCallIsEdge(norm: string -> string, stdlib: set<string>, g: ReviewGraph, builtAt: string, i: nat)
    requires SoundGraph(norm, g) && i < |g.edges| && SymbolAt(g, g.edges[i].from)
    requires CrossCall(norm, g, g.edges[i], Get(g.nodes, g.edges[i].from).value.filePath.value)
    ensures exists e :: EdgeOf(SessionGraph(norm, stdlib, g, builtAt).edges, (g.edges[i].from, g.edges[i].to), e)
  {
    hide SessionGraph, SoundGraph, CrossCall, Reports, Innermost;
    var r := g.edges[i];
    assert EdgeFor(norm, g, r, r.from, r.to);
    SessionEdgeIff(norm, stdlib, g, builtAt, r.from, r.to);
  }
}
