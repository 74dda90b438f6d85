/** `buildCallGraph` (clients/call-graph.ts): the nested-loop builder and the fold over
    references that specifies it. `norm` is the repository's path normalizer and `stdlib`
    its list of builtin names; everything below holds for any choice of both. */
module CallGraphBuild {
  import opened JsMap
  import opened CallGraphTypes
  import opened CallGraphIndex
  import opened SymbolId

  type Pair = (string, string)
  type RefTable = Entries<string, seq<SymbolRef>>

  datatype Context = Context(
    norm: string -> string, stdlib: set<string>, canonical: SymbolTable, index: DefIndex)

  function ContextFor(norm: string -> string, stdlib: set<string>, all: SymbolTable): Context {
    var canonical := CanonicalSymbols(norm, all);
    Context(norm, stdlib, canonical, IndexOf(AllSymbols(canonical)))
  }

  /** One raw reference together with the file it was found in. */
  datatype Item = Item(file: string, ref: SymbolRef)

  /** What resolution makes of one reference, before any edge is touched. */
  datatype Verdict =
    | TypeOnly
    | Unsupported
    | Unresolvable
    | Candidates(callees: seq<Symbol>, resolution: Resolution)

  function RefName(item: Item): string {
    match item.ref.symbolName
    case Some(name) => name
    case None => OrElse(ParseSymbolKey(item.ref.symbolId, item.file).symbolName, "")
  }

  /** `defs.map(byId.get).filter(candidate is defined and in another file)` */
  function CrossFileDefs(ctx: Context, fileKey: string, ids: seq<string>): seq<Symbol> {
    if ids == [] then []
    else
      var found := Get(ctx.index.byId, ids[|ids| - 1]);
      CrossFileDefs(ctx, fileKey, ids[..|ids| - 1])
      + (if found.Some? && ctx.norm(found.value.filePath) != fileKey then [found.value] else [])
  }

  /** A canonical target id is authoritative. */
  function ByTarget(ctx: Context, item: Item): Verdict
    requires item.ref.targetId.Some?
  {
    var callee := Get(ctx.index.byId, item.ref.targetId.value);
    if callee.None? || item.ref.resolution == Some(NameOnly) || item.ref.resolution == Some(Unresolved)
    then Unresolvable
    else Candidates([callee.value], OrElse(item.ref.resolution, Exact))
  }

  /** A bare name keeps every cross-file definition. */
  function ByName(ctx: Context, item: Item): Verdict {
    var name := RefName(item);
    if name in ctx.stdlib || name == "" then Unsupported
    else
      var defs := OrElse(Get(ctx.index.byName, name), []);
      if defs == [] then Unresolvable
      else
        var cross := CrossFileDefs(ctx, ctx.norm(item.file), defs);
        if cross == [] then Unsupported
        else Candidates(cross, if |cross| == 1 then Exact else NameOnly)
  }

  function Classify(ctx: Context, item: Item): Verdict {
    var ref := item.ref;
    if ref.referenceKind == Some(TypeReference) then TypeOnly
    else if ref.evidenceKind.Some? && ref.referenceKind != Some(CallReference) then Unsupported
    else
      var v := if Truthy(ref.targetId) then ByTarget(ctx, item) else ByName(ctx, item);
      if v.Candidates? && ref.evidenceKind.Some? && v.resolution == NameOnly then Unresolvable else v
  }

  function CallerOf(ctx: Context, item: Item): Option<Symbol> {
    var named := if Truthy(item.ref.callerSymbolId)
                 then Get(ctx.index.byId, item.ref.callerSymbolId.value) else None;
    if named.Some? then named
    else Enclosing(OrElse(Get(ctx.canonical, ctx.norm(item.file)), []), item.ref.line)
  }

  function CallerKey(file: string, caller: Option<Symbol>): string {
    match caller case Some(sym) => sym.id case None => "file:" + file
  }

  /** Weight of every edge a reference creates. */
  function EdgeWeight(ref: SymbolRef, candidateCount: nat): real {
    if ref.evidenceKind.Some? then 1.0
    else 1.0 / (if candidateCount > 1 then candidateCount else 1) as real
  }

  function FreshEdge(item: Item, caller: Option<Symbol>, callee: Symbol, resolution: Resolution,
                     candidateCount: nat): Edge {
    Edge(item.file,
         if caller.Some? then Some(caller.value.name) else None,
         CallerKey(item.file, caller),
         if caller.Some? then Some(caller.value.kind) else None,
         if caller.Some? then Some(caller.value.line) else None,
         if caller.Some? then Some(caller.value.column) else None,
         callee.filePath, callee.name, callee.id, Some(callee.kind), Some(callee.line), Some(callee.column),
         item.ref.evidenceKind, Some(resolution), Some(1), EdgeWeight(item.ref, candidateCount))
  }

  /** One more raw record folded into an edge. */
  function Fold(e: Edge, ref: SymbolRef): Edge {
    e.(evidenceCount := Some(EvidenceCount(e) + 1),
       evidenceKind := if e.evidenceKind == ref.evidenceKind then e.evidenceKind else Some(Mixed))
  }

  /** Edges by (caller, callee) pair, in order of first evidence. */
  type EdgeTable = Entries<Pair, Edge>

  function Edges(m: EdgeTable): (es: seq<Edge>)
    ensures |es| == |m|
    ensures forall i :: 0 <= i < |m| ==> es[i] == m[i].1
  {
    if m == [] then [] else [m[0].1] + Edges(m[1..])
  }

  // ---- what one reference does to the edge table ---------------------------------

  predicate CrossFile(ctx: Context, item: Item, callee: Symbol) {
    ctx.norm(callee.filePath) != ctx.norm(item.file)
  }

  /** One raw record for one pair: a new edge, or one more folded into it. */
  function AddRecord(m: EdgeTable, item: Item, caller: Option<Symbol>, callee: Symbol,
                     resolution: Resolution, candidateCount: nat): EdgeTable {
    var pair := (CallerKey(item.file, caller), callee.id);
    match Get(m, pair)
    case Some(existing) => Put(m, pair, Fold(existing, item.ref))
    case None => Put(m, pair, FreshEdge(item, caller, callee, resolution, candidateCount))
  }

  /** The table after the first `n` candidates of a reference. */
  function TableUpTo(ctx: Context, m: EdgeTable, item: Item, caller: Option<Symbol>,
                     cands: seq<Symbol>, resolution: Resolution, n: nat): EdgeTable
    requires n <= |cands|
  {
    if n == 0 then m
    else
      var before := TableUpTo(ctx, m, item, caller, cands, resolution, n - 1);
      if CrossFile(ctx, item, cands[n - 1])
      then AddRecord(before, item, caller, cands[n - 1], resolution, |cands|) else before
  }

  /** Some of the first `n` candidates met an edge that already existed. */
  predicate MetDuplicate(ctx: Context, m: EdgeTable, item: Item, caller: Option<Symbol>,
                         cands: seq<Symbol>, resolution: Resolution, n: nat)
    requires n <= |cands|
  {
    n > 0 && (MetDuplicate(ctx, m, item, caller, cands, resolution, n - 1)
              || (CrossFile(ctx, item, cands[n - 1])
                  && Get(TableUpTo(ctx, m, item, caller, cands, resolution, n - 1),
                         (CallerKey(item.file, caller), cands[n - 1].id)).Some?))
  }

  function SameFileAmong(ctx: Context, item: Item, cands: seq<Symbol>, n: nat): (count: nat)
    requires n <= |cands|
    ensures count <= n
  {
    if n == 0 then 0
    else SameFileAmong(ctx, item, cands, n - 1) + (if CrossFile(ctx, item, cands[n - 1]) then 0 else 1)
  }

  // ---- what one reference does to the counters -----------------------------------

  function CountRaw(cov: Coverage, ref: SymbolRef): Coverage {
    var c := cov.(totalEvidence := cov.totalEvidence + 1);
    if ref.evidenceKind == Some(References) || ref.referenceKind == Some(TypeReference)
    then c.(referencesEvidence := c.referencesEvidence + 1)
    else c.(callsEvidence := c.callsEvidence + 1)
  }

  function CountSameFile(has: bool, cov: Coverage, sameFile: nat): Coverage {
    var c := cov.(sameFileEvidence := cov.sameFileEvidence + sameFile);
    if has then c.(eligibleEvidence := c.eligibleEvidence - sameFile, resolvedEvidence := c.resolvedEvidence - sameFile)
    else c
  }

  /** Counted once per reference, not once per candidate edge. */
  function CountProduced(has: bool, cov: Coverage, duplicate: bool): Coverage {
    var c := if duplicate then cov.(duplicateEvidence := cov.duplicateEvidence + 1) else cov;
    if has then c
    else c.(eligibleEvidence := c.eligibleEvidence + 1, resolvedEvidence := c.resolvedEvidence + 1)
  }

  datatype Book = Book(table: EdgeTable, coverage: Coverage, unresolvedRefs: int, totalRefs: int)

  function CountCandidates(ctx: Context, has: bool, cov: Coverage, m: EdgeTable, item: Item,
                           caller: Option<Symbol>, cands: seq<Symbol>, resolution: Resolution): Coverage {
    var sameFile := SameFileAmong(ctx, item, cands, |cands|);
    var c := CountSameFile(has, cov, sameFile);
    if sameFile < |cands|
    then CountProduced(has, c, MetDuplicate(ctx, m, item, caller, cands, resolution, |cands|)) else c
  }

  /** The effect of one raw reference, once classified. */
  function Apply(ctx: Context, has: bool, b: Book, item: Item, verdict: Verdict): Book {
    var cov := if has then b.coverage else CountRaw(b.coverage, item.ref);
    match verdict
    case TypeOnly =>
      Book(b.table, if has then cov else cov.(typeOnlyEvidence := cov.typeOnlyEvidence + 1), b.unresolvedRefs,
        b.totalRefs + 1)
    case Unsupported =>
      Book(b.table, if has then cov else cov.(unsupportedEvidence := cov.unsupportedEvidence + 1), b.unresolvedRefs,
        b.totalRefs + 1)
    case Unresolvable =>
      Book(b.table, if has then cov else cov.(unresolvedEvidence := cov.unresolvedEvidence + 1),
           if has then b.unresolvedRefs else b.unresolvedRefs + 1, b.totalRefs + 1)
    case Candidates(cands, resolution) =>
      var caller := CallerOf(ctx, item);
      Book(TableUpTo(ctx, b.table, item, caller, cands, resolution, |cands|),
           CountCandidates(ctx, has, cov, b.table, item, caller, cands, resolution),
           b.unresolvedRefs, b.totalRefs + 1)
  }

  function Step(ctx: Context, has: bool, b: Book, item: Item): Book {
    Apply(ctx, has, b, item, Classify(ctx, item))
  }

  function Run(ctx: Context, has: bool, init: Book, items: seq<Item>): Book {
    if items == [] then init
    else Step(ctx, has, Run(ctx, has, init, items[..|items| - 1]), items[|items| - 1])
  }

  function ItemsOf(file: string, refs: seq<SymbolRef>): (items: seq<Item>)
    ensures |items| == |refs|
    ensures forall i :: 0 <= i < |refs| ==> items[i] == Item(file, refs[i])
  {
    seq(|refs|, i requires 0 <= i < |refs| => Item(file, refs[i]))
  }

  /** Every raw reference, in iteration order. */
  function Items(all: RefTable): seq<Item> {
    if all == [] then [] else Items(all[..|all| - 1]) + ItemsOf(all[|all| - 1].0, all[|all| - 1].1)
  }

  function Initial(input: Option<Coverage>): Book { Book([], OrElse(input, EmptyCoverage()), 0, 0) }

  predicate LanguagesComplete(cov: Coverage) {
    cov.languages.Some? ==>
      forall i :: 0 <= i < |cov.languages.value| ==> cov.languages.value[i].1 == Complete
  }

  function FinalCoverage(cov: Coverage, has: bool, symbolFiles: nat): Coverage {
    cov.(complete := cov.complete && has && cov.unsupportedEvidence == 0 && LanguagesComplete(cov)
                     && (symbolFiles > 0 || cov.totalEvidence > 0))
  }

  /** The graph a set of symbols and references stands for: the three maps are views of the
      edge list. */
  function Graph(norm: string -> string, stdlib: set<string>, symbols: SymbolTable, refs: RefTable,
                 input: Option<Coverage>, builtAt: string): FunctionCallGraph {
    var has := input.Some?;
    var b := Run(ContextFor(norm, stdlib, symbols), has, Initial(input), Items(refs));
    var edges := Edges(b.table);
    FunctionCallGraph(Outgoing(edges), Incoming(edges), edges, InDegrees(edges),
                      if has then b.coverage.unresolvedEvidence else b.unresolvedRefs,
                      if has then b.coverage.totalEvidence else b.totalRefs,
                      Some(FinalCoverage(b.coverage, has, |symbols|)), builtAt)
  }

  // ---- the table stays a keyed map -----------------------------------------------

  ghost predicate Keyed(m: EdgeTable) {
    Unique(m) && forall i :: 0 <= i < |m| ==> m[i].0 == (m[i].1.callerKey, m[i].1.calleeKey)
  }

  lemma {:induction false} EdgesSnoc(m: EdgeTable, p: Pair, e: Edge)
    ensures Edges(m + [(p, e)]) == Edges(m) + [e]
  {
    if m == [] {
    } else {
      assert (m + [(p, e)])[1..] == m[1..] + [(p, e)];
      EdgesSnoc(m[1..], p, e);
    }
  }

  lemma NewRecord(m: EdgeTable, e: Edge)
    requires Get(m, (e.callerKey, e.calleeKey)).None?
    ensures Edges(Put(m, (e.callerKey, e.calleeKey), e)) == Edges(m) + [e]
  {
    PutNew(m, (e.callerKey, e.calleeKey), e);
    EdgesSnoc(m, (e.callerKey, e.calleeKey), e);
  }

  lemma FoldedRecord(m: EdgeTable, p: Pair, ref: SymbolRef) returns (i: nat)
    requires Get(m, p).Some?
    ensures i < |m| && Edges(m)[i] == Get(m, p).value
    ensures Edges(Put(m, p, Fold(Get(m, p).value, ref))) == Edges(m)[i := Fold(Get(m, p).value, ref)]
  {
    i := PutFirst(m, p, Fold(Get(m, p).value, ref));
  }

  lemma ViewsSnoc(edges: seq<Edge>, e: Edge)
    ensures Outgoing(edges + [e]) == Link(Outgoing(edges), e.callerKey, e.calleeKey)
    ensures Incoming(edges + [e]) == Link(Incoming(edges), e.calleeKey, e.callerKey)
    ensures InDegrees(edges + [e]) == Credit(InDegrees(edges), e.calleeKey, e.weight)
  {
    assert (edges + [e])[..|edges|] == edges;
  }

  lemma AddRecordKeyed(m: EdgeTable, item: Item, caller: Option<Symbol>, callee: Symbol, resolution: Resolution, n: nat)
    requires Keyed(m)
    ensures Keyed(AddRecord(m, item, caller, callee, resolution, n))
  {
    var p := (CallerKey(item.file, caller), callee.id);
    match Get(m, p) {
      case Some(e) =>
        PutShape(m, p, Fold(e, item.ref));
        var i := PutFirst(m, p, Fold(e, item.ref));
      case None =>
        PutShape(m, p, FreshEdge(item, caller, callee, resolution, n));
        PutNew(m, p, FreshEdge(item, caller, callee, resolution, n));
    }
  }

  // ---- the program ---------------------------------------------------------------

  method Resolve(ctx: Context, item: Item) returns (v: Verdict)
    ensures v == Classify(ctx, item)
  {
    var ref := item.ref;
    if ref.referenceKind == Some(TypeReference) { return TypeOnly; }
    if ref.evidenceKind.Some? && ref.referenceKind != Some(CallReference) { return Unsupported; }
    var cands: seq<Symbol> := [];
    var resolution := Exact;
    if Truthy(ref.targetId) {
      var callee := Get(ctx.index.byId, ref.targetId.value);
      if callee.None? || ref.resolution == Some(NameOnly) || ref.resolution == Some(Unresolved) {
        return Unresolvable;
      }
      cands, resolution := [callee.value], OrElse(ref.resolution, Exact);
    } else {
      var name := RefName(item);
      if name in ctx.stdlib || name == "" { return Unsupported; }
      var defs := OrElse(Get(ctx.index.byName, name), []);
      if |defs| == 0 { return Unresolvable; }
      for i := 0 to |defs|
        invariant cands == CrossFileDefs(ctx, ctx.norm(item.file), defs[..i])
      {
        assert defs[..i + 1][..i] == defs[..i];
        var found := Get(ctx.index.byId, defs[i]);
        if found.Some? && ctx.norm(found.value.filePath) != ctx.norm(item.file) {
          cands := cands + [found.value];
        }
      }
      assert defs[..|defs|] == defs;
      if |cands| == 0 { return Unsupported; }
      resolution := if |cands| == 1 then Exact else NameOnly;
    }
    if ref.evidenceKind.Some? && resolution == NameOnly { return Unresolvable; }
    return Candidates(cands, resolution);
  }

  method ResolveCaller(ctx: Context, item: Item) returns (caller: Option<Symbol>)
    ensures caller == CallerOf(ctx, item)
  {
    caller := None;
    if Truthy(item.ref.callerSymbolId) { caller := Get(ctx.index.byId, item.ref.callerSymbolId.value); }
    if caller.None? {
      caller := FindEnclosingSymbol(OrElse(Get(ctx.canonical, ctx.norm(item.file)), []), item.ref.line);
    }
  }

  /** The mutable maps of the builder while it runs. */
  datatype Views = Views(callees: Adjacency, callers: Adjacency, inDegree: Degrees)

  ghost predicate ViewsOf(v: Views, m: EdgeTable) {
    && v.callees == Outgoing(Edges(m)) && v.callers == Incoming(Edges(m)) && v.inDegree == InDegrees(Edges(m))
  }

  /** One candidate: fold into the existing edge, or create it and index it three ways. */
  method RecordEdge(m: EdgeTable, v: Views, item: Item, caller: Option<Symbol>, callee: Symbol,
                    resolution: Resolution, candidateCount: nat)
    returns (table: EdgeTable, views: Views, existed: bool)
    requires Keyed(m) && ViewsOf(v, m)
    ensures table == AddRecord(m, item, caller, callee, resolution, candidateCount)
    ensures Keyed(table) && ViewsOf(views, table)
    ensures existed <==> Get(m, (CallerKey(item.file, caller), callee.id)).Some?
  {
    AddRecordKeyed(m, item, caller, callee, resolution, candidateCount);
    var callerKey := CallerKey(item.file, caller);
    var existing := Get(m, (callerKey, callee.id));
    if existing.Some? {
      ghost var i := FoldedRecord(m, (callerKey, callee.id), item.ref);
      table := Put(m, (callerKey, callee.id), Fold(existing.value, item.ref));
      ViewsReadKeys(Edges(table), Edges(m));
      return table, v, true;
    }
    var edge := FreshEdge(item, caller, callee, resolution, candidateCount);
    NewRecord(m, edge);
    ViewsSnoc(Edges(m), edge);
    table := Put(m, (callerKey, callee.id), edge);
    views := Views(Link(v.callees, callerKey, callee.id), Link(v.callers, callee.id, callerKey),
                   Credit(v.inDegree, callee.id, edge.weight));
    existed := false;
  }

  /** One same-file target: resolved by the source graph, outside this projection. */
  method RecordSameFile(has: bool, cov: Coverage, ghost initial: Coverage, ghost seen: nat) returns (coverage: Coverage)
    requires cov == CountSameFile(has, initial, seen)
    ensures coverage == CountSameFile(has, initial, seen + 1)
  {
    coverage := cov.(sameFileEvidence := cov.sameFileEvidence + 1);
    if has {
      coverage := coverage.(eligibleEvidence := coverage.eligibleEvidence - 1,
                            resolvedEvidence := coverage.resolvedEvidence - 1);
    }
  }

  /** Once per reference that produced an edge. */
  method RecordProduced(has: bool, cov: Coverage, duplicateRef: bool) returns (coverage: Coverage)
    ensures coverage == CountProduced(has, cov, duplicateRef)
  {
    coverage := cov;
    if !has {
      coverage := coverage.(eligibleEvidence := coverage.eligibleEvidence + 1,
                            resolvedEvidence := coverage.resolvedEvidence + 1);
      if duplicateRef { coverage := coverage.(duplicateEvidence := coverage.duplicateEvidence + 1); }
    }
    if has && duplicateRef { coverage := coverage.(duplicateEvidence := coverage.duplicateEvidence + 1); }
  }

  /** All candidates of one reference. */
  method RecordCandidates(ctx: Context, has: bool, m: EdgeTable, v: Views, cov: Coverage, item: Item,
                          caller: Option<Symbol>, cands: seq<Symbol>, resolution: Resolution)
    returns (table: EdgeTable, views: Views, coverage: Coverage)
    requires Keyed(m) && ViewsOf(v, m)
    ensures table == TableUpTo(ctx, m, item, caller, cands, resolution, |cands|)
    ensures coverage == CountCandidates(ctx, has, cov, m, item, caller, cands, resolution)
    ensures Keyed(table) && ViewsOf(views, table)
  {
    table, views, coverage := m, v, cov;
    var producedEdge, duplicateRef := false, false;
    for i := 0 to |cands|
      invariant table == TableUpTo(ctx, m, item, caller, cands, resolution, i)
      invariant Keyed(table) && ViewsOf(views, table)
      invariant coverage == CountSameFile(has, cov, SameFileAmong(ctx, item, cands, i))
      invariant producedEdge <==> SameFileAmong(ctx, item, cands, i) < i
      invariant duplicateRef <==> MetDuplicate(ctx, m, item, caller, cands, resolution, i)
    {
      if ctx.norm(cands[i].filePath) == ctx.norm(item.file) {
        coverage := RecordSameFile(has, coverage, cov, SameFileAmong(ctx, item, cands, i));
        continue;
      }
      producedEdge := true;
      var existed;
      table, views, existed := RecordEdge(table, views, item, caller, cands[i], resolution, |cands|);
      if existed { duplicateRef := true; }
    }
    if producedEdge { coverage := RecordProduced(has, coverage, duplicateRef); }
  }

  method RecordVerdict(ctx: Context, has: bool, b: Book, v: Views, item: Item, verdict: Verdict)
    returns (next: Book, views: Views)
    requires Keyed(b.table) && ViewsOf(v, b.table)
    ensures next == Apply(ctx, has, b, item, verdict)
    ensures Keyed(next.table) && ViewsOf(views, next.table)
  {
    views := v;
    var table, coverage, unresolvedRefs, totalRefs := b.table, b.coverage, b.unresolvedRefs, b.totalRefs + 1;
    if !has { coverage := CountRaw(coverage, item.ref); }
    match verdict {
      case TypeOnly =>
        if !has { coverage := coverage.(typeOnlyEvidence := coverage.typeOnlyEvidence + 1); }
      case Unsupported =>
        if !has { coverage := coverage.(unsupportedEvidence := coverage.unsupportedEvidence + 1); }
      case Unresolvable =>
        if !has {
          unresolvedRefs := unresolvedRefs + 1;
          coverage := coverage.(unresolvedEvidence := coverage.unresolvedEvidence + 1);
        }
      case Candidates(cands, resolution) =>
        var caller := ResolveCaller(ctx, item);
        table, views, coverage := RecordCandidates(ctx, has, table, views, coverage, item, caller, cands, resolution);
    }
    next := Book(table, coverage, unresolvedRefs, totalRefs);
  }

  method RecordRef(ctx: Context, has: bool, b: Book, v: Views, item: Item) returns (next: Book, views: Views)
    requires Keyed(b.table) && ViewsOf(v, b.table)
    ensures next == Step(ctx, has, b, item)
    ensures Keyed(next.table) && ViewsOf(views, next.table)
  {
    var verdict := Resolve(ctx, item);
    next, views := RecordVerdict(ctx, has, b, v, item, verdict);
  }

  lemma RunSnoc(ctx: Context, has: bool, init: Book, done: seq<Item>, more: seq<Item>, i: nat)
    requires i < |more|
    ensures Run(ctx, has, init, done + more[..i + 1])
         == Step(ctx, has, Run(ctx, has, init, done + more[..i]), more[i])
  {
    var whole := done + more[..i + 1];
    assert whole[..|whole| - 1] == done + more[..i];
  }

  /** All references of one file. */
  method RecordFile(ctx: Context, has: bool, ghost init: Book, ghost done: seq<Item>, b: Book, v: Views,
                    callerFile: string, refs: seq<SymbolRef>) returns (next: Book, views: Views)
    requires b == Run(ctx, has, init, done) && Keyed(b.table) && ViewsOf(v, b.table)
    ensures next == Run(ctx, has, init, done + ItemsOf(callerFile, refs))
    ensures Keyed(next.table) && ViewsOf(views, next.table)
  {
    next, views := b, v;
    ghost var more := ItemsOf(callerFile, refs);
    assert done + more[..0] == done;
    for i := 0 to |refs|
      invariant next == Run(ctx, has, init, done + more[..i])
      invariant Keyed(next.table) && ViewsOf(views, next.table)
    {
      RunSnoc(ctx, has, init, done, more, i);
      next, views := RecordRef(ctx, has, next, views, Item(callerFile, refs[i]));
    }
    assert more[..|refs|] == more;
  }

  lemma ItemsSnoc(all: RefTable, f: nat)
    requires f < |all|
    ensures Items(all[..f + 1]) == Items(all[..f]) + ItemsOf(all[f].0, all[f].1)
  {
    assert all[..f + 1][..f] == all[..f];
  }

  method RecordAll(ctx: Context, has: bool, init: Book, allRefs: RefTable) returns (b: Book, views: Views)
    requires init.table == []
    ensures b == Run(ctx, has, init, Items(allRefs))
    ensures Keyed(b.table) && ViewsOf(views, b.table)
  {
    b, views := init, Views([], [], []);
    assert Edges(init.table) == [];
    for f := 0 to |allRefs|
      invariant b == Run(ctx, has, init, Items(allRefs[..f]))
      invariant Keyed(b.table) && ViewsOf(views, b.table)
    {
      ItemsSnoc(allRefs, f);
      b, views := RecordFile(ctx, has, init, Items(allRefs[..f]), b, views, allRefs[f].0, allRefs[f].1);
    }
    assert allRefs[..|allRefs|] == allRefs;
  }

  method Canonicalize(norm: string -> string, all: SymbolTable) returns (canonical: SymbolTable)
    ensures canonical == CanonicalSymbols(norm, all)
  {
    canonical := [];
    for f := 0 to |all|
      invariant canonical == CanonicalSymbols(norm, all[..f])
    {
      assert all[..f + 1][..f] == all[..f];
      canonical := Put(canonical, norm(all[f].0), all[f].1);
    }
    assert all[..|all|] == all;
  }

  method BuildCallGraph(norm: string -> string, stdlib: set<string>, allSymbols: SymbolTable, allRefs: RefTable,
                        inputCoverage: Option<Coverage>, builtAt: string) returns (graph: FunctionCallGraph)
    ensures graph == Graph(norm, stdlib, allSymbols, allRefs, inputCoverage, builtAt)
  {
    var canonical := Canonicalize(norm, allSymbols);
    var index := BuildDefIndex(canonical);
    var has := inputCoverage.Some?;
    var b, views := RecordAll(Context(norm, stdlib, canonical, index), has, Initial(inputCoverage), allRefs);
    graph := FunctionCallGraph(views.callees, views.callers, Edges(b.table), views.inDegree,
                               if has then b.coverage.unresolvedEvidence else b.unresolvedRefs,
                               if has then b.coverage.totalEvidence else b.totalRefs,
                               Some(FinalCoverage(b.coverage, has, |allSymbols|)), builtAt);
  }
}
