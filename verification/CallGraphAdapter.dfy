/** The builder on what a review graph yields: with supplied counters it makes the same edges, and
    the extraction's counters count its references by the builder's own classification. */
module CallGraphAdapter {
  import opened JsMap
  import opened Text
  import opened CallGraphTypes
  import opened CallGraphIndex
  import opened CallGraphBuild
  import opened CallGraphIndexes
  import opened CallGraphEvidence
  import opened CallGraphLedger
  import opened CallGraphPersist
  import opened CallGraphRoundTrip
  import opened ReviewGraphExtract

  // ---- the builder on supplied counters ------------------------------------------

  /** Same-file targets leave the resolved evidence, and references that return are counted. */
  function Adjusted(cov: Coverage, sameFile: nat, returning: nat): Coverage {
    cov.(sameFileEvidence := cov.sameFileEvidence + sameFile, eligibleEvidence := cov.eligibleEvidence - sameFile,
         resolvedEvidence := cov.resolvedEvidence - sameFile, duplicateEvidence := cov.duplicateEvidence + returning)
  }

  lemma SuppliedStep(ctx: Context, before: Book, own: Book, front: seq<Item>, item: Item)
    requires WellIndexed(ctx) && own == Run(ctx, false, Initial(None), front) && before.table == own.table
    ensures var after := Step(ctx, true, before, item);
            && after.table == Step(ctx, false, own, item).table
            && after.coverage == Adjusted(before.coverage, if BucketOf(ctx, item) == InSameFile then 1 else 0,
                                          if ReachesAgain(ctx, front, item) then 1 else 0)
  {
    hide Run, ReachesAgain, TableUpTo, SomePairExists;
    if BucketOf(ctx, item) == InResolved {
      BucketCandidates(ctx, item);
      var v := Classify(ctx, item);
      MetDuplicateIff(ctx, before.table, item, CallerOf(ctx, item), v.callees, v.resolution, |v.callees|);
      assert v.callees[..|v.callees|] == v.callees;
      SomePairIsReturn(ctx, front, item);
    } else {
      NothingAgain(ctx, front, item);
      if Classify(ctx, item).Candidates? { BucketCandidates(ctx, item); }
    }
  }

  /** Supplied counters change nothing about the edges, and are adjusted by exactly the two
      facts the extraction cannot know. */
  lemma {:induction false} SuppliedRun(ctx: Context, cov: Coverage, items: seq<Item>)
    requires WellIndexed(ctx)
    ensures var b := Run(ctx, true, Initial(Some(cov)), items);
            && b.table == Run(ctx, false, Initial(None), items).table
            && b.coverage == Adjusted(cov, CountIn(ctx, items, InSameFile), Returns(ctx, items))
  {
    hide Step, ReachesAgain, BucketOf;
    if items == [] {
    } else {
      var front, item := items[..|items| - 1], items[|items| - 1];
      SuppliedRun(ctx, cov, front);
      SuppliedStep(ctx, Run(ctx, true, Initial(Some(cov)), front), Run(ctx, false, Initial(None), front), front, item);
    }
  }

  /** The counters count these references, and `untracked` records that became none. */
  ghost predicate CountsAs(ctx: Context, items: seq<Item>, c: Coverage, untracked: nat) {
    && c.totalEvidence == |items| + untracked && c.callsEvidence + c.referencesEvidence == c.totalEvidence
    && c.callsEvidence >= 0 && c.referencesEvidence >= 0
    && c.eligibleEvidence == c.resolvedEvidence == CountIn(ctx, items, InResolved) + CountIn(ctx, items, InSameFile)
    && c.unresolvedEvidence == CountIn(ctx, items, InUnresolved)
    && c.typeOnlyEvidence == CountIn(ctx, items, InTypeOnly)
    && c.unsupportedEvidence == CountIn(ctx, items, InUnsupported) + untracked
    && c.sameFileEvidence == 0 && c.duplicateEvidence == 0
  }

  // ---- lists in a map ------------------------------------------------------------

  lemma {:induction false} CountInAppend(ctx: Context, a: seq<Item>, b: seq<Item>, bucket: Bucket)
    ensures CountIn(ctx, a + b, bucket) == CountIn(ctx, a, bucket) + CountIn(ctx, b, bucket)
  {
    hide BucketOf;
    if b == [] {
      assert a + b == a;
    } else {
      assert (a + b)[..|a + b| - 1] == a + b[..|b| - 1];
      CountInAppend(ctx, a, b[..|b| - 1], bucket);
    }
  }

  lemma {:induction false} ItemsAppend(a: RefTable, b: RefTable)
    ensures Items(a + b) == Items(a) + Items(b)
  {
    if b == [] {
      assert a + b == a;
    } else {
      assert (a + b)[..|a + b| - 1] == a + b[..|b| - 1];
      ItemsAppend(a, b[..|b| - 1]);
    }
  }

  lemma ItemsOfOne(file: string, refs: seq<SymbolRef>)
    ensures Items([(file, refs)]) == ItemsOf(file, refs)
  {
    var one := [(file, refs)];
    assert one[..0] == [] && Items([]) == [];
  }

  lemma AppendShape<T>(m: Entries<string, seq<T>>, key: string, x: T)
    returns (front: Entries<string, seq<T>>, list: seq<T>, back: Entries<string, seq<T>>)
    ensures Append(m, key, x) == front + [(key, list + [x])] + back
    ensures m == front + [(key, list)] + back || (m == front && list == [] && back == [])
  {
    if Get(m, key).Some? {
      list := Get(m, key).value;
      var i := PutFirst(m, key, list + [x]);
      front, back := m[..i], m[i + 1..];
      assert m == front + [m[i]] + back;
    } else {
      PutNew(m, key, [x]);
      front, list, back := m, [], [];
      assert [] + [x] == [x];
    }
  }

  /** Appending one reference puts one item among the others. */
  lemma ItemsSplit(m: RefTable, file: string, ref: SymbolRef) returns (a: seq<Item>, b: seq<Item>)
    ensures Items(m) == a + b && Items(Append(m, file, ref)) == a + [Item(file, ref)] + b
  {
    hide Append;
    var front, list, back := AppendShape(m, file, ref);
    a, b := Items(front) + ItemsOf(file, list), Items(back);
    ItemsAppend(front + [(file, list)], back);
    ItemsAppend(front, [(file, list)]);
    ItemsOfOne(file, list);
    ItemsAppend(front + [(file, list + [ref])], back);
    ItemsAppend(front, [(file, list + [ref])]);
    ItemsOfOne(file, list + [ref]);
    assert ItemsOf(file, list + [ref]) == ItemsOf(file, list) + [Item(file, ref)];
    if m == front && list == [] && back == [] {
      assert Items(back) == [] && ItemsOf(file, []) == [];
    }
  }

  lemma {:induction false} SymbolsAppend(a: SymbolTable, b: SymbolTable)
    ensures AllSymbols(a + b) == AllSymbols(a) + AllSymbols(b)
  {
    if b == [] {
      assert a + b == a;
    } else {
      assert (a + b)[..|a + b| - 1] == a + b[..|b| - 1];
      SymbolsAppend(a, b[..|b| - 1]);
    }
  }

  lemma SymbolsSplit(m: SymbolTable, file: string, sym: Symbol) returns (a: seq<Symbol>, b: seq<Symbol>)
    ensures AllSymbols(m) == a + b && AllSymbols(Append(m, file, sym)) == a + [sym] + b
  {
    hide Append;
    var front, list, back := AppendShape(m, file, sym);
    a, b := AllSymbols(front) + list, AllSymbols(back);
    SymbolsAppend(front + [(file, list)], back);
    SymbolsAppend(front, [(file, list)]);
    SymbolsOfOne(file, list);
    SymbolsAppend(front + [(file, list + [sym])], back);
    SymbolsAppend(front, [(file, list + [sym])]);
    SymbolsOfOne(file, list + [sym]);
  }

  lemma SymbolsOfOne(file: string, list: seq<Symbol>)
    ensures AllSymbols([(file, list)]) == list
  {
    var one := [(file, list)];
    assert one[..0] == [] && AllSymbols([]) == [];
  }

  // ---- the symbols of a review graph ---------------------------------------------

  predicate IsNodeSymbol(nodes: Entries<string, Node>, sym: Symbol) {
    exists i :: 0 <= i < |nodes| && SymbolOf(nodes[i].0, nodes[i].1) == Some(sym)
  }

  lemma NodeSymbolSnoc(front: Entries<string, Node>, last: (string, Node), sym: Symbol)
    ensures IsNodeSymbol(front + [last], sym) <==> IsNodeSymbol(front, sym) || SymbolOf(last.0, last.1) == Some(sym)
  {
    hide SymbolOf;
    var all := front + [last];
    assert all[|front|] == last;
    if i :| 0 <= i < |front| && SymbolOf(front[i].0, front[i].1) == Some(sym) { assert all[i] == front[i]; }
    if i :| 0 <= i < |all| && SymbolOf(all[i].0, all[i].1) == Some(sym) && i < |front| { assert all[i] == front[i]; }
  }

  /** The extracted table holds exactly the symbols of the nodes. */
  lemma {:induction false} ExtractedSymbols(nodes: Entries<string, Node>, sym: Symbol)
    ensures sym in AllSymbols(SymbolsOf(nodes)) <==> IsNodeSymbol(nodes, sym)
  {
    hide Append, AllSymbols, IsNodeSymbol, SymbolOf;
    if nodes == [] {
      NoNodes(sym);
    } else {
      var front, last := nodes[..|nodes| - 1], nodes[|nodes| - 1];
      ExtractedSymbols(front, sym);
      assert nodes == front + [last];
      NodeSymbolSnoc(front, last, sym);
      var own := SymbolOf(last.0, last.1);
      if own.Some? { var a, b := SymbolsSplit(SymbolsOf(front), own.value.filePath, own.value); }
    }
  }

  lemma NoNodes(sym: Symbol)
    ensures AllSymbols([]) == [] && !IsNodeSymbol([], sym)
  {}

  /** Ids are not empty, edges name a target, no symbol's file has two spellings. */
  ghost predicate SoundGraph(norm: string -> string, g: ReviewGraph) {
    && Unique(g.nodes)
    && (forall sym :: IsNodeSymbol(g.nodes, sym) ==> sym.id != "")
    && (forall s, t :: IsNodeSymbol(g.nodes, s) && IsNodeSymbol(g.nodes, t) && norm(s.filePath) == norm(t.filePath)
                       ==> s.filePath == t.filePath)
    && (forall i :: 0 <= i < |g.edges| && g.edges[i].kind != OtherEdge ==> g.edges[i].to != "")
    && (forall i :: 0 <= i < |g.nodes| ==> g.nodes[i].1.language == "" || !IsBlank(g.nodes[i].1.language))
  }

  predicate IsCallerFile(g: ReviewGraph, file: string) {
    file != ""
    && exists i :: 0 <= i < |g.edges| && g.edges[i].kind != OtherEdge && CallerFileOf(g, g.edges[i]) == Some(file)
  }

  /** Further, every symbol has a canonical id and no blank part, and no caller file is blank. */
  ghost predicate WellFormedGraph(norm: string -> string, g: ReviewGraph) {
    && SoundGraph(norm, g)
    && (forall sym :: IsNodeSymbol(g.nodes, sym) ==> WellFormedSymbol(norm, sym.filePath, sym))
    && (forall file :: IsCallerFile(g, file) ==> !IsBlank(file))
  }

  /** The list of a file some symbol names, holding symbols of that file. */
  ghost predicate ListFits(nodes: Entries<string, Node>, entry: (string, seq<Symbol>)) {
    && (exists sym :: IsNodeSymbol(nodes, sym) && sym.filePath == entry.0)
    && forall j :: 0 <= j < |entry.1| ==> IsNodeSymbol(nodes, entry.1[j]) && entry.1[j].filePath == entry.0
  }

  ghost predicate ByFile(nodes: Entries<string, Node>, table: SymbolTable) {
    Unique(table) && forall i :: 0 <= i < |table| ==> ListFits(nodes, table[i])
  }

  lemma ByFileAppend(nodes: Entries<string, Node>, table: SymbolTable, sym: Symbol)
    requires ByFile(nodes, table) && IsNodeSymbol(nodes, sym)
    ensures ByFile(nodes, Append(table, sym.filePath, sym))
  {
    hide IsNodeSymbol;
    var key := sym.filePath;
    var list := OrElse(Get(table, key), []) + [sym];
    PutShape(table, key, list);
    if Get(table, key).Some? {
      var i := PutFirst(table, key, list);
      assert ListFits(nodes, table[i]);
      assert forall j :: 0 <= j < |table[i].1| ==> list[j] == table[i].1[j];
    } else {
      PutNew(table, key, list);
    }
    assert ListFits(nodes, (key, list));
  }

  lemma ListFitsGrows(front: Entries<string, Node>, last: (string, Node), entry: (string, seq<Symbol>))
    requires ListFits(front, entry)
    ensures ListFits(front + [last], entry)
  {
    hide IsNodeSymbol;
    var sym :| IsNodeSymbol(front, sym) && sym.filePath == entry.0;
    NodeSymbolSnoc(front, last, sym);
    forall j | 0 <= j < |entry.1| ensures IsNodeSymbol(front + [last], entry.1[j]) {
      NodeSymbolSnoc(front, last, entry.1[j]);
    }
  }

  lemma ByFileGrows(front: Entries<string, Node>, last: (string, Node), table: SymbolTable)
    requires ByFile(front, table)
    ensures ByFile(front + [last], table)
  {
    hide ListFits;
    forall i | 0 <= i < |table| ensures ListFits(front + [last], table[i]) { ListFitsGrows(front, last, table[i]); }
  }

  lemma {:induction false} ExtractedByFile(nodes: Entries<string, Node>)
    ensures ByFile(nodes, SymbolsOf(nodes))
  {
    hide ByFile, SymbolOf, Append, IsNodeSymbol;
    if nodes == [] {
      NothingByFile();
    } else {
      var front, last := nodes[..|nodes| - 1], nodes[|nodes| - 1];
      ExtractedByFile(front);
      assert nodes == front + [last];
      ByFileGrows(front, last, SymbolsOf(front));
      var own := SymbolOf(last.0, last.1);
      if own.Some? {
        NodeSymbolSnoc(front, last, own.value);
        ByFileAppend(nodes, SymbolsOf(front), own.value);
      }
    }
  }

  lemma NothingByFile()
    ensures ByFile([], [])
  {}

  lemma ExtractedTableWellFormed(norm: string -> string, g: ReviewGraph)
    requires WellFormedGraph(norm, g)
    ensures WellFormedTable(norm, SymbolsOf(g.nodes))
  {
    hide IsNodeSymbol, WellFormedSymbol;
    ExtractedByFile(g.nodes);
    var table := SymbolsOf(g.nodes);
    forall i, j | 0 <= i < |table| && 0 <= j < |table[i].1| ensures WellFormedSymbol(norm, table[i].0, table[i].1[j]) {
      assert ListFits(g.nodes, table[i]);
    }
  }

  /** Distinct files keep distinct keys, so re-keying loses no symbol. */
  lemma {:induction false} RekeyKeeps(norm: string -> string, table: SymbolTable)
    requires forall i, j :: 0 <= i < j < |table| ==> norm(table[i].0) != norm(table[j].0)
    ensures AllSymbols(CanonicalSymbols(norm, table)) == AllSymbols(table)
    ensures |CanonicalSymbols(norm, table)| == |table|
    ensures forall i :: 0 <= i < |table| ==> CanonicalSymbols(norm, table)[i] == (norm(table[i].0), table[i].1)
  {
    hide Put;
    if table == [] {
    } else {
      var front, last := table[..|table| - 1], table[|table| - 1];
      RekeyKeeps(norm, front);
      var m, key := CanonicalSymbols(norm, front), norm(last.0);
      forall i | 0 <= i < |m| ensures m[i].0 != key { assert m[i].0 == norm(table[i].0); }
      KeyIsNew(m, key);
      PutNew(m, key, last.1);
      AllSymbolsSnoc(m, key, last.1);
    }
  }

  lemma KeyIsNew(m: SymbolTable, key: string)
    requires forall i :: 0 <= i < |m| ==> m[i].0 != key
    ensures Get(m, key).None?
  {
    HasIsGet(m, key);
  }

  lemma AllSymbolsSnoc(m: SymbolTable, key: string, list: seq<Symbol>)
    ensures AllSymbols(m + [(key, list)]) == AllSymbols(m) + list
  {
    assert (m + [(key, list)])[..|m|] == m;
  }

  lemma ExtractedContext(norm: string -> string, stdlib: set<string>, g: ReviewGraph)
    requires SoundGraph(norm, g)
    ensures var ctx := ContextFor(norm, stdlib, SymbolsOf(g.nodes));
            && AllSymbols(ctx.canonical) == AllSymbols(SymbolsOf(g.nodes)) && |ctx.canonical| == |SymbolsOf(g.nodes)|
            && forall i :: 0 <= i < |ctx.canonical| ==>
                 ctx.canonical[i] == (norm(SymbolsOf(g.nodes)[i].0), SymbolsOf(g.nodes)[i].1)
  {
    hide IsNodeSymbol, WellFormedSymbol, AllSymbols, CanonicalSymbols;
    var table := SymbolsOf(g.nodes);
    ExtractedByFile(g.nodes);
    forall i, j | 0 <= i < j < |table| ensures norm(table[i].0) != norm(table[j].0) {
      assert ListFits(g.nodes, table[i]) && ListFits(g.nodes, table[j]);
      var s :| IsNodeSymbol(g.nodes, s) && s.filePath == table[i].0;
      var t :| IsNodeSymbol(g.nodes, t) && t.filePath == table[j].0;
    }
    RekeyKeeps(norm, table);
  }

  lemma NodeSymbolIs(g: ReviewGraph, id: string)
    requires Unique(g.nodes)
    ensures NodeSymbol(g, id).Some? ==>
              IsNodeSymbol(g.nodes, NodeSymbol(g, id).value) && NodeSymbol(g, id).value.id == id
    ensures forall sym :: IsNodeSymbol(g.nodes, sym) && sym.id == id ==> NodeSymbol(g, id) == Some(sym)
  {
    if Get(g.nodes, id).Some? { var i := GetIndex(g.nodes, id); }
    forall sym | IsNodeSymbol(g.nodes, sym) && sym.id == id ensures NodeSymbol(g, id) == Some(sym) {
      var i :| 0 <= i < |g.nodes| && SymbolOf(g.nodes[i].0, g.nodes[i].1) == Some(sym);
      GetAt(g.nodes, i);
    }
  }

  /** The builder's id table knows a target exactly if the extraction did. */
  lemma ByIdIsNodeSymbol(norm: string -> string, stdlib: set<string>, g: ReviewGraph, id: string)
    requires SoundGraph(norm, g)
    ensures Get(ContextFor(norm, stdlib, SymbolsOf(g.nodes)).index.byId, id) == NodeSymbol(g, id)
  {
    hide IsNodeSymbol, AllSymbols, CanonicalSymbols, SymbolsOf, NodeSymbol, CanonicalId;
    var symbols := AllSymbols(SymbolsOf(g.nodes));
    ExtractedContext(norm, stdlib, g);
    ByIdIsLastCarrier(symbols, id);
    NodeSymbolIs(g, id);
    var found := Get(IndexOf(symbols).byId, id);
    if found.Some? {
      ExtractedSymbols(g.nodes, found.value);
    } else if NodeSymbol(g, id).Some? {
      var sym := NodeSymbol(g, id).value;
      ExtractedSymbols(g.nodes, sym);
      var i :| 0 <= i < |symbols| && symbols[i] == sym;
      NodeSymbolHasName(g.nodes, sym);
    }
  }

  lemma NodeSymbolHasName(nodes: Entries<string, Node>, sym: Symbol)
    requires IsNodeSymbol(nodes, sym)
    ensures sym.name != "" && sym.filePath != "" && sym.kind in SYMBOL_KINDS
  {}

  // ---- the references of a review graph ------------------------------------------

  /** The bucket the extraction counts an edge in, where it cannot tell same-file targets. */
  function ExtractedBucket(g: ReviewGraph, e: GraphEdge): Bucket {
    match ReferenceKindOf(e)
    case TypeReference => InTypeOnly
    case UnknownReference => InUnsupported
    case CallReference => if Resolves(g, e) then InResolved else InUnresolved
  }

  ghost predicate FitsNodes(ctx: Context, g: ReviewGraph) {
    forall id :: Get(ctx.index.byId, id) == NodeSymbol(g, id)
  }

  /** The builder puts an extracted reference into the bucket the extraction counted it in. */
  lemma BucketsAgree(ctx: Context, g: ReviewGraph, e: GraphEdge, file: string)
    requires FitsNodes(ctx, g) && e.kind != OtherEdge && e.to != ""
    ensures var b := BucketOf(ctx, Item(file, RefOf(g, e, file)));
            b == ExtractedBucket(g, e) || (b == InSameFile && ExtractedBucket(g, e) == InResolved)
  {
    hide NodeSymbol, ResolutionOf, TargetNameOf;
    assert Get(ctx.index.byId, e.to) == NodeSymbol(g, e.to);
  }

  /** What every extracted reference is like. */
  predicate Extracted(ctx: Context, g: ReviewGraph, item: Item) {
    && item.ref.evidenceKind.Some? && IsCallerFile(g, item.file)
    && (Truthy(item.ref.callerSymbolId) && Get(ctx.index.byId, item.ref.callerSymbolId.value).Some? ==>
          Get(ctx.index.byId, item.ref.callerSymbolId.value).value.filePath == item.file)
  }

  lemma RefIsExtracted(ctx: Context, g: ReviewGraph, e: GraphEdge)
    requires FitsNodes(ctx, g) && e in g.edges && e.kind != OtherEdge && Truthy(CallerFileOf(g, e))
    ensures var file := CallerFileOf(g, e).value; Extracted(ctx, g, Item(file, RefOf(g, e, file)))
  {
    assert Get(ctx.index.byId, e.from) == NodeSymbol(g, e.from);
    var i :| 0 <= i < |g.edges| && g.edges[i] == e;
    assert IsCallerFile(g, CallerFileOf(g, e).value);
  }

  /** Edges that name no caller file: counted, but no reference. */
  function Untracked(g: ReviewGraph, edges: seq<GraphEdge>): nat {
    if edges == [] then 0
    else
      var e := edges[|edges| - 1];
      Untracked(g, edges[..|edges| - 1]) + (if e.kind != OtherEdge && !Truthy(CallerFileOf(g, e)) then 1 else 0)
  }

  ghost predicate AllExtracted(ctx: Context, g: ReviewGraph, items: seq<Item>) {
    forall i :: 0 <= i < |items| ==> Extracted(ctx, g, items[i])
  }

  ghost predicate Faithful(ctx: Context, g: ReviewGraph, x: Extract, untracked: nat) {
    CountsAs(ctx, Items(x.refs), x.coverage, untracked) && AllExtracted(ctx, g, Items(x.refs))
  }

  lemma OneMore(ctx: Context, a: seq<Item>, item: Item, b: seq<Item>, bucket: Bucket)
    ensures CountIn(ctx, a + [item] + b, bucket) == CountIn(ctx, a + b, bucket)
            + (if BucketOf(ctx, item) == bucket then 1 else 0)
  {
    hide BucketOf;
    CountInAppend(ctx, a + [item], b, bucket);
    CountInAppend(ctx, a, b, bucket);
    assert (a + [item])[..|a|] == a;
  }

  lemma AllExtractedInsert(ctx: Context, g: ReviewGraph, a: seq<Item>, item: Item, b: seq<Item>)
    requires AllExtracted(ctx, g, a + b) && Extracted(ctx, g, item)
    ensures AllExtracted(ctx, g, a + [item] + b)
  {
    hide Extracted;
    var rest, all := a + b, a + [item] + b;
    forall i | 0 <= i < |all| ensures Extracted(ctx, g, all[i]) {
      if i < |a| { assert all[i] == rest[i]; } else if i > |a| { assert all[i] == rest[i - 1]; }
    }
  }

  lemma FaithfulStep(ctx: Context, g: ReviewGraph, x: Extract, e: GraphEdge, untracked: nat)
    requires FitsNodes(ctx, g) && Faithful(ctx, g, x, untracked)
    requires e in g.edges && (e.kind != OtherEdge ==> e.to != "")
    ensures Faithful(ctx, g, ExtractOne(g, x, e),
                     untracked + (if e.kind != OtherEdge && !Truthy(CallerFileOf(g, e)) then 1 else 0))
  {
    hide BucketOf, Append, Items, CountIn, FitsNodes, AllExtracted, CallerFileOf, RefOf, Resolves;
    if e.kind != OtherEdge && Truthy(CallerFileOf(g, e)) {
      var file := CallerFileOf(g, e).value;
      var ref := RefOf(g, e, file);
      var item := Item(file, ref);
      var a, b := ItemsSplit(x.refs, file, ref);
      BucketsAgree(ctx, g, e, file);
      RefIsExtracted(ctx, g, e);
      AllExtractedInsert(ctx, g, a, item, b);
      OneMore(ctx, a, item, b, InResolved);
      OneMore(ctx, a, item, b, InSameFile);
      OneMore(ctx, a, item, b, InUnresolved);
      OneMore(ctx, a, item, b, InTypeOnly);
      OneMore(ctx, a, item, b, InUnsupported);
    }
  }

  /** The extraction's counters count its references, as long as every edge names a target. */
  lemma {:induction false} ExtractionIsFaithful(ctx: Context, g: ReviewGraph, edges: seq<GraphEdge>)
    requires FitsNodes(ctx, g)
    requires forall i :: 0 <= i < |edges| ==> edges[i] in g.edges && (edges[i].kind != OtherEdge ==> edges[i].to != "")
    ensures Faithful(ctx, g, ExtractEdges(g, edges), Untracked(g, edges))
  {
    hide FitsNodes, Faithful, ExtractOne, CallerFileOf;
    if edges == [] {
      NothingExtracted(ctx, g);
    } else {
      var front, e := edges[..|edges| - 1], edges[|edges| - 1];
      ExtractionIsFaithful(ctx, g, front);
      FaithfulStep(ctx, g, ExtractEdges(g, front), e, Untracked(g, front));
    }
  }

  lemma NothingExtracted(ctx: Context, g: ReviewGraph)
    ensures Faithful(ctx, g, ExtractEdges(g, []), 0)
  {}

  ghost predicate NamesNotBlank(ls: Entries<string, LanguageStatus>) { forall i :: 0 <= i < |ls| ==> !IsBlank(ls[i].0) }

  lemma PutNamed(ls: Entries<string, LanguageStatus>, name: string, status: LanguageStatus)
    requires NamesNotBlank(ls) && !IsBlank(name)
    ensures NamesNotBlank(Put(ls, name, status))
  {
    if Get(ls, name).Some? { var i := PutFirst(ls, name, status); } else { PutNew(ls, name, status); }
  }

  lemma {:induction false} LanguagesAreNamed(whole: bool, nodes: Entries<string, Node>)
    requires forall i :: 0 <= i < |nodes| ==> nodes[i].1.language == "" || !IsBlank(nodes[i].1.language)
    ensures NamesNotBlank(FactsOf(whole, nodes).languages)
  {
    hide StatusOf, Worst, NamesNotBlank, IsBlank;
    if nodes == [] {
      NoNames();
    } else {
      var front, last := nodes[..|nodes| - 1], nodes[|nodes| - 1].1;
      LanguagesAreNamed(whole, front);
      var ls := FactsOf(whole, front).languages;
      if last.language != "" { PutNamed(ls, last.language, Worst(Get(ls, last.language), StatusOf(last))); }
    }
  }

  lemma NoNames()
    ensures NamesNotBlank([])
  {}
}
