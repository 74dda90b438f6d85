/** Which edges `buildCallGraph` makes of any references, read off the symbols and the references
    themselves (clients/call-graph.ts:389-426, 489-655). */
module CallGraphPairs {
  import opened JsMap
  import opened CallGraphTypes
  import opened CallGraphIndex
  import opened CallGraphBuild
  import opened CallGraphIndexes
  import opened CallGraphEvidence
  import opened CallGraphLedger
  import opened SymbolId
  import opened Text

  /** The last symbol with an id and a name that carries this id. */
  ghost predicate Bears(symbols: seq<Symbol>, id: string, s: Symbol) {
    && id != "" && s.id == id && s.name != ""
    && exists i :: && 0 <= i < |symbols| && symbols[i] == s
                   && forall j :: i < j < |symbols| && symbols[j].id == id ==> symbols[j].name == ""
  }

  ghost predicate SomeBears(symbols: seq<Symbol>, id: string) { exists s :: Bears(symbols, id, s) }

  lemma BearsIff(symbols: seq<Symbol>, id: string, s: Symbol)
    ensures Bears(symbols, id, s) <==> Get(IndexOf(symbols).byId, id) == Some(s)
  {
    ByIdIsLastCarrier(symbols, id);
  }

  // ---- what is looked up ---------------------------------------------------------

  /** The symbols of a file are those supplied last under any spelling of it. */
  lemma {:induction false} LastSpellingWins(norm: string -> string, all: SymbolTable, key: string)
    ensures match Get(CanonicalSymbols(norm, all), key)
            case None => forall i :: 0 <= i < |all| ==> norm(all[i].0) != key
            case Some(list) => exists i :: && 0 <= i < |all| && norm(all[i].0) == key && all[i].1 == list
                                           && forall j :: i < j < |all| ==> norm(all[j].0) != key
  {
    if all == [] {
    } else {
      var front, last := all[..|all| - 1], all[|all| - 1];
      LastSpellingWins(norm, front, key);
      PutGet(CanonicalSymbols(norm, front), norm(last.0), last.1, key);
      assert all == front + [last] && forall i :: 0 <= i < |front| ==> all[i] == front[i];
      if norm(last.0) != key && Get(CanonicalSymbols(norm, front), key).Some? {
        var list := Get(CanonicalSymbols(norm, front), key).value;
        var i :| && 0 <= i < |front| && norm(front[i].0) == key && front[i].1 == list
                 && forall j :: i < j < |front| ==> norm(front[j].0) != key;
        assert norm(all[i].0) == key && all[i].1 == list;
      }
    }
  }

  /** The bare name of a reference: the one it states; else that of its id, be it a minted one or the
      file of the reference with a name behind it. */
  lemma NameIs(item: Item, filePath: string, name: string, kind: string, line: nat)
    ensures item.ref.symbolName.Some? ==> RefName(item) == item.ref.symbolName.value
    ensures && item.ref.symbolName.None? && IsKindToken(kind) && Mintable(filePath, name)
            && item.ref.symbolId == BuildSymbolId(filePath, name, kind, line)
            ==> RefName(item) == name
    ensures && item.ref.symbolName.None? && item.file != "" && !StartsWith(item.ref.symbolId, "file:")
            && ParseCanonical(item.ref.symbolId).None? && item.ref.symbolId == item.file + (":" + name)
            ==> RefName(item) == name
  {
    hide BuildSymbolId, ParseCanonical, IsKindToken, Mintable;
    if IsKindToken(kind) && Mintable(filePath, name) && item.ref.symbolId == BuildSymbolId(filePath, name, kind, line) {
      hide ParseSymbolKey;
      MintedParsesBack(filePath, name, kind, line, item.file);
    }
    if item.ref.symbolId == item.file + (":" + name) {
      assert item.ref.symbolId == item.file + ":" + name && item.ref.symbolId[|item.file| + 1..] == name;
    }
  }

  // ---- who calls -----------------------------------------------------------------

  predicate Surrounds(s: Symbol, line: int) {
    (s.kind == "function" || s.kind == "method") && s.line <= line && (s.endLine.Some? ==> s.endLine.value >= line)
  }

  /** The first of the surrounding functions that start last. */
  ghost predicate Closest(symbols: seq<Symbol>, line: int, s: Symbol) {
    exists i :: && 0 <= i < |symbols| && symbols[i] == s && Surrounds(s, line)
                && forall j :: 0 <= j < |symbols| && Surrounds(symbols[j], line) ==>
                     symbols[j].line < s.line || (symbols[j].line == s.line && i <= j)
  }

  ghost predicate NoneSurrounds(symbols: seq<Symbol>, line: int) {
    forall j :: 0 <= j < |symbols| ==> !Surrounds(symbols[j], line)
  }

  /** The symbols supplied for the file, under any spelling of it. */
  function SymbolsIn(ctx: Context, file: string): seq<Symbol> { OrElse(Get(ctx.canonical, ctx.norm(file)), []) }

  /** The caller: the symbol the reference names, if it exists; else the closest function around
      it; else the file. */
  ghost predicate CalledBy(ctx: Context, item: Item, key: string) {
    var symbols, named := AllSymbols(ctx.canonical), item.ref.callerSymbolId;
    if named.Some? && SomeBears(symbols, named.value) then key == named.value
    else if NoneSurrounds(SymbolsIn(ctx, item.file), item.ref.line) then key == "file:" + item.file
    else exists s :: Closest(SymbolsIn(ctx, item.file), item.ref.line, s) && key == s.id
  }

  lemma ClosestIff(symbols: seq<Symbol>, line: int, s: Symbol)
    ensures Closest(symbols, line, s) <==> Enclosing(symbols, line) == Some(s)
    ensures NoneSurrounds(symbols, line) <==> Enclosing(symbols, line).None?
  {
    EnclosingIsInnermost(symbols, line);
    assert forall j :: 0 <= j < |symbols| ==> (Surrounds(symbols[j], line) <==> Encloses(symbols[j], line));
  }

  lemma CallerIff(ctx: Context, item: Item, key: string)
    requires WellIndexed(ctx)
    ensures CalledBy(ctx, item, key) <==> key == CallerKey(item.file, CallerOf(ctx, item))
  {
    hide Bears, Closest, Enclosing, AllSymbols, NoneSurrounds;
    var symbols, list := AllSymbols(ctx.canonical), SymbolsIn(ctx, item.file);
    var named := item.ref.callerSymbolId;
    if named.Some? {
      forall s ensures Bears(symbols, named.value, s) <==> Get(ctx.index.byId, named.value) == Some(s) {
        BearsIff(symbols, named.value, s);
      }
      BearsHasId(symbols, named.value);
    }
    forall s ensures Closest(list, item.ref.line, s) <==> Enclosing(list, item.ref.line) == Some(s) {
      ClosestIff(list, item.ref.line, s);
    }
    NoneIff(list, item.ref.line);
  }

  lemma NoneIff(symbols: seq<Symbol>, line: int)
    ensures NoneSurrounds(symbols, line) <==> Enclosing(symbols, line).None?
  {
    EnclosingIsInnermost(symbols, line);
    assert forall j :: 0 <= j < |symbols| ==> (Surrounds(symbols[j], line) <==> Encloses(symbols[j], line));
  }

  lemma BearsHasId(symbols: seq<Symbol>, id: string)
    ensures forall s :: Bears(symbols, id, s) ==> s.id == id && id != ""
  {}

  // ---- what is called ------------------------------------------------------------

  /** A call, or an untagged reference that is not to a type. */
  predicate MayCall(ref: SymbolRef) {
    if ref.evidenceKind.Some? then ref.referenceKind == Some(CallReference)
    else ref.referenceKind != Some(TypeReference)
  }

  predicate HasTarget(ref: SymbolRef) { ref.targetId.Some? && ref.targetId.value != "" }

  /** The symbol whose id the reference was resolved to. */
  ghost predicate Targets(ctx: Context, item: Item, callee: Symbol) {
    && HasTarget(item.ref) && Bears(AllSymbols(ctx.canonical), item.ref.targetId.value, callee)
    && item.ref.resolution != Some(NameOnly) && item.ref.resolution != Some(Unresolved)
  }

  /** A definition of the bare name in another file; builtin names have none. */
  ghost predicate Names(ctx: Context, item: Item, callee: Symbol) {
    var name, symbols := RefName(item), AllSymbols(ctx.canonical);
    && !HasTarget(item.ref) && name != "" && name !in ctx.stdlib
    && Carries(symbols, name, callee.id) && Bears(symbols, callee.id, callee)
    && ctx.norm(callee.filePath) != ctx.norm(item.file)
  }

  /** A tagged reference needs a target, or a name with one definition; an untagged one reaches
      every definition. */
  ghost predicate IsCallee(ctx: Context, item: Item, callee: Symbol) {
    || Targets(ctx, item, callee)
    || (Names(ctx, item, callee)
        && (item.ref.evidenceKind.Some? ==> forall other :: Names(ctx, item, other) ==> other == callee))
  }

  lemma TargetedIs(ctx: Context, item: Item, callee: Symbol)
    requires WellIndexed(ctx) && HasTarget(item.ref)
    ensures var v := ByTarget(ctx, item);
            && (v.Candidates? ==> |v.callees| == 1 && v.resolution != NameOnly)
            && (Targets(ctx, item, callee) <==> v.Candidates? && v.callees[0] == callee)
  {
    hide Bears;
    BearsIff(AllSymbols(ctx.canonical), item.ref.targetId.value, callee);
  }

  lemma NamedIs(ctx: Context, item: Item, callee: Symbol)
    requires WellIndexed(ctx) && !HasTarget(item.ref)
    ensures var v := ByName(ctx, item);
            && (v.Candidates? ==> |v.callees| > 0 && (v.resolution == NameOnly <==> |v.callees| > 1))
            && (Names(ctx, item, callee) <==> v.Candidates? && callee in v.callees)
  {
    hide Bears, CrossFileDefs, IndexOf, Carries;
    var symbols, name := AllSymbols(ctx.canonical), RefName(item);
    var ids := IdsNamed(symbols, name);
    ByNameIsCarriers(symbols, name, callee.id);
    CrossFileDefsMembers(ctx, item, ids);
    BearsIff(symbols, callee.id, callee);
    if ids == [] { assert callee.id !in ids; }
  }

  lemma CandidatesAre(ctx: Context, item: Item, callee: Symbol)
    requires WellIndexed(ctx)
    ensures MayCall(item.ref) && IsCallee(ctx, item, callee)
            <==> Classify(ctx, item).Candidates? && callee in Classify(ctx, item).callees
  {
    hide Targets, Names, ByTarget, ByName, WellIndexed;
    if HasTarget(item.ref) {
      TargetedIs(ctx, item, callee);
      NotNamed(ctx, item, callee);
    } else {
      var v := ByName(ctx, item);
      forall other ensures Names(ctx, item, other) <==> v.Candidates? && other in v.callees {
        NamedIs(ctx, item, other);
      }
      NotTargeted(ctx, item, callee);
      NamedIs(ctx, item, callee);
      if v.Candidates? && |v.callees| > 1 {
        CandidatesDiffer(ctx, item);
        assert v.callees[0].id != v.callees[1].id;
        assert Names(ctx, item, v.callees[0]) && Names(ctx, item, v.callees[1]);
      }
    }
  }

  lemma NotNamed(ctx: Context, item: Item, callee: Symbol)
    requires HasTarget(item.ref)
    ensures !Names(ctx, item, callee)
  {}

  lemma NotTargeted(ctx: Context, item: Item, callee: Symbol)
    requires !HasTarget(item.ref)
    ensures !Targets(ctx, item, callee)
  {}

  /** The definitions a bare name reaches have different ids. */
  lemma CandidatesDiffer(ctx: Context, item: Item)
    requires WellIndexed(ctx) && !HasTarget(item.ref) && ByName(ctx, item).Candidates?
    ensures DistinctIds(ByName(ctx, item).callees)
  {
    ByNameIsCarriers(AllSymbols(ctx.canonical), RefName(item), "");
    CrossFileDefsMembers(ctx, item, IdsNamed(AllSymbols(ctx.canonical), RefName(item)));
  }

  // ---- the edges -----------------------------------------------------------------

  /** The reference is evidence for a call of `p.1` by `p.0`. */
  ghost predicate EvidenceFor(ctx: Context, item: Item, p: Pair) {
    && MayCall(item.ref) && CalledBy(ctx, item, p.0)
    && exists callee :: IsCallee(ctx, item, callee) && callee.id == p.1
                        && ctx.norm(callee.filePath) != ctx.norm(item.file)
  }

  lemma ReachesIff(ctx: Context, item: Item, p: Pair)
    requires WellIndexed(ctx)
    ensures Reaches(ctx, item, p) <==> EvidenceFor(ctx, item, p)
  {
    hide Classify, CallerOf, CalledBy, IsCallee, MayCall, WellIndexed;
    CallerIff(ctx, item, p.0);
    forall callee
      ensures MayCall(item.ref) && IsCallee(ctx, item, callee)
              <==> Classify(ctx, item).Candidates? && callee in Classify(ctx, item).callees
    {
      CandidatesAre(ctx, item, callee);
    }
    if Reaches(ctx, item, p) {
      var i :| 0 <= i < |Classify(ctx, item).callees| && Classify(ctx, item).callees[i].id == p.1
        && CrossFile(ctx, item, Classify(ctx, item).callees[i]);
      assert Classify(ctx, item).callees[i] in Classify(ctx, item).callees;
    }
    if EvidenceFor(ctx, item, p) {
      var callee :| IsCallee(ctx, item, callee) && callee.id == p.1 && ctx.norm(callee.filePath) != ctx.norm(item.file);
      var i :| 0 <= i < |Classify(ctx, item).callees| && Classify(ctx, item).callees[i] == callee;
      assert CrossFile(ctx, item, Classify(ctx, item).callees[i]);
    }
  }

  /** How many of the references are evidence for the pair. */
  ghost function Evidences(ctx: Context, items: seq<Item>, p: Pair): nat {
    if items == [] then 0
    else Evidences(ctx, items[..|items| - 1], p) + if EvidenceFor(ctx, items[|items| - 1], p) then 1 else 0
  }

  lemma {:induction false} EvidencesAreReaches(ctx: Context, items: seq<Item>, p: Pair)
    requires WellIndexed(ctx)
    ensures ReachCount(ctx, items, p) == Evidences(ctx, items, p)
    ensures Evidences(ctx, items, p) > 0 <==> exists i :: 0 <= i < |items| && EvidenceFor(ctx, items[i], p)
  {
    hide Reaches, EvidenceFor, WellIndexed;
    if items == [] {
    } else {
      var front, last := items[..|items| - 1], items[|items| - 1];
      EvidencesAreReaches(ctx, front, p);
      ReachesIff(ctx, last, p);
      assert forall i :: 0 <= i < |front| ==> front[i] == items[i];
    }
  }

  /** The edges that were found for a pair. */
  ghost predicate EdgeOf(edges: seq<Edge>, p: Pair, e: Edge) {
    e in edges && e.callerKey == p.0 && e.calleeKey == p.1
  }

  lemma EdgeIsEntry(m: EdgeTable, p: Pair)
    requires Keyed(m)
    ensures forall e :: EdgeOf(Edges(m), p, e) <==> Get(m, p) == Some(e)
  {
    forall e | EdgeOf(Edges(m), p, e) ensures Get(m, p) == Some(e) {
      var i :| 0 <= i < |m| && Edges(m)[i] == e;
      GetAt(m, i);
    }
    if Get(m, p).Some? {
      var i := GetIndex(m, p);
      assert Edges(m)[i] == Get(m, p).value;
    }
  }

  /** A built graph has an edge between two ends exactly if some reference is evidence for it, and
      the edge counts those references. */
  lemma BuiltEdgeIff(norm: string -> string, stdlib: set<string>, symbols: SymbolTable, refs: RefTable,
                     input: Option<Coverage>, builtAt: string, p: Pair)
    ensures var ctx := ContextFor(norm, stdlib, symbols);
            var edges := Graph(norm, stdlib, symbols, refs, input, builtAt).edges;
            && ((exists e :: EdgeOf(edges, p, e)) <==> Evidences(ctx, Items(refs), p) > 0)
            && forall e :: EdgeOf(edges, p, e) ==> EvidenceCount(e) == Evidences(ctx, Items(refs), p)
  {
    hide Run, Items, EvidenceFor, TableEntry, EdgeOf, Reaches, Evidences, EvidenceCount;
    var ctx, items := ContextFor(norm, stdlib, symbols), Items(refs);
    var m := Run(ctx, input.Some?, Initial(input), items).table;
    assert WellIndexed(ctx);
    RunKeyed(ctx, input.Some?, Initial(input), items);
    EdgeIsEntry(m, p);
    EdgeTableExact(ctx, input.Some?, Initial(input), items, p);
    EntryIsCounted(ctx, items, p);
    EvidencesAreReaches(ctx, items, p);
  }

  /** The symbol that calls, if it is one. */
  ghost predicate IsCaller(ctx: Context, item: Item, s: Symbol) {
    var named := item.ref.callerSymbolId;
    if named.Some? && SomeBears(AllSymbols(ctx.canonical), named.value)
    then Bears(AllSymbols(ctx.canonical), named.value, s)
    else Closest(SymbolsIn(ctx, item.file), item.ref.line, s)
  }

  lemma CallerSymbolIff(ctx: Context, item: Item, s: Symbol)
    requires WellIndexed(ctx)
    ensures IsCaller(ctx, item, s) <==> CallerOf(ctx, item) == Some(s)
  {
    hide Bears, Closest, Enclosing, AllSymbols;
    var symbols, named := AllSymbols(ctx.canonical), item.ref.callerSymbolId;
    ClosestIff(SymbolsIn(ctx, item.file), item.ref.line, s);
    if named.Some? {
      forall t ensures Bears(symbols, named.value, t) <==> Get(ctx.index.byId, named.value) == Some(t) {
        BearsIff(symbols, named.value, t);
      }
      BearsHasId(symbols, named.value);
    }
  }

  /** The first of the references that are evidence for the pair. */
  ghost predicate FirstEvidence(ctx: Context, items: seq<Item>, p: Pair, f: nat) {
    f < |items| && EvidenceFor(ctx, items[f], p) && forall i :: 0 <= i < f ==> !EvidenceFor(ctx, items[i], p)
  }

  /** The edge describes the symbol it leads to. */
  ghost predicate LeadsTo(e: Edge, s: Symbol) {
    && e.calleeFile == s.filePath && e.calleeSymbol == s.name && e.calleeKind == Some(s.kind)
    && e.calleeLine == Some(s.line) && e.calleeColumn == Some(s.column)
  }

  ghost predicate LeavesFrom(e: Edge, s: Symbol) {
    && e.callerSymbol == Some(s.name) && e.callerKind == Some(s.kind)
    && e.callerLine == Some(s.line) && e.callerColumn == Some(s.column)
  }

  /** What an edge says is taken from the first reference that is evidence for it. */
  ghost predicate TakenFrom(ctx: Context, item: Item, p: Pair, e: Edge) {
    && e.callerFile == item.file
    && (forall s :: Bears(AllSymbols(ctx.canonical), p.1, s) ==> LeadsTo(e, s))
    && (forall s :: IsCaller(ctx, item, s) ==> LeavesFrom(e, s))
    && ((forall s :: !IsCaller(ctx, item, s)) ==>
          e.callerSymbol.None? && e.callerKind.None? && e.callerLine.None? && e.callerColumn.None?)
    && e.resolution == Some(if HasTarget(item.ref) then OrElse(item.ref.resolution, Exact)
                            else if NamesTwo(ctx, item) then NameOnly else Exact)
  }

  lemma FirstEdgeTakes(ctx: Context, item: Item, p: Pair, callee: Symbol, e: Edge)
    requires WellIndexed(ctx) && Classify(ctx, item).Candidates? && Get(ctx.index.byId, p.1) == Some(callee)
    requires e == FirstEdge(ctx, item, callee).(evidenceCount := e.evidenceCount, evidenceKind := e.evidenceKind)
    ensures TakenFrom(ctx, item, p, e)
  {
    hide Bears, IsCaller, CallerOf, NamesTwo, ByTarget, ByName, AllSymbols, IndexOf;
    forall s ensures IsCaller(ctx, item, s) <==> CallerOf(ctx, item) == Some(s) { CallerSymbolIff(ctx, item, s); }
    forall s ensures Bears(AllSymbols(ctx.canonical), p.1, s) <==> callee == s {
      BearsIff(AllSymbols(ctx.canonical), p.1, s);
    }
    ResolutionTaken(ctx, item);
  }

  lemma ResolutionTaken(ctx: Context, item: Item)
    requires WellIndexed(ctx) && Classify(ctx, item).Candidates?
    ensures Classify(ctx, item).resolution
            == if HasTarget(item.ref) then OrElse(item.ref.resolution, Exact)
               else if NamesTwo(ctx, item) then NameOnly else Exact
  {
    if !HasTarget(item.ref) {
      hide Names, WellIndexed, CrossFileDefs;
      var v := ByName(ctx, item);
      forall callee ensures Names(ctx, item, callee) <==> v.Candidates? && callee in v.callees {
        NamedIs(ctx, item, callee);
      }
      NamedIs(ctx, item, v.callees[0]);
      CandidatesDiffer(ctx, item);
      if |v.callees| > 1 {
        assert Names(ctx, item, v.callees[0]) && Names(ctx, item, v.callees[1]) && v.callees[0].id != v.callees[1].id;
      }
    }
  }

  /** The whole edge: ends and resolution of the first evidence, their common tag or mixed. */
  lemma BuiltEdgeSays(norm: string -> string, stdlib: set<string>, symbols: SymbolTable, refs: RefTable,
                      input: Option<Coverage>, builtAt: string, p: Pair, e: Edge) returns (f: nat)
    requires EdgeOf(Graph(norm, stdlib, symbols, refs, input, builtAt).edges, p, e)
    ensures var ctx, items := ContextFor(norm, stdlib, symbols), Items(refs);
            && FirstEvidence(ctx, items, p, f) && TakenFrom(ctx, items[f], p, e)
            && e.evidenceKind == (if forall i :: 0 <= i < |items| && EvidenceFor(ctx, items[i], p) ==>
                                       items[i].ref.evidenceKind == items[f].ref.evidenceKind
                                  then items[f].ref.evidenceKind else Some(Mixed))
  {
    hide Run, Items, EvidenceFor, TableEntry, EdgeOf, Reaches, ReachCount, ContextFor, TakenFrom, Classify;
    var ctx, items := ContextFor(norm, stdlib, symbols), Items(refs);
    var m := Run(ctx, input.Some?, Initial(input), items).table;
    ContextIsIndexed(norm, stdlib, symbols);
    RunKeyed(ctx, input.Some?, Initial(input), items);
    EdgeIsEntry(m, p);
    EdgeTableExact(ctx, input.Some?, Initial(input), items, p);
    EntryIsEvidence(ctx, items, p);
    f :| Summarizes(ctx, items, p, f, e);
    forall i | 0 <= i < |items| ensures Reaches(ctx, items[i], p) <==> EvidenceFor(ctx, items[i], p) {
      ReachesIff(ctx, items[i], p);
    }
    ReachesHasCandidates(ctx, items[f], p);
    FirstEdgeTakes(ctx, items[f], p, Get(ctx.index.byId, p.1).value, e);
  }

  lemma ContextIsIndexed(norm: string -> string, stdlib: set<string>, symbols: SymbolTable)
    ensures WellIndexed(ContextFor(norm, stdlib, symbols))
  {}

  lemma ReachesHasCandidates(ctx: Context, item: Item, p: Pair)
    requires Reaches(ctx, item, p)
    ensures Classify(ctx, item).Candidates?
  {}

  /** A tagged reference is worth one; an untagged one shares that among its candidates. */
  lemma CandidatesShareOne(ctx: Context, item: Item)
    requires WellIndexed(ctx) && Classify(ctx, item).Candidates?
    ensures item.ref.evidenceKind.Some? ==> WeightFor(ctx, item) == 1.0
    ensures item.ref.evidenceKind.None? ==> WeightFor(ctx, item) * |Classify(ctx, item).callees| as real == 1.0
  {
    hide Classify;
    CandidatesAreIndexed(ctx, item);
  }

  // ---- the counters --------------------------------------------------------------

  ghost predicate Defined(ctx: Context, item: Item) {
    exists id :: Carries(AllSymbols(ctx.canonical), RefName(item), id)
  }

  /** A bare name the builder does not look up. */
  predicate Unlooked(ctx: Context, item: Item) { RefName(item) == "" || RefName(item) in ctx.stdlib }

  ghost predicate NamesAny(ctx: Context, item: Item) { exists callee :: Names(ctx, item, callee) }

  ghost predicate NamesTwo(ctx: Context, item: Item) {
    exists a, b :: Names(ctx, item, a) && Names(ctx, item, b) && a != b
  }

  ghost predicate TargetIn(ctx: Context, item: Item, sameFile: bool) {
    exists callee :: Targets(ctx, item, callee) && (ctx.norm(callee.filePath) == ctx.norm(item.file) <==> sameFile)
  }

  /** Which of the five counters a reference with a target moves. */
  lemma TargetedBucket(ctx: Context, item: Item)
    requires WellIndexed(ctx) && MayCall(item.ref) && HasTarget(item.ref)
    ensures BucketOf(ctx, item) == InResolved <==> TargetIn(ctx, item, false)
    ensures BucketOf(ctx, item) == InSameFile <==> TargetIn(ctx, item, true)
    ensures BucketOf(ctx, item) == InUnresolved <==> forall callee :: !Targets(ctx, item, callee)
    ensures BucketOf(ctx, item) in {InResolved, InSameFile, InUnresolved}
  {
    hide Targets, ByTarget, ByName, WellIndexed;
    var v := ByTarget(ctx, item);
    forall callee ensures Targets(ctx, item, callee) <==> v.Candidates? && v.callees == [callee] {
      TargetedIs(ctx, item, callee);
      if v.Candidates? { assert v.callees == [v.callees[0]]; }
    }
    TargetedKinds(ctx, item);
    if v.Candidates? { assert Targets(ctx, item, v.callees[0]); }
  }

  lemma TargetedKinds(ctx: Context, item: Item)
    requires HasTarget(item.ref)
    ensures var v := ByTarget(ctx, item);
            (v.Candidates? && v.resolution != NameOnly && |v.callees| == 1) || v == Unresolvable
  {}

  lemma NamedKinds(ctx: Context, item: Item)
    requires WellIndexed(ctx) && !HasTarget(item.ref)
    ensures var v := ByName(ctx, item);
            && (v.Candidates? ==> |v.callees| > 0 && AllCross(ctx, item, v.callees))
            && (v == Unsupported <==> Unlooked(ctx, item) || (Defined(ctx, item) && !v.Candidates?))
            && (v == Unresolvable <==> !Unlooked(ctx, item) && !Defined(ctx, item))
            && (v.Candidates? || v == Unsupported || v == Unresolvable)
  {
    hide CrossFileDefs, IndexOf, Carries;
    var symbols, name := AllSymbols(ctx.canonical), RefName(item);
    var ids := IdsNamed(symbols, name);
    ByNameIsCarriers(symbols, name, "");
    CrossFileDefsMembers(ctx, item, ids);
    forall id ensures id in ids <==> Carries(symbols, name, id) { ByNameIsCarriers(symbols, name, id); }
    if ids != [] { assert ids[0] in ids; }
  }

  /** Which of them a reference by name moves. */
  lemma NamedBucket(ctx: Context, item: Item)
    requires WellIndexed(ctx) && MayCall(item.ref) && !HasTarget(item.ref)
    ensures BucketOf(ctx, item) == InResolved
            <==> NamesAny(ctx, item) && !(item.ref.evidenceKind.Some? && NamesTwo(ctx, item))
    ensures BucketOf(ctx, item) == InUnresolved
            <==> || (!Unlooked(ctx, item) && !Defined(ctx, item))
                 || (item.ref.evidenceKind.Some? && NamesTwo(ctx, item))
    ensures BucketOf(ctx, item) == InUnsupported
            <==> Unlooked(ctx, item) || (Defined(ctx, item) && !NamesAny(ctx, item))
    ensures BucketOf(ctx, item) in {InResolved, InUnresolved, InUnsupported}
  {
    hide Names, ByTarget, ByName, WellIndexed, Defined, Unlooked;
    var v := ByName(ctx, item);
    NamedKinds(ctx, item);
    forall callee ensures Names(ctx, item, callee) <==> v.Candidates? && callee in v.callees {
      NamedIs(ctx, item, callee);
    }
    if v.Candidates? {
      NamedIs(ctx, item, v.callees[0]);
      CandidatesDiffer(ctx, item);
      assert Names(ctx, item, v.callees[0]);
      if |v.callees| > 1 {
        assert Names(ctx, item, v.callees[1]) && v.callees[0].id != v.callees[1].id;
      }
    }
  }

  /** And what is no call moves. */
  lemma OtherBucket(ctx: Context, item: Item)
    requires !MayCall(item.ref)
    ensures BucketOf(ctx, item) == if item.ref.referenceKind == Some(TypeReference) then InTypeOnly else InUnsupported
  {
    hide ByTarget, ByName;
  }
}
