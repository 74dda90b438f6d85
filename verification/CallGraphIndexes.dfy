/** What every call graph built by `buildCallGraph` satisfies, for every reference
    sequence and both coverage modes: its maps are the projections of its edges, and its
    edge table is determined reference by reference. */
module CallGraphIndexes {
  import opened JsMap
  import opened CallGraphTypes
  import opened CallGraphIndex
  import opened CallGraphBuild

  // ---- the maps agree with the edge list -----------------------------------------

  ghost predicate NoSameFile(norm: string -> string, edges: seq<Edge>) {
    forall i :: 0 <= i < |edges| ==> norm(edges[i].callerFile) != norm(edges[i].calleeFile)
  }

  lemma AddRecordCross(ctx: Context, m: EdgeTable, item: Item, caller: Option<Symbol>, callee: Symbol,
                       resolution: Resolution, n: nat)
    requires NoSameFile(ctx.norm, Edges(m)) && CrossFile(ctx, item, callee)
    ensures NoSameFile(ctx.norm, Edges(AddRecord(m, item, caller, callee, resolution, n)))
  {
    var p := (CallerKey(item.file, caller), callee.id);
    if Get(m, p).Some? {
      var i := FoldedRecord(m, p, item.ref);
    } else {
      NewRecord(m, FreshEdge(item, caller, callee, resolution, n));
    }
  }

  lemma {:induction false} TableUpToKeyed(ctx: Context, m: EdgeTable, item: Item, caller: Option<Symbol>,
                                          cands: seq<Symbol>, resolution: Resolution, n: nat)
    requires n <= |cands| && Keyed(m) && NoSameFile(ctx.norm, Edges(m))
    ensures Keyed(TableUpTo(ctx, m, item, caller, cands, resolution, n))
    ensures NoSameFile(ctx.norm, Edges(TableUpTo(ctx, m, item, caller, cands, resolution, n)))
  {
    if n == 0 {
    } else {
      TableUpToKeyed(ctx, m, item, caller, cands, resolution, n - 1);
      if CrossFile(ctx, item, cands[n - 1]) {
        var before := TableUpTo(ctx, m, item, caller, cands, resolution, n - 1);
        AddRecordKeyed(before, item, caller, cands[n - 1], resolution, |cands|);
        AddRecordCross(ctx, before, item, caller, cands[n - 1], resolution, |cands|);
      }
    }
  }

  lemma {:induction false} RunKeyed(ctx: Context, has: bool, init: Book, items: seq<Item>)
    requires init.table == []
    ensures Keyed(Run(ctx, has, init, items).table) && NoSameFile(ctx.norm, Edges(Run(ctx, has, init, items).table))
  {
    if items == [] {
      assert Edges(init.table) == [];
    } else {
      var front, item := items[..|items| - 1], items[|items| - 1];
      RunKeyed(ctx, has, init, front);
      match Classify(ctx, item) {
        case Candidates(cands, resolution) =>
          TableUpToKeyed(ctx, Run(ctx, has, init, front).table, item, CallerOf(ctx, item), cands, resolution, |cands|);
        case _ =>
      }
    }
  }

  /** The declarative reading of a graph's indexes. */
  ghost predicate IndexesAgree(norm: string -> string, g: FunctionCallGraph) {
    && DistinctPairs(g.edges)
    && (forall i :: 0 <= i < |g.edges| ==> norm(g.edges[i].callerFile) != norm(g.edges[i].calleeFile))
    && Unique(g.callees) && Unique(g.callers) && Unique(g.inDegree)
    && (forall k :: Get(g.callees, k) == if Leaves(g.edges, k) then Some(CalleesOf(g.edges, k)) else None)
    && (forall k :: Get(g.callers, k) == if Enters(g.edges, k) then Some(CallersOf(g.edges, k)) else None)
    && (forall k :: Get(g.inDegree, k) == if Enters(g.edges, k) then Some(WeightInto(g.edges, k)) else None)
  }

  lemma KeyedIsDistinct(m: EdgeTable)
    requires Keyed(m)
    ensures DistinctPairs(Edges(m))
  {
    forall i, j | 0 <= i < j < |m|
      ensures Edges(m)[i].callerKey != Edges(m)[j].callerKey || Edges(m)[i].calleeKey != Edges(m)[j].calleeKey
    {
      assert m[i].0 != m[j].0;
    }
  }

  /** Edges have distinct caller/callee pairs, none is same-file, and `callees`, `callers`
      and `inDegree` are exactly the projections and weight sums of the edges. */
  lemma BuiltIndexesAgree(norm: string -> string, stdlib: set<string>, symbols: SymbolTable,
                          refs: RefTable, input: Option<Coverage>, builtAt: string)
    ensures IndexesAgree(norm, Graph(norm, stdlib, symbols, refs, input, builtAt))
  {
    var b := Run(ContextFor(norm, stdlib, symbols), input.Some?, Initial(input), Items(refs));
    RunKeyed(ContextFor(norm, stdlib, symbols), input.Some?, Initial(input), Items(refs));
    var edges := Edges(b.table);
    KeyedIsDistinct(b.table);
    ViewsAreMaps(edges);
    forall k ensures Get(Outgoing(edges), k) == if Leaves(edges, k) then Some(CalleesOf(edges, k)) else None {
      OutgoingIsProjection(edges, k);
    }
    forall k ensures Get(Incoming(edges), k) == if Enters(edges, k) then Some(CallersOf(edges, k)) else None {
      IncomingIsProjection(edges, k);
    }
    forall k ensures Get(InDegrees(edges), k) == if Enters(edges, k) then Some(WeightInto(edges, k)) else None {
      InDegreesIsSum(edges, k);
    }
  }

  // ---- the candidates of a reference ---------------------------------------------

  ghost predicate WellIndexed(ctx: Context) {
    ctx.index == IndexOf(AllSymbols(ctx.canonical))
  }

  ghost predicate DistinctIds(cands: seq<Symbol>) {
    forall i, j :: 0 <= i < j < |cands| ==> cands[i].id != cands[j].id
  }

  lemma {:induction false} CrossFileDefsMembers(ctx: Context, item: Item, ids: seq<string>)
    requires WellIndexed(ctx) && Distinct(ids)
    ensures var cross := CrossFileDefs(ctx, ctx.norm(item.file), ids);
            && DistinctIds(cross)
            && (forall i :: 0 <= i < |cross| ==>
                  cross[i].id in ids && CrossFile(ctx, item, cross[i])
                    && Get(ctx.index.byId, cross[i].id) == Some(cross[i]))
            && (forall id :: id in ids && Get(ctx.index.byId, id).Some? ==>
                  CrossFile(ctx, item, Get(ctx.index.byId, id).value) ==> Get(ctx.index.byId, id).value in cross)
  {
    if ids == [] {
    } else {
      var front, id := ids[..|ids| - 1], ids[|ids| - 1];
      CrossFileDefsMembers(ctx, item, front);
      ByIdIsLastCarrier(AllSymbols(ctx.canonical), id);
      var rest := CrossFileDefs(ctx, ctx.norm(item.file), front);
      forall i | 0 <= i < |rest| ensures rest[i].id != id && rest[i].id in ids {
        var j :| 0 <= j < |front| && front[j] == rest[i].id;
        assert ids[j] == front[j];
      }
      forall other | other in ids && other != id ensures other in front {
        var j :| 0 <= j < |ids| && ids[j] == other;
        assert front[j] == other;
      }
    }
  }

  /** Candidates come from the id table, at most once each, and a reference is either
      entirely cross-file or one same-file target. */
  lemma CandidatesAreIndexed(ctx: Context, item: Item)
    requires WellIndexed(ctx) && Classify(ctx, item).Candidates?
    ensures var cands := Classify(ctx, item).callees;
            && |cands| > 0 && DistinctIds(cands)
            && (forall i :: 0 <= i < |cands| ==> Get(ctx.index.byId, cands[i].id) == Some(cands[i]))
            && (|cands| == 1 || forall i :: 0 <= i < |cands| ==> CrossFile(ctx, item, cands[i]))
            && (item.ref.evidenceKind.Some? ==> |cands| == 1)
  {
    var symbols := AllSymbols(ctx.canonical);
    if Truthy(item.ref.targetId) {
      ByIdIsLastCarrier(symbols, item.ref.targetId.value);
    } else {
      ByNameIsCarriers(symbols, RefName(item), "");
      CrossFileDefsMembers(ctx, item, IdsNamed(symbols, RefName(item)));
    }
  }

  // ---- the edge table, reference by reference ------------------------------------

  /** The reference contributes evidence to this caller/callee pair. */
  ghost predicate Reaches(ctx: Context, item: Item, p: Pair) {
    && Classify(ctx, item).Candidates?
    && p.0 == CallerKey(item.file, CallerOf(ctx, item))
    && exists i :: 0 <= i < |Classify(ctx, item).callees|
                   && Classify(ctx, item).callees[i].id == p.1
                   && CrossFile(ctx, item, Classify(ctx, item).callees[i])
  }

  /** The edge one reference creates for a pair it reaches first. */
  function FirstEdge(ctx: Context, item: Item, callee: Symbol): Edge {
    var v := Classify(ctx, item);
    match v
    case Candidates(cands, resolution) => FreshEdge(item, CallerOf(ctx, item), callee, resolution, |cands|)
    case _ => FreshEdge(item, CallerOf(ctx, item), callee, Unresolved, 0)
  }

  /** What one reference does to the entry of a pair. */
  ghost function Contribute(ctx: Context, item: Item, p: Pair, before: Option<Edge>): Option<Edge> {
    if !Reaches(ctx, item, p) then before
    else match before
         case Some(e) => Some(Fold(e, item.ref))
         case None => match Get(ctx.index.byId, p.1)
                      case Some(callee) => Some(FirstEdge(ctx, item, callee))
                      case None => None
  }

  /** Reference definition of the edge table: the entry of one pair after some references. */
  ghost function TableEntry(ctx: Context, items: seq<Item>, p: Pair): Option<Edge> {
    if items == [] then None
    else Contribute(ctx, items[|items| - 1], p, TableEntry(ctx, items[..|items| - 1], p))
  }

  lemma AddRecordGet(m: EdgeTable, item: Item, caller: Option<Symbol>, callee: Symbol, resolution: Resolution,
                     n: nat, p: Pair)
    ensures Get(AddRecord(m, item, caller, callee, resolution, n), p)
         == if p == (CallerKey(item.file, caller), callee.id)
            then Some(match Get(m, p) case Some(e) => Fold(e, item.ref)
                                      case None => FreshEdge(item, caller, callee, resolution, n))
            else Get(m, p)
  {
    var q := (CallerKey(item.file, caller), callee.id);
    match Get(m, q) {
      case Some(e) => PutGet(m, q, Fold(e, item.ref), p);
      case None => PutGet(m, q, FreshEdge(item, caller, callee, resolution, n), p);
    }
  }

  /** The pair is that of this candidate. */
  predicate Hits(ctx: Context, item: Item, caller: Option<Symbol>, callee: Symbol, p: Pair) {
    p == (CallerKey(item.file, caller), callee.id) && CrossFile(ctx, item, callee)
  }

  lemma {:induction false} TableUpToMiss(ctx: Context, m: EdgeTable, item: Item, caller: Option<Symbol>,
                                         cands: seq<Symbol>, resolution: Resolution, n: nat, p: Pair)
    requires n <= |cands| && forall i :: 0 <= i < n ==> !Hits(ctx, item, caller, cands[i], p)
    ensures Get(TableUpTo(ctx, m, item, caller, cands, resolution, n), p) == Get(m, p)
  {
    if n == 0 {
    } else {
      TableUpToMiss(ctx, m, item, caller, cands, resolution, n - 1, p);
      var before := TableUpTo(ctx, m, item, caller, cands, resolution, n - 1);
      AddRecordGet(before, item, caller, cands[n - 1], resolution, |cands|, p);
    }
  }

  lemma {:induction false} TableUpToHit(ctx: Context, m: EdgeTable, item: Item, caller: Option<Symbol>,
                                        cands: seq<Symbol>, resolution: Resolution, n: nat, p: Pair, k: nat)
    requires n <= |cands| && DistinctIds(cands) && k < n && Hits(ctx, item, caller, cands[k], p)
    ensures Get(TableUpTo(ctx, m, item, caller, cands, resolution, n), p)
         == Some(match Get(m, p) case Some(e) => Fold(e, item.ref)
                                 case None => FreshEdge(item, caller, cands[k], resolution, |cands|))
  {
    var before := TableUpTo(ctx, m, item, caller, cands, resolution, n - 1);
    AddRecordGet(before, item, caller, cands[n - 1], resolution, |cands|, p);
    if k == n - 1 {
      TableUpToMiss(ctx, m, item, caller, cands, resolution, n - 1, p);
    } else {
      TableUpToHit(ctx, m, item, caller, cands, resolution, n - 1, p, k);
    }
  }

  lemma StepTable(ctx: Context, has: bool, b: Book, item: Item, p: Pair)
    requires WellIndexed(ctx)
    ensures Get(Step(ctx, has, b, item).table, p) == Contribute(ctx, item, p, Get(b.table, p))
  {
    match Classify(ctx, item) {
      case Candidates(cands, resolution) =>
        CandidatesAreIndexed(ctx, item);
        var caller := CallerOf(ctx, item);
        if Reaches(ctx, item, p) {
          var k :| 0 <= k < |cands| && cands[k].id == p.1 && CrossFile(ctx, item, cands[k]);
          TableUpToHit(ctx, b.table, item, caller, cands, resolution, |cands|, p, k);
        } else {
          TableUpToMiss(ctx, b.table, item, caller, cands, resolution, |cands|, p);
        }
      case _ =>
    }
  }

  /** After any references the table holds exactly the reference entry for every pair. */
  lemma {:induction false} EdgeTableExact(ctx: Context, has: bool, init: Book, items: seq<Item>, p: Pair)
    requires WellIndexed(ctx) && init.table == []
    ensures Get(Run(ctx, has, init, items).table, p) == TableEntry(ctx, items, p)
  {
    if items == [] {
    } else {
      EdgeTableExact(ctx, has, init, items[..|items| - 1], p);
      StepTable(ctx, has, Run(ctx, has, init, items[..|items| - 1]), items[|items| - 1], p);
    }
  }

  // ---- reading an entry off the references ---------------------------------------

  /** Number of references that reach the pair. */
  ghost function ReachCount(ctx: Context, items: seq<Item>, p: Pair): nat {
    if items == [] then 0
    else ReachCount(ctx, items[..|items| - 1], p) + (if Reaches(ctx, items[|items| - 1], p) then 1 else 0)
  }

  /** The first reference that reaches the pair. */
  ghost predicate FirstReach(ctx: Context, items: seq<Item>, p: Pair, f: nat) {
    f < |items| && Reaches(ctx, items[f], p) && forall i :: 0 <= i < f ==> !Reaches(ctx, items[i], p)
  }

  ghost predicate AllTagged(ctx: Context, items: seq<Item>, p: Pair, kind: Option<EvidenceKind>) {
    forall i :: 0 <= i < |items| && Reaches(ctx, items[i], p) ==> items[i].ref.evidenceKind == kind
  }

  lemma ReachedIsIndexed(ctx: Context, item: Item, p: Pair)
    requires WellIndexed(ctx) && Reaches(ctx, item, p)
    ensures Get(ctx.index.byId, p.1).Some? && Get(ctx.index.byId, p.1).value.id == p.1
    ensures CrossFile(ctx, item, Get(ctx.index.byId, p.1).value)
  {
    CandidatesAreIndexed(ctx, item);
  }

  /** The entry `e` of a pair first reached by reference `f`: it counts the references that
      reach the pair, takes endpoints, resolution and weight from the first of them, and its
      evidence kind is their common tag, or mixed. */
  ghost predicate Summarizes(ctx: Context, items: seq<Item>, p: Pair, f: nat, e: Edge) {
    && FirstReach(ctx, items, p, f)
    && Get(ctx.index.byId, p.1).Some?
    && e.evidenceCount == Some(ReachCount(ctx, items, p))
    && e.evidenceKind == (if AllTagged(ctx, items, p, items[f].ref.evidenceKind)
                          then items[f].ref.evidenceKind else Some(Mixed))
    && e == FirstEdge(ctx, items[f], Get(ctx.index.byId, p.1).value)
            .(evidenceCount := e.evidenceCount, evidenceKind := e.evidenceKind)
  }

  lemma FirstReachExtends(ctx: Context, front: seq<Item>, last: Item, p: Pair, f: nat)
    requires FirstReach(ctx, front, p, f)
    ensures FirstReach(ctx, front + [last], p, f)
  {
    assert forall i :: 0 <= i < |front| ==> front[i] == (front + [last])[i];
  }

  lemma AllTaggedSnoc(ctx: Context, front: seq<Item>, last: Item, p: Pair, kind: Option<EvidenceKind>)
    ensures AllTagged(ctx, front + [last], p, kind)
      <==> AllTagged(ctx, front, p, kind) && (Reaches(ctx, last, p) ==> last.ref.evidenceKind == kind)
  {
    var items := front + [last];
    assert forall i :: 0 <= i < |front| ==> front[i] == items[i];
    assert items[|front|] == last;
  }

  lemma ReachCountSnoc(ctx: Context, front: seq<Item>, last: Item, p: Pair)
    ensures ReachCount(ctx, front + [last], p) == ReachCount(ctx, front, p) + (if Reaches(ctx, last, p) then 1 else 0)
  {
    assert (front + [last])[..|front|] == front;
  }

  lemma SummaryExtends(ctx: Context, front: seq<Item>, last: Item, p: Pair, f: nat, e: Edge)
    requires Summarizes(ctx, front, p, f, e)
    ensures Summarizes(ctx, front + [last], p, f, if Reaches(ctx, last, p) then Fold(e, last.ref) else e)
  {
    hide AllTagged, ReachCount;
    var items := front + [last];
    assert items[f] == front[f];
    FirstReachExtends(ctx, front, last, p, f);
    AllTaggedSnoc(ctx, front, last, p, items[f].ref.evidenceKind);
    ReachCountSnoc(ctx, front, last, p);
  }

  /** An edge exists exactly for the pairs some reference reaches, and it summarizes the
      references that reach it. */
  lemma {:induction false} EntryIsEvidence(ctx: Context, items: seq<Item>, p: Pair)
    requires WellIndexed(ctx)
    ensures TableEntry(ctx, items, p).None? <==> forall i :: 0 <= i < |items| ==> !Reaches(ctx, items[i], p)
    ensures TableEntry(ctx, items, p).None? ==> ReachCount(ctx, items, p) == 0
    ensures TableEntry(ctx, items, p).Some? ==>
      exists f: nat :: Summarizes(ctx, items, p, f, TableEntry(ctx, items, p).value)
  {
    if items == [] {
    } else {
      var front, last := items[..|items| - 1], items[|items| - 1];
      EntryIsEvidence(ctx, front, p);
      assert items == front + [last];
      assert forall i :: 0 <= i < |front| ==> front[i] == items[i];
      if TableEntry(ctx, front, p).Some? {
        var e := TableEntry(ctx, front, p).value;
        var f: nat :| Summarizes(ctx, front, p, f, e);
        SummaryExtends(ctx, front, last, p, f, e);
        assert Reaches(ctx, items[f], p);
      } else if Reaches(ctx, last, p) {
        ReachedIsIndexed(ctx, last, p);
        assert AllTagged(ctx, items, p, last.ref.evidenceKind);
        assert Summarizes(ctx, items, p, |front|, TableEntry(ctx, items, p).value);
        assert items[|front|] == last;
      }
    }
  }
}
