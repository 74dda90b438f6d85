/** The evidence ledger of a built graph, read off the references alone: the pairs they
    reach, how many references reach each pair, and the weight of the first of them. */
module CallGraphLedger {
  import opened JsMap
  import opened CallGraphTypes
  import opened CallGraphBuild
  import opened CallGraphIndexes
  import opened CallGraphEvidence

  // ---- the pairs in order of first reach -----------------------------------------

  function PairsWith(key: string, cands: seq<Symbol>): (ps: seq<Pair>)
    ensures |ps| == |cands|
    ensures forall i :: 0 <= i < |cands| ==> ps[i] == (key, cands[i].id)
  {
    if cands == [] then [] else PairsWith(key, cands[..|cands| - 1]) + [(key, cands[|cands| - 1].id)]
  }

  /** The pairs one reference contributes evidence to. */
  function PairsReached(ctx: Context, item: Item): seq<Pair> {
    if BucketOf(ctx, item) == InResolved then PairsWith(KeyOf(ctx, item), Classify(ctx, item).callees) else []
  }

  /** Every pair the references reach, once each. */
  function Reached(ctx: Context, items: seq<Item>): seq<Pair> {
    if items == [] then []
    else AddAll(Reached(ctx, items[..|items| - 1]), PairsReached(ctx, items[|items| - 1]))
  }

  lemma PairsReachedMeaning(ctx: Context, item: Item, p: Pair)
    requires WellIndexed(ctx)
    ensures p in PairsReached(ctx, item) <==> Reaches(ctx, item, p)
  {
    if BucketOf(ctx, item) == InResolved {
      BucketCandidates(ctx, item);
      var cands := Classify(ctx, item).callees;
      if Reaches(ctx, item, p) {
        var i :| 0 <= i < |cands| && cands[i].id == p.1 && CrossFile(ctx, item, cands[i]);
        assert PairsReached(ctx, item)[i] == p;
      }
    }
  }

  ghost predicate ReachedBySome(ctx: Context, items: seq<Item>, p: Pair) {
    exists i :: 0 <= i < |items| && Reaches(ctx, items[i], p)
  }

  lemma ReachedBySomeSnoc(ctx: Context, front: seq<Item>, item: Item, p: Pair)
    ensures ReachedBySome(ctx, front + [item], p) <==> ReachedBySome(ctx, front, p) || Reaches(ctx, item, p)
  {
    hide Reaches;
    var items := front + [item];
    if i :| 0 <= i < |items| && Reaches(ctx, items[i], p) && i < |front| { assert front[i] == items[i]; }
    if i :| 0 <= i < |front| && Reaches(ctx, front[i], p) { assert items[i] == front[i]; }
    assert items[|front|] == item;
  }

  /** The list holds exactly the reached pairs. */
  lemma {:induction false} ReachedMeaning(ctx: Context, items: seq<Item>, p: Pair)
    requires WellIndexed(ctx)
    ensures Distinct(Reached(ctx, items)) && (p in Reached(ctx, items) <==> ReachedBySome(ctx, items, p))
  {
    hide Reaches, PairsReached, AddAll, WellIndexed;
    if items == [] {
    } else {
      var front, item := items[..|items| - 1], items[|items| - 1];
      assert items == front + [item];
      ReachedMeaning(ctx, front, p);
      PairsReachedMeaning(ctx, item, p);
      AddAllMembers(Reached(ctx, front), PairsReached(ctx, item));
      ReachedBySomeSnoc(ctx, front, item, p);
    }
  }

  lemma AddRecordKeys(m: EdgeTable, item: Item, caller: Option<Symbol>, callee: Symbol, resolution: Resolution, n: nat)
    ensures Keys(AddRecord(m, item, caller, callee, resolution, n))
            == Add(Keys(m), (CallerKey(item.file, caller), callee.id))
  {
    var p := (CallerKey(item.file, caller), callee.id);
    match Get(m, p) {
      case Some(e) => PutKeys(m, p, Fold(e, item.ref));
      case None => PutKeys(m, p, FreshEdge(item, caller, callee, resolution, n));
    }
  }

  lemma {:induction false} TableUpToKeys(ctx: Context, m: EdgeTable, item: Item, caller: Option<Symbol>,
                                         cands: seq<Symbol>, resolution: Resolution, n: nat)
    requires n <= |cands| && AllCross(ctx, item, cands)
    ensures Keys(TableUpTo(ctx, m, item, caller, cands, resolution, n))
         == AddAll(Keys(m), PairsWith(CallerKey(item.file, caller), cands[..n]))
  {
    if n == 0 {
    } else {
      TableUpToKeys(ctx, m, item, caller, cands, resolution, n - 1);
      AddRecordKeys(TableUpTo(ctx, m, item, caller, cands, resolution, n - 1), item, caller, cands[n - 1],
        resolution, |cands|);
      assert cands[..n][..n - 1] == cands[..n - 1];
      var ps := PairsWith(CallerKey(item.file, caller), cands[..n]);
      assert ps[..n - 1] == PairsWith(CallerKey(item.file, caller), cands[..n - 1]);
    }
  }

  lemma StepKeys(ctx: Context, before: Book, item: Item)
    requires WellIndexed(ctx)
    ensures Keys(Step(ctx, false, before, item).table) == AddAll(Keys(before.table), PairsReached(ctx, item))
  {
    if BucketOf(ctx, item) == InResolved {
      BucketCandidates(ctx, item);
      var v := Classify(ctx, item);
      TableUpToKeys(ctx, before.table, item, CallerOf(ctx, item), v.callees, v.resolution, |v.callees|);
      assert v.callees[..|v.callees|] == v.callees;
    } else {
      OtherStep(ctx, before, item);
    }
  }

  /** The edges stand in the order in which their pairs were first reached. */
  lemma {:induction false} EdgesInOrderOfReach(ctx: Context, items: seq<Item>)
    requires WellIndexed(ctx)
    ensures Keys(Run(ctx, false, Initial(None), items).table) == Reached(ctx, items)
  {
    if items == [] {
    } else {
      EdgesInOrderOfReach(ctx, items[..|items| - 1]);
      StepKeys(ctx, Run(ctx, false, Initial(None), items[..|items| - 1]), items[|items| - 1]);
    }
  }

  // ---- the two sums --------------------------------------------------------------

  /** Weight given to the pair by the first reference that reaches it. */
  ghost function FirstWeight(ctx: Context, items: seq<Item>, p: Pair): (w: real)
    ensures w >= 0.0
  {
    if items == [] then 0.0
    else
      var front, item := items[..|items| - 1], items[|items| - 1];
      if ReachCount(ctx, front, p) == 0 && Reaches(ctx, item, p) then WeightFor(ctx, item)
      else FirstWeight(ctx, front, p)
  }

  /** Over some pairs: the number of references reaching the pair, times its weight. */
  ghost function PairEvidence(ctx: Context, items: seq<Item>, pairs: seq<Pair>): (sum: real)
    ensures sum >= 0.0
  {
    if pairs == [] then 0.0
    else
      var p := pairs[|pairs| - 1];
      TimesIsProduct(ReachCount(ctx, items, p), FirstWeight(ctx, items, p));
      PairEvidence(ctx, items, pairs[..|pairs| - 1]) + Times(ReachCount(ctx, items, p), FirstWeight(ctx, items, p))
  }

  /** The same, without the first reference to each pair. */
  ghost function PairDuplicates(ctx: Context, items: seq<Item>, pairs: seq<Pair>): real {
    if pairs == [] then 0.0
    else
      var p := pairs[|pairs| - 1];
      PairDuplicates(ctx, items, pairs[..|pairs| - 1]) + Times(ReachCount(ctx, items, p) - 1,
        FirstWeight(ctx, items, p))
  }

  /** Some pair of the reference was reached before. */
  ghost predicate ReachesAgain(ctx: Context, front: seq<Item>, item: Item) {
    exists p: Pair :: Reaches(ctx, item, p) && ReachCount(ctx, front, p) > 0
  }

  /** Number of references that come back to a reached pair. */
  ghost function Returns(ctx: Context, items: seq<Item>): nat {
    if items == [] then 0
    else Returns(ctx, items[..|items| - 1])
         + (if ReachesAgain(ctx, items[..|items| - 1], items[|items| - 1]) then 1 else 0)
  }

  ghost predicate EntryCounts(ctx: Context, items: seq<Item>, p: Pair, e: Edge) {
    EvidenceCount(e) == ReachCount(ctx, items, p) && e.weight == FirstWeight(ctx, items, p)
  }

  lemma {:induction false} EntryIsCounted(ctx: Context, items: seq<Item>, p: Pair)
    requires WellIndexed(ctx)
    ensures TableEntry(ctx, items, p).None? <==> ReachCount(ctx, items, p) == 0
    ensures TableEntry(ctx, items, p).Some? ==> EntryCounts(ctx, items, p, TableEntry(ctx, items, p).value)
  {
    if items == [] {
    } else {
      var front, item := items[..|items| - 1], items[|items| - 1];
      EntryIsCounted(ctx, front, p);
      if Reaches(ctx, item, p) { ReachedIsIndexed(ctx, item, p); }
    }
  }

  lemma {:induction false} SumsOverEdges(ctx: Context, items: seq<Item>, pairs: seq<Pair>, edges: seq<Edge>)
    requires |pairs| == |edges| && forall i :: 0 <= i < |edges| ==> EntryCounts(ctx, items, pairs[i], edges[i])
    ensures WeightedEvidence(edges) == PairEvidence(ctx, items, pairs)
    ensures WeightedDuplicates(edges) == PairDuplicates(ctx, items, pairs)
  {
    if edges == [] {
    } else {
      SumsOverEdges(ctx, items, pairs[..|pairs| - 1], edges[..|edges| - 1]);
      assert EntryCounts(ctx, items, pairs[|pairs| - 1], edges[|edges| - 1]);
    }
  }

  /** The weighted sides of the ledger are the two sums over the reached pairs. */
  lemma LedgerIsPairSums(ctx: Context, items: seq<Item>)
    requires WellIndexed(ctx)
    ensures var edges := Edges(Run(ctx, false, Initial(None), items).table);
            && WeightedEvidence(edges) == PairEvidence(ctx, items, Reached(ctx, items))
            && WeightedDuplicates(edges) == PairDuplicates(ctx, items, Reached(ctx, items))
  {
    hide Run, WeightedEvidence, WeightedDuplicates, PairEvidence, PairDuplicates, EntryCounts, TableEntry;
    var m := Run(ctx, false, Initial(None), items).table;
    EdgesInOrderOfReach(ctx, items);
    RunKeyed(ctx, false, Initial(None), items);
    forall i | 0 <= i < |m| ensures EntryCounts(ctx, items, Reached(ctx, items)[i], Edges(m)[i]) {
      GetAt(m, i);
      EdgeTableExact(ctx, false, Initial(None), items, m[i].0);
      EntryIsCounted(ctx, items, m[i].0);
      assert Keys(m)[i] == m[i].0;
    }
    SumsOverEdges(ctx, items, Reached(ctx, items), Edges(m));
  }

  lemma SomePairIsReturn(ctx: Context, front: seq<Item>, item: Item)
    requires WellIndexed(ctx) && BucketOf(ctx, item) == InResolved && Classify(ctx, item).Candidates?
    ensures SomePairExists(Run(ctx, false, Initial(None), front).table, KeyOf(ctx, item), Classify(ctx, item).callees)
      <==> ReachesAgain(ctx, front, item)
  {
    hide Run, TableEntry, EntryCounts;
    var m, cands := Run(ctx, false, Initial(None), front).table, Classify(ctx, item).callees;
    BucketCandidates(ctx, item);
    forall i | 0 <= i < |cands|
      ensures PairExists(m, KeyOf(ctx, item), cands[i]) <==> ReachCount(ctx, front, (KeyOf(ctx, item), cands[i].id)) > 0
    {
      var p: Pair := (KeyOf(ctx, item), cands[i].id);
      EdgeTableExact(ctx, false, Initial(None), front, p);
      EntryIsCounted(ctx, front, p);
    }
    if i :| 0 <= i < |cands| && PairExists(m, KeyOf(ctx, item), cands[i]) {
      assert Reaches(ctx, item, (KeyOf(ctx, item), cands[i].id));
    }
    if p: Pair :| Reaches(ctx, item, p) && ReachCount(ctx, front, p) > 0 {
      var i :| 0 <= i < |cands| && cands[i].id == p.1 && CrossFile(ctx, item, cands[i]);
      assert p == (KeyOf(ctx, item), cands[i].id);
    }
  }

  /** The raw duplicate counter is the number of references that come back to a pair. */
  lemma {:induction false} DuplicatesAreReturns(ctx: Context, items: seq<Item>)
    requires WellIndexed(ctx)
    ensures Run(ctx, false, Initial(None), items).coverage.duplicateEvidence == Returns(ctx, items)
  {
    hide Run, ReachesAgain, SomePairExists;
    if items == [] {
      assert Run(ctx, false, Initial(None), []) == Initial(None) by { EmptyRun(ctx); }
    } else {
      var front, item := items[..|items| - 1], items[|items| - 1];
      assert items == front + [item];
      DuplicatesAreReturns(ctx, front);
      StepLedger(ctx, front, item);
      if BucketOf(ctx, item) == InResolved {
        SomePairIsReturn(ctx, front, item);
      } else {
        NothingAgain(ctx, front, item);
      }
    }
  }

  lemma EmptyRun(ctx: Context)
    ensures Run(ctx, false, Initial(None), []) == Initial(None)
  {}

  lemma NothingAgain(ctx: Context, front: seq<Item>, item: Item)
    requires BucketOf(ctx, item) != InResolved
    ensures !ReachesAgain(ctx, front, item)
  {
    assert forall p: Pair :: !Reaches(ctx, item, p);
  }
}
