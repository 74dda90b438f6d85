/** Graphs with pairs that mix ambiguous and unambiguous evidence: the first mixing reference
    upsets the ledger and gets the graph refused; several of them can cancel out. */
module CallGraphMixing {
  import opened JsMap
  import opened Text
  import opened SymbolId
  import opened CallGraphTypes
  import opened CallGraphIndex
  import opened CallGraphBuild
  import opened CallGraphIndexes
  import opened CallGraphEvidence
  import opened CallGraphLedger
  import opened CallGraphPersist
  import opened CallGraphRoundTrip

  // ---- the first mixed pair is refused -------------------------------------------

  /** A difference of half a record exceeds the relative tolerance below this many records. */
  const VISIBLE_RECORDS := 500000000

  lemma HalfIsVisible(evidence: real, resolved: int)
    requires evidence >= 0.0 && 1 <= resolved < VISIBLE_RECORDS
    requires evidence >= resolved as real + 0.5 || evidence <= resolved as real - 0.5
    ensures !CountsMatch(evidence, resolved as real)
  {}

  lemma CountInBound(ctx: Context, items: seq<Item>)
    ensures CountIn(ctx, items, InResolved) <= |items|
  {
    BucketsPartition(ctx, items);
  }

  /** The first reference that mixes with an earlier one puts the edges at least half a record
      above the raw count if it is ambiguous, and at least half a record below if it is not. */
  lemma FirstMixingMargin(ctx: Context, front: seq<Item>, item: Item)
    requires WellIndexed(ctx) && Coherent(ctx, front + [item])
    requires NoMixedPair(ctx, front) && MixesWithAny(ctx, front, item)
    ensures var items := front + [item];
            var evidence := PairEvidence(ctx, items, Reached(ctx, items));
            && 1 <= CountIn(ctx, items, InResolved) <= |front| + 1
            && if Ambiguous(ctx, item) then evidence >= CountIn(ctx, items, InResolved) as real + 0.5
               else evidence <= CountIn(ctx, items, InResolved) as real - 0.5
  {
    hide Run, Coherent, NoMixedPair, MixesWithAny, BucketOf, PairEvidence, Ambiguous, CountIn, GainOf, Mixes;
    var items := front + [item];
    CoherentPrefix(ctx, items, |front|);
    assert items[..|front|] == front;
    BalancedThroughoutIffUnmixed(ctx, front);
    ThroughoutAtEnd(ctx, front);
    if BucketOf(ctx, item) != InResolved { NotResolvedReachesNothing(ctx, front, item); }
    StepLedger(ctx, front, item);
    MixedGain(ctx, front, item, Run(ctx, false, Initial(None), front).table);
    RunCountsBuckets(ctx, front);
    RunCountsBuckets(ctx, items);
    CountInBound(ctx, front);
    LedgerIsPairSums(ctx, items);
  }

  /** After any unmixed references, in either order of the two, the reference that creates the
      first mixed pair makes the builder's own graph one the validator refuses, so it can never
      be served from the cache. */
  lemma FirstMixedPairIsRefused(norm: string -> string, stdlib: set<string>, symbols: SymbolTable, refs: RefTable,
                                builtAt: string, id: Identity, front: seq<Item>, item: Item)
    requires WellFormedInput(norm, stdlib, symbols, refs) && Items(refs) == front + [item]
    requires |Items(refs)| < VISIBLE_RECORDS
    requires var ctx := ContextFor(norm, stdlib, symbols);
             NoMixedPair(ctx, front) && MixesWithAny(ctx, front, item)
    ensures var g := Graph(norm, stdlib, symbols, refs, None, builtAt);
            g.coverage.Some? && !Accepts(norm, Save(g, id), g.coverage.value)
  {
    hide Graph, LedgerOk, Items, ContextFor, WellFormedInput, MixesWithAny, NoMixedPair, Coherent, CountsMatch;
    var ctx := ContextFor(norm, stdlib, symbols);
    WellFormedIsCoherent(norm, stdlib, symbols, refs);
    ContextIndexed(norm, stdlib, symbols);
    FirstMixingMargin(ctx, front, item);
    var items := Items(refs);
    HalfIsVisible(PairEvidence(ctx, items, Reached(ctx, items)), CountIn(ctx, items, InResolved));
    LedgerOkIffConserved(norm, stdlib, symbols, refs, builtAt, id);
  }

  // ---- examples ------------------------------------------------------------------

  /** Two files define `foo`; a third calls it once by canonical target and once by name. */
  const FOO_A := Symbol(BuildSymbolId("a", "foo", "function", 1), "foo", "function", "a", 1, None, 0)
  const FOO_B := Symbol(BuildSymbolId("b", "foo", "function", 1), "foo", "function", "b", 1, None, 0)
  const TO_A := SymbolRef("", None, 1, None, None, Some(FOO_A.id), None, None)
  const TO_B := SymbolRef("", None, 1, None, None, Some(FOO_B.id), None, None)
  const BY_NAME := SymbolRef("", Some("foo"), 2, None, None, None, None, None)

  function SameSpelling(s: string): string { s }
  function MixedSymbols(): SymbolTable { [("a", [FOO_A]), ("b", [FOO_B])] }
  function MixedRefs(): RefTable { [("c", [TO_A, BY_NAME])] }

  /** The index of the two definitions. */
  lemma MixedIndex()
    ensures var ctx := ContextFor(SameSpelling, {}, MixedSymbols());
            && ctx.canonical == MixedSymbols()
            && Get(ctx.index.byId, FOO_A.id) == Some(FOO_A) && Get(ctx.index.byId, FOO_B.id) == Some(FOO_B)
            && Get(ctx.index.byName, "foo") == Some([FOO_A.id, FOO_B.id])
  {
    var norm, all := SameSpelling, MixedSymbols();
    assert norm("a") == "a" && norm("b") == "b" && "a"[0] != "b"[0];
    assert all[..1] == [("a", [FOO_A])] && all[..1][..0] == [];
    assert CanonicalSymbols(norm, all[..1]) == [("a", [FOO_A])];
    var one := [("a", [FOO_A])];
    assert Put(one, "b", [FOO_B]) == [one[0]] + Put(one[1..], "b", [FOO_B]);
    assert CanonicalSymbols(norm, all) == all;
    assert AllSymbols(all[..1]) == [FOO_A];
    assert AllSymbols(all) == [FOO_A, FOO_B];
    IndexSnoc([], FOO_A);
    IndexSnoc([FOO_A], FOO_B);
    assert [] + [FOO_A] == [FOO_A] && [FOO_A] + [FOO_B] == [FOO_A, FOO_B];
    assert FOO_A.id[0] == 'a' && FOO_B.id[0] == 'b';
    assert Indexed(FOO_A) && Indexed(FOO_B);
    var first := AddSymbol(DefIndex([], []), FOO_A);
    assert first.byId == [(FOO_A.id, FOO_A)];
    assert Add([], FOO_A.id) == [FOO_A.id];
    assert Add([FOO_A.id], FOO_B.id) == [FOO_A.id, FOO_B.id];
    assert first.byName == [("foo", [FOO_A.id])];
    assert AddSymbol(first, FOO_B).byName == [("foo", [FOO_A.id, FOO_B.id])];
  }

  lemma IndexSnoc(symbols: seq<Symbol>, sym: Symbol)
    ensures IndexOf(symbols + [sym]) == AddSymbol(IndexOf(symbols), sym)
  {
    assert (symbols + [sym])[..|symbols|] == symbols;
  }

  function MixedContext(): Context { ContextFor(SameSpelling, {}, MixedSymbols()) }
  function ByTargetItem(): Item { Item("c", TO_A) }
  function ByNameItem(): Item { Item("c", BY_NAME) }

  /** What the three kinds of reference are resolved to, from a file other than the two
      definitions'. */
  lemma ResolvedFrom(file: string)
    requires file == "c" || file == "d"
    ensures Classify(MixedContext(), Item(file, TO_A)) == Candidates([FOO_A], Exact)
    ensures Classify(MixedContext(), Item(file, TO_B)) == Candidates([FOO_B], Exact)
    ensures Classify(MixedContext(), Item(file, BY_NAME)) == Candidates([FOO_A, FOO_B], NameOnly)
  {
    MixedIndex();
    var ctx := MixedContext();
    assert "a"[0] != file[0] && "b"[0] != file[0] && TO_A.targetId.value[0] == 'a' && TO_B.targetId.value[0] == 'b';
    var ids := [FOO_A.id, FOO_B.id];
    assert ids[..1] == [FOO_A.id] && ids[..1][..0] == [];
    assert CrossFileDefs(ctx, file, ids[..1]) == [FOO_A];
    assert CrossFileDefs(ctx, file, ids) == [FOO_A, FOO_B];
  }

  lemma CalledFrom(file: string, ref: SymbolRef)
    requires (file == "c" || file == "d") && (ref == TO_A || ref == TO_B || ref == BY_NAME)
    ensures KeyOf(MixedContext(), Item(file, ref)) == "file:" + file
    ensures CrossFile(MixedContext(), Item(file, ref), FOO_A) && CrossFile(MixedContext(), Item(file, ref), FOO_B)
  {
    MixedIndex();
    var ctx := MixedContext();
    assert "a"[0] != file[0] && "b"[0] != file[0];
    assert ctx.norm("a") == "a" && ctx.norm("b") == "b" && ctx.norm(file) == file;
    assert FOO_A.filePath == "a" && FOO_B.filePath == "b";
    assert Get(MixedSymbols(), file) == None;
  }

  /** And the pairs they reach. */
  lemma ReachedFrom(file: string)
    requires file == "c" || file == "d"
    ensures WellIndexed(MixedContext())
    ensures Classify(MixedContext(), Item(file, TO_A)) == Candidates([FOO_A], Exact)
    ensures Classify(MixedContext(), Item(file, TO_B)) == Candidates([FOO_B], Exact)
    ensures Classify(MixedContext(), Item(file, BY_NAME)) == Candidates([FOO_A, FOO_B], NameOnly)
    ensures PairsReached(MixedContext(), Item(file, TO_A)) == [("file:" + file, FOO_A.id)]
    ensures PairsReached(MixedContext(), Item(file, TO_B)) == [("file:" + file, FOO_B.id)]
    ensures PairsReached(MixedContext(), Item(file, BY_NAME))
            == [("file:" + file, FOO_A.id), ("file:" + file, FOO_B.id)]
  {
    hide Classify, KeyOf, CrossFile, ContextFor, PairsReached;
    ContextIndexed(SameSpelling, {}, MixedSymbols());
    ResolvedFrom(file);
    CalledFrom(file, TO_A);
    CalledFrom(file, TO_B);
    CalledFrom(file, BY_NAME);
    PairsOfCandidates(MixedContext(), Item(file, TO_A), [FOO_A], Exact);
    PairsOfCandidates(MixedContext(), Item(file, TO_B), [FOO_B], Exact);
    PairsOfCandidates(MixedContext(), Item(file, BY_NAME), [FOO_A, FOO_B], NameOnly);
  }

  lemma PairsOfCandidates(ctx: Context, item: Item, cands: seq<Symbol>, resolution: Resolution)
    requires Classify(ctx, item) == Candidates(cands, resolution) && cands != [] && CrossFile(ctx, item, cands[0])
    ensures PairsReached(ctx, item) == PairsWith(KeyOf(ctx, item), cands)
  {}

  lemma MixedItems()
    ensures Items(MixedRefs()) == [ByTargetItem(), ByNameItem()]
  {
    assert MixedRefs()[..0] == [];
    assert Items(MixedRefs()) == Items([]) + ItemsOf("c", [TO_A, BY_NAME]);
  }

  lemma FunctionIsKind()
    ensures IsKindToken("function") && !IsBlank("function") && !IsBlank("foo") && ':' !in "foo" && IsOneLine("foo")
  {
    assert "function"[0] == 'f' && "foo"[0] == 'f';
  }

  lemma MintedFoo(norm: string -> string, file: string, sym: Symbol)
    requires sym == Symbol(BuildSymbolId(file, "foo", "function", 1), "foo", "function", file, 1, None, 0)
    requires Mintable(file, "foo") && !IsBlank(file)
    ensures WellFormedSymbol(norm, file, sym)
  {
    FunctionIsKind();
    MintedIsCanonical(norm, sym, file, 1);
    assert sym.id[..|file|] == file;
    var i :| 0 <= i < |file| && !IsSpace(file[i]);
    assert sym.id[i] == file[i];
  }

  lemma OneLetterFile(file: string)
    requires file == "a" || file == "b"
    ensures Mintable(file, "foo") && !IsBlank(file)
  {
    FunctionIsKind();
    assert |file| == 1 && (file[0] == 'a' || file[0] == 'b');
    assert |"file"| == 4 && |"file:"| == 5;
  }

  lemma MixedWellFormed()
    ensures WellFormedTable(SameSpelling, MixedSymbols())
  {
    OneLetterFile("a");
    OneLetterFile("b");
    MintedFoo(SameSpelling, "a", FOO_A);
    MintedFoo(SameSpelling, "b", FOO_B);
    TwoEntryTable(SameSpelling, "a", FOO_A, "b", FOO_B);
  }

  lemma TwoEntryTable(norm: string -> string, f: string, s: Symbol, g: string, t: Symbol)
    requires WellFormedSymbol(norm, f, s) && WellFormedSymbol(norm, g, t)
    ensures WellFormedTable(norm, [(f, [s]), (g, [t])])
  {}

  lemma MixedInput()
    ensures WellFormedInput(SameSpelling, {}, MixedSymbols(), MixedRefs())
  {
    MixedWellFormed();
    MixedItems();
    assert "c"[0] == 'c';
  }

  lemma MixedShare()
    ensures !Ambiguous(MixedContext(), ByTargetItem()) && Ambiguous(MixedContext(), ByNameItem())
    ensures Mixes(MixedContext(), ByTargetItem(), ByNameItem())
  {
    hide Classify, PairsReached, MixedContext, WellIndexed;
    ReachedFrom("c");
    var p: Pair := ("file:" + "c", FOO_A.id);
    PairsReachedMeaning(MixedContext(), ByTargetItem(), p);
    PairsReachedMeaning(MixedContext(), ByNameItem(), p);
  }

  /** Such inputs exist: a concrete one, and its graph refused. */
  lemma MixedExampleIsRefused(builtAt: string, id: Identity)
    ensures WellFormedInput(SameSpelling, {}, MixedSymbols(), MixedRefs())
    ensures var g := Graph(SameSpelling, {}, MixedSymbols(), MixedRefs(), None, builtAt);
            g.coverage.Some? && !Accepts(SameSpelling, Save(g, id), g.coverage.value)
  {
    hide Graph, Accepts, Items, Mixes;
    MixedInput();
    MixedItems();
    MixedShare();
    assert [ByTargetItem()] + [ByNameItem()] == [ByTargetItem(), ByNameItem()];
    SingleNotMixed(MixedContext(), ByTargetItem());
    assert Mixes(MixedContext(), [ByTargetItem()][0], ByNameItem());
    FirstMixedPairIsRefused(SameSpelling, {}, MixedSymbols(), MixedRefs(), builtAt, id, [ByTargetItem()], ByNameItem());
  }

  lemma SingleNotMixed(ctx: Context, a: Item)
    ensures NoMixedPair(ctx, [a])
  {}

  // ---- several mixed pairs can cancel out ----------------------------------------

  function Hit(ctx: Context, item: Item, p: Pair): nat { if p in PairsReached(ctx, item) then 1 else 0 }

  lemma CountAt(ctx: Context, items: seq<Item>, k: nat, p: Pair)
    requires WellIndexed(ctx) && k < |items|
    ensures ReachCount(ctx, items[..k + 1], p) == ReachCount(ctx, items[..k], p) + Hit(ctx, items[k], p)
    ensures FirstWeight(ctx, items[..k + 1], p)
         == if ReachCount(ctx, items[..k], p) == 0 && Hit(ctx, items[k], p) == 1 && Classify(ctx, items[k]).Candidates?
            then WeightFor(ctx, items[k]) else FirstWeight(ctx, items[..k], p)
  {
    assert items[..k + 1][..k] == items[..k];
    PairsReachedMeaning(ctx, items[k], p);
  }

  /** How often the first `n` of six references reach a pair, and its weight. */
  lemma SixCounts(ctx: Context, items: seq<Item>, p: Pair, hits: seq<nat>, f: nat)
    requires WellIndexed(ctx) && |items| == 6 == |hits| && f < 6
    requires forall k :: 0 <= k < 6 ==> Hit(ctx, items[k], p) == hits[k]
    requires hits[f] == 1 && Classify(ctx, items[f]).Candidates? && forall k :: 0 <= k < f ==> hits[k] == 0
    ensures ReachCount(ctx, items[..1], p) == hits[0]
    ensures ReachCount(ctx, items[..2], p) == hits[0] + hits[1]
    ensures ReachCount(ctx, items[..3], p) == hits[0] + hits[1] + hits[2]
    ensures ReachCount(ctx, items[..4], p) == hits[0] + hits[1] + hits[2] + hits[3]
    ensures ReachCount(ctx, items[..5], p) == hits[0] + hits[1] + hits[2] + hits[3] + hits[4]
    ensures ReachCount(ctx, items, p) == hits[0] + hits[1] + hits[2] + hits[3] + hits[4] + hits[5]
    ensures FirstWeight(ctx, items, p) == WeightFor(ctx, items[f])
  {
    hide ReachCount, FirstWeight, WeightFor, Hit, Classify, WellIndexed;
    NothingCounted(ctx, items, p);
    CountAt(ctx, items, 0, p);
    CountAt(ctx, items, 1, p);
    CountAt(ctx, items, 2, p);
    CountAt(ctx, items, 3, p);
    CountAt(ctx, items, 4, p);
    CountAt(ctx, items, 5, p);
    assert items[..6] == items;
  }

  lemma NothingCounted(ctx: Context, items: seq<Item>, p: Pair)
    ensures ReachCount(ctx, items[..0], p) == 0 && Reached(ctx, items[..0]) == [] && Returns(ctx, items[..0]) == 0
    ensures CountIn(ctx, items[..0], InResolved) == 0
  {}

  lemma StepAt(ctx: Context, items: seq<Item>, k: nat, p: Pair)
    requires WellIndexed(ctx) && k < |items| && p in PairsReached(ctx, items[k])
    ensures CountIn(ctx, items[..k + 1], InResolved) == CountIn(ctx, items[..k], InResolved) + 1
    ensures Reached(ctx, items[..k + 1]) == AddAll(Reached(ctx, items[..k]), PairsReached(ctx, items[k]))
    ensures ReachCount(ctx, items[..k], p) > 0 ==> Returns(ctx, items[..k + 1]) == Returns(ctx, items[..k]) + 1
    ensures (forall q :: q in PairsReached(ctx, items[k]) ==> ReachCount(ctx, items[..k], q) == 0) ==>
      Returns(ctx, items[..k + 1]) == Returns(ctx, items[..k])
  {
    assert items[..k + 1][..k] == items[..k];
    PairsReachedMeaning(ctx, items[k], p);
    if ReachesAgain(ctx, items[..k], items[k]) {
      var q: Pair :| Reaches(ctx, items[k], q) && ReachCount(ctx, items[..k], q) > 0;
      PairsReachedMeaning(ctx, items[k], q);
    }
  }

  /** Two callers of the same two symbols: the first reaches each by target and then both by
      name, the second both by name and then one of them twice by target. */
  ghost predicate Cancelling(ctx: Context, items: seq<Item>, p: Pair, q: Pair, r: Pair, s: Pair) {
    && WellIndexed(ctx) && |items| == 6
    && p != q && p != r && p != s && q != r && q != s && r != s
    && (forall k :: 0 <= k < 6 ==> Classify(ctx, items[k]).Candidates?)
    && PairsReached(ctx, items[0]) == [p] && WeightFor(ctx, items[0]) == 1.0
    && PairsReached(ctx, items[1]) == [q] && WeightFor(ctx, items[1]) == 1.0
    && PairsReached(ctx, items[2]) == [p, q]
    && PairsReached(ctx, items[3]) == [r, s] && WeightFor(ctx, items[3]) == 0.5
    && PairsReached(ctx, items[4]) == [r]
    && PairsReached(ctx, items[5]) == [r]
  }

  lemma CancellingCounts(ctx: Context, items: seq<Item>, p: Pair, q: Pair, r: Pair, s: Pair)
    requires Cancelling(ctx, items, p, q, r, s)
    ensures CountIn(ctx, items, InResolved) == 6 && Returns(ctx, items) == 3 && Reached(ctx, items) == [p, q, r, s]
    ensures ReachCount(ctx, items, p) == 2 && FirstWeight(ctx, items, p) == 1.0
    ensures ReachCount(ctx, items, q) == 2 && FirstWeight(ctx, items, q) == 1.0
    ensures ReachCount(ctx, items, r) == 3 && FirstWeight(ctx, items, r) == 0.5
    ensures ReachCount(ctx, items, s) == 1 && FirstWeight(ctx, items, s) == 0.5
  {
    hide ReachCount, FirstWeight, WeightFor, PairsReached, Classify, WellIndexed, Reached, Returns, CountIn, AddAll;
    SixCounts(ctx, items, p, [1, 0, 1, 0, 0, 0], 0);
    SixCounts(ctx, items, q, [0, 1, 1, 0, 0, 0], 1);
    SixCounts(ctx, items, r, [0, 0, 0, 1, 1, 1], 3);
    SixCounts(ctx, items, s, [0, 0, 0, 1, 0, 0], 3);
    NothingCounted(ctx, items, p);
    NothingCounted(ctx, items, q);
    StepAt(ctx, items, 0, p);
    StepAt(ctx, items, 1, q);
    StepAt(ctx, items, 2, p);
    StepAt(ctx, items, 3, r);
    StepAt(ctx, items, 4, r);
    StepAt(ctx, items, 5, r);
    assert items[..6] == items;
    AddPairs(p, q, r, s);
  }

  lemma AddPairs(p: Pair, q: Pair, r: Pair, s: Pair)
    requires p != q && p != r && p != s && q != r && q != s && r != s
    ensures AddAll([], [p]) == [p] && AddAll([p], [q]) == [p, q] && AddAll([p, q], [p, q]) == [p, q]
    ensures AddAll([p, q], [r, s]) == [p, q, r, s] && AddAll([p, q, r, s], [r]) == [p, q, r, s]
  {
    assert [p, q][..1] == [p] && [r, s][..1] == [r];
    assert AddAll([p, q], [p]) == [p, q] && AddAll([p, q], [r]) == [p, q, r];
  }

  lemma CancellingSums(ctx: Context, items: seq<Item>, p: Pair, q: Pair, r: Pair, s: Pair)
    requires Cancelling(ctx, items, p, q, r, s)
    ensures Conserved(ctx, items)
  {
    hide ReachCount, FirstWeight, Cancelling, Reached, Returns, CountIn;
    CancellingCounts(ctx, items, p, q, r, s);
    var all := [p, q, r, s];
    assert all[..3] == [p, q, r] && all[..3][..2] == [p, q] && all[..3][..2][..1] == [p];
    assert PairEvidence(ctx, items, [p]) == 2.0;
    assert PairEvidence(ctx, items, [p, q]) == 4.0;
    assert PairEvidence(ctx, items, [p, q, r]) == 5.5;
    assert PairEvidence(ctx, items, all) == 6.0;
    assert PairDuplicates(ctx, items, [p]) == 1.0;
    assert PairDuplicates(ctx, items, [p, q]) == 2.0;
    assert PairDuplicates(ctx, items, [p, q, r]) == 3.0;
    assert PairDuplicates(ctx, items, all) == 3.0;
  }

  /** The same two definitions, and two callers whose excess and deficit cancel. */
  function CancellingRefs(): RefTable { [("c", [TO_A, TO_B, BY_NAME]), ("d", [BY_NAME, TO_A, TO_A])] }

  function CancellingItems(): seq<Item> {
    [Item("c", TO_A), Item("c", TO_B), Item("c", BY_NAME), Item("d", BY_NAME), Item("d", TO_A), Item("d", TO_A)]
  }

  lemma CancellingItemsAre()
    ensures Items(CancellingRefs()) == CancellingItems()
  {
    var refs := CancellingRefs();
    assert refs[..1][..0] == [];
    assert Items(refs[..1]) == Items([]) + ItemsOf("c", [TO_A, TO_B, BY_NAME]);
    assert Items(refs) == Items(refs[..1]) + ItemsOf("d", [BY_NAME, TO_A, TO_A]);
  }

  /** A well-formed input with mixed pairs whose graph the validator accepts. */
  lemma CancellingMixIsAccepted(builtAt: string, id: Identity)
    requires !IsBlank(builtAt) && !IsBlank(id.reviewGraphVersion) && !IsBlank(id.reviewGraphSignature)
    ensures WellFormedInput(SameSpelling, {}, MixedSymbols(), CancellingRefs())
    ensures !NoMixedPair(MixedContext(), Items(CancellingRefs()))
    ensures var g := Graph(SameSpelling, {}, MixedSymbols(), CancellingRefs(), None, builtAt);
            g.coverage.Some? && Accepts(SameSpelling, Save(g, id), g.coverage.value)
  {
    CancellingInput();
    CancellingIsMixed();
    CancellingItemsAre();
    var p, q, r, s := CancellingPairs();
    CancellingSums(MixedContext(), CancellingItems(), p, q, r, s);
    BuiltAcceptedIff(SameSpelling, {}, MixedSymbols(), CancellingRefs(), builtAt, id);
  }

  lemma CancellingInput()
    ensures WellFormedInput(SameSpelling, {}, MixedSymbols(), CancellingRefs())
  {
    MixedWellFormed();
    CancellingItemsAre();
    assert "c"[0] == 'c' && "d"[0] == 'd';
  }

  lemma WeightsFrom(file: string)
    requires file == "c" || file == "d"
    ensures Classify(MixedContext(), Item(file, TO_A)).Candidates? && WeightFor(MixedContext(), Item(file, TO_A)) == 1.0
    ensures Classify(MixedContext(), Item(file, TO_B)).Candidates? && WeightFor(MixedContext(), Item(file, TO_B)) == 1.0
    ensures Classify(MixedContext(), Item(file, BY_NAME)).Candidates?
            && WeightFor(MixedContext(), Item(file, BY_NAME)) == 0.5
  {
    hide Classify, MixedContext;
    ReachedFrom(file);
  }

  lemma FourPairs() returns (p: Pair, q: Pair, r: Pair, s: Pair)
    ensures p == ("file:" + "c", FOO_A.id) && q == ("file:" + "c", FOO_B.id)
    ensures r == ("file:" + "d", FOO_A.id) && s == ("file:" + "d", FOO_B.id)
    ensures p != q && p != r && p != s && q != r && q != s && r != s
  {
    p, q := ("file:" + "c", FOO_A.id), ("file:" + "c", FOO_B.id);
    r, s := ("file:" + "d", FOO_A.id), ("file:" + "d", FOO_B.id);
    assert FOO_A.id[0] == 'a' && FOO_B.id[0] == 'b' && ("file:" + "c")[5] == 'c' && ("file:" + "d")[5] == 'd';
  }

  lemma CancellingPairs() returns (p: Pair, q: Pair, r: Pair, s: Pair)
    ensures Cancelling(MixedContext(), CancellingItems(), p, q, r, s)
  {
    hide Classify, PairsReached, WeightFor, MixedContext, WellIndexed;
    ReachedFrom("c");
    ReachedFrom("d");
    WeightsFrom("c");
    WeightsFrom("d");
    p, q, r, s := FourPairs();
  }

  lemma CancellingIsMixed()
    ensures !NoMixedPair(MixedContext(), Items(CancellingRefs()))
  {
    CancellingItemsAre();
    MixedShare();
    assert CancellingItems()[0] == ByTargetItem() && CancellingItems()[2] == ByNameItem();
    assert Mixes(MixedContext(), CancellingItems()[0], CancellingItems()[2]);
  }
}
