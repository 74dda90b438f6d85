/** Saving, validating and loading a call graph (clients/call-graph.ts:673-1125). JSON is the
    identity and reals are exact; `norm` is the repository's path normalizer. */
module CallGraphPersist {
  import opened JsMap
  import opened Numbers
  import opened Text
  import opened SymbolId
  import opened CallGraphTypes

  const CALL_GRAPH_CACHE_VERSION := 5

  datatype Identity = Identity(reviewGraphVersion: string, reviewGraphSignature: string)

  datatype Persisted = Persisted(
    version: int, builtAt: string,
    reviewGraphVersion: Option<string>, reviewGraphSignature: Option<string>,
    edges: seq<Edge>, callees: Adjacency, callers: Adjacency, inDegree: Degrees,
    totalRefs: Option<int>, unresolvedRefs: Option<int>, coverage: Option<Coverage>)

  function Save(g: FunctionCallGraph, id: Identity): Persisted {
    Persisted(CALL_GRAPH_CACHE_VERSION, g.builtAt, Some(id.reviewGraphVersion), Some(id.reviewGraphSignature),
              g.edges, g.callees, g.callers, g.inDegree, Some(g.totalRefs), Some(g.unresolvedRefs), g.coverage)
  }

  // ---- coverage of a snapshot ----------------------------------------------------

  /** `Math.round` */
  function Round(x: real): int { (x + 0.5).Floor }

  function LegacyCount(e: Edge): int { if EvidenceCount(e) > 0 then EvidenceCount(e) else 1 }
  function LegacyWeight(e: Edge): real { if e.weight >= 0.0 then e.weight else 1.0 }

  function LegacyTotal(edges: seq<Edge>): real {
    if edges == [] then 0.0
    else var e := edges[|edges| - 1]; LegacyTotal(edges[..|edges| - 1]) + LegacyCount(e) as real * LegacyWeight(e)
  }

  function LegacyReferences(edges: seq<Edge>): real {
    if edges == [] then 0.0
    else var e := edges[|edges| - 1];
         LegacyReferences(edges[..|edges| - 1])
         + (if e.evidenceKind == Some(References) then LegacyCount(e) as real * LegacyWeight(e) else 0.0)
  }

  function LegacyDuplicates(edges: seq<Edge>): real {
    if edges == [] then 0.0
    else var e := edges[|edges| - 1];
         LegacyDuplicates(edges[..|edges| - 1]) + AtLeastZero(LegacyCount(e) - 1) as real * LegacyWeight(e)
  }

  /** Coverage of a snapshot that carries none: every edge is taken as resolved evidence. */
  function InferLegacyCoverage(edges: seq<Edge>): Coverage {
    var total := AtLeastZero(Round(LegacyTotal(edges)));
    var references := AtLeastZero(Round(LegacyReferences(edges)));
    Coverage(total, total - references, references, total, total, 0, 0, 0, 0,
             AtLeastZero(Round(LegacyDuplicates(edges))), false, None)
  }

  function LoadCoverage(raw: Persisted): Coverage { OrElse(raw.coverage, InferLegacyCoverage(raw.edges)) }

  // ---- what the validator accepts ------------------------------------------------

  predicate OptionalText(o: Option<string>) { o.Some? ==> !IsBlank(o.value) }

  function Abs(x: real): real { if x < 0.0 then -x else x }

  predicate CountsMatch(left: real, right: real) {
    Abs(left - right) <= 0.000000001 * MaxReal(1.0, MaxReal(Abs(left), Abs(right)))
  }

  predicate CoverageOk(c: Coverage) {
    && 0 <= c.totalEvidence && 0 <= c.callsEvidence && 0 <= c.referencesEvidence && 0 <= c.eligibleEvidence
    && 0 <= c.resolvedEvidence && 0 <= c.unresolvedEvidence && 0 <= c.typeOnlyEvidence
    && 0 <= c.unsupportedEvidence && 0 <= c.sameFileEvidence && 0 <= c.duplicateEvidence
    && (c.languages.Some? ==> forall i :: 0 <= i < |c.languages.value| ==> !IsBlank(c.languages.value[i].0))
    && c.callsEvidence + c.referencesEvidence == c.totalEvidence
    && c.eligibleEvidence == c.resolvedEvidence
    && c.resolvedEvidence + c.unresolvedEvidence + c.typeOnlyEvidence + c.unsupportedEvidence + c.sameFileEvidence
       == c.totalEvidence
    && (c.complete ==> c.unsupportedEvidence == 0)
    && (c.complete && c.languages.Some? ==>
          forall i :: 0 <= i < |c.languages.value| ==> c.languages.value[i].1 == Complete)
  }

  /** The parsed key names the file, and the symbol where both sides state one. */
  predicate KeyNames(norm: string -> string, key: string, file: string, name: Option<string>) {
    var parsed := ParseSymbolKey(key, file);
    && norm(parsed.filePath) == norm(file)
    && (parsed.symbolName.Some? && name.Some? ==> parsed.symbolName == name)
  }

  predicate EdgeFieldsOk(e: Edge) {
    && !IsBlank(e.callerKey) && !IsBlank(e.calleeKey) && !IsBlank(e.callerFile) && !IsBlank(e.calleeFile)
    && !IsBlank(e.calleeSymbol) && 0.0 < e.weight <= 1.0
    && OptionalText(e.callerSymbol) && OptionalText(e.callerKind) && OptionalText(e.calleeKind)
    && (e.evidenceCount.Some? ==> e.evidenceCount.value >= 1)
  }

  predicate EdgeOk(norm: string -> string, e: Edge) {
    && EdgeFieldsOk(e)
    && KeyNames(norm, e.callerKey, e.callerFile, e.callerSymbol)
    && KeyNames(norm, e.calleeKey, e.calleeFile, Some(e.calleeSymbol))
  }

  /** A well-formed adjacency: distinct non-blank keys, each with distinct non-blank members. */
  ghost predicate Readable(m: Adjacency) {
    && Unique(m)
    && forall i :: 0 <= i < |m| ==>
         && !IsBlank(m[i].0) && Distinct(m[i].1)
         && forall j :: 0 <= j < |m[i].1| ==> !IsBlank(m[i].1[j])
  }

  /** Same keys, and the same members under each key, in any order. */
  ghost predicate SameRelation(a: Adjacency, b: Adjacency) {
    forall k :: Has(a, k) == Has(b, k)
      && forall v :: v in OrElse(Get(a, k), []) <==> v in OrElse(Get(b, k), [])
  }

  ghost predicate ReadableDegrees(m: Degrees) {
    Unique(m) && forall i :: 0 <= i < |m| ==> !IsBlank(m[i].0) && m[i].1 >= 0.0
  }

  ghost predicate SameDegrees(a: Degrees, b: Degrees) { forall k :: Get(a, k) == Get(b, k) }

  ghost predicate HeaderOk(raw: Persisted) {
    && raw.version == CALL_GRAPH_CACHE_VERSION && !IsBlank(raw.builtAt)
    && raw.reviewGraphVersion.Some? && !IsBlank(raw.reviewGraphVersion.value)
    && raw.reviewGraphSignature.Some? && !IsBlank(raw.reviewGraphSignature.value)
  }

  /** The coverage accounts for the edges. */
  ghost predicate LedgerOk(raw: Persisted, c: Coverage) {
    var evidence := WeightedEvidence(raw.edges);
    && CountsMatch(evidence, c.resolvedEvidence as real)
    && CountsMatch(WeightedDuplicates(raw.edges), c.duplicateEvidence as real)
    && CountsMatch(c.totalEvidence as real,
                   evidence + c.unresolvedEvidence as real + c.typeOnlyEvidence as real
                   + c.unsupportedEvidence as real + c.sameFileEvidence as real)
    && (raw.totalRefs.Some? ==> raw.totalRefs.value == c.totalEvidence)
    && (raw.unresolvedRefs.Some? ==> raw.unresolvedRefs.value == c.unresolvedEvidence)
  }

  /** Exactly what a snapshot must satisfy to be served: every redundant part agrees with
      the edge list. */
  ghost predicate Accepts(norm: string -> string, raw: Persisted, c: Coverage) {
    && HeaderOk(raw) && CoverageOk(c)
    && AllOk(norm, raw.edges)
    && DistinctPairs(raw.edges)
    && LedgerOk(raw, c)
    && Readable(raw.callees) && Readable(raw.callers) && ReadableDegrees(raw.inDegree)
    && SameRelation(raw.callees, Outgoing(raw.edges))
    && SameRelation(raw.callers, Incoming(raw.edges))
    && SameDegrees(raw.inDegree, InDegrees(raw.edges))
  }

  // ---- size arguments the validator relies on ------------------------------------

  function SetOf<T>(s: seq<T>): set<T> { set x | x in s }

  lemma {:induction false} DistinctSize<T>(s: seq<T>)
    requires Distinct(s)
    ensures |SetOf(s)| == |s|
  {
    if s == [] {
    } else {
      DistinctSize(s[..|s| - 1]);
      assert s == s[..|s| - 1] + [s[|s| - 1]];
      assert SetOf(s) == SetOf(s[..|s| - 1]) + {s[|s| - 1]};
    }
  }

  /** Equal sizes turn inclusion into equality. */
  lemma InclusionIsEquality<T>(a: seq<T>, b: seq<T>)
    requires Distinct(a) && Distinct(b) && |a| == |b| && forall x :: x in a ==> x in b
    ensures forall x :: x in a <==> x in b
  {
    DistinctSize(a);
    DistinctSize(b);
    SubsetSameSize(SetOf(a), SetOf(b));
    assert forall x :: x in a <==> x in SetOf(a);
    assert forall x :: x in b <==> x in SetOf(b);
  }

  lemma SubsetSameSize<T>(a: set<T>, b: set<T>)
    requires a <= b && |a| == |b|
    ensures a == b
  {
    assert |b - a| == |b| - |a|;
  }

  /** The converse: the same distinct members need the same number of places. */
  lemma EqualityIsSize<T>(a: seq<T>, b: seq<T>)
    requires Distinct(a) && Distinct(b) && forall x :: x in a <==> x in b
    ensures |a| == |b|
  {
    DistinctSize(a);
    DistinctSize(b);
    assert SetOf(a) == SetOf(b);
  }

  lemma UniqueKeysDistinct<V>(m: Entries<string, V>)
    requires Unique(m)
    ensures Distinct(Keys(m)) && forall k :: k in Keys(m) <==> Has(m, k)
  {
    forall k ensures k in Keys(m) <==> Has(m, k) { KeysHas(m, k); }
  }

  // ---- the validator -------------------------------------------------------------

  method ReadAdjacency(entries: Adjacency) returns (ok: bool)
    ensures ok <==> Readable(entries)
  {
    for i := 0 to |entries|
      invariant Readable(entries[..i])
    {
      var key, members := entries[i].0, entries[i].1;
      var bad := IsBlank(key) || (exists j :: 0 <= j < |members| && IsBlank(members[j]))
                 || Has(entries[..i], key);
      HasIsGet(entries[..i], key);
      var distinct := IsDistinct(members);
      if bad || !distinct {
        assert forall j :: 0 <= j < i ==> entries[..i][j] == entries[j];
        return false;
      }
      assert entries[..i + 1] == entries[..i] + [entries[i]];
      assert forall j :: 0 <= j < i ==> entries[..i][j] == entries[..i + 1][j];
    }
    assert entries[..|entries|] == entries;
    return true;
  }

  /** `new Set(keys).size === keys.length` */
  method IsDistinct(keys: seq<string>) returns (ok: bool)
    ensures ok <==> Distinct(keys)
  {
    var seen: set<string> := {};
    for i := 0 to |keys|
      invariant seen == SetOf(keys[..i]) && Distinct(keys[..i])
    {
      assert keys[..i + 1] == keys[..i] + [keys[i]];
      if keys[i] in seen {
        assert keys[i] in keys[..i];
        return false;
      }
      seen := seen + {keys[i]};
    }
    assert keys[..|keys|] == keys;
    return true;
  }

  ghost predicate MembersAgree(actual: Adjacency, entry: (string, seq<string>)) {
    var got := Get(actual, entry.0);
    got.Some? && forall v :: v in got.value <==> v in entry.1
  }

  /** Related lists under one key have the same members and so the same length. */
  lemma RelatedLists(a: Adjacency, b: Adjacency, k: string, xs: seq<string>, ys: seq<string>)
    requires SameRelation(a, b) && Get(a, k) == Some(xs) && Get(b, k) == Some(ys) && Distinct(xs) && Distinct(ys)
    ensures |xs| == |ys| && forall v :: v in ys ==> v in xs
  {
    assert Has(a, k) == Has(b, k);
    forall v ensures v in xs <==> v in ys {
      assert v in OrElse(Get(a, k), []) <==> v in OrElse(Get(b, k), []);
    }
    EqualityIsSize(xs, ys);
  }

  method SameSets(actual: Adjacency, expected: Adjacency) returns (ok: bool)
    requires Readable(actual) && Unique(expected) && forall i :: 0 <= i < |expected| ==> Distinct(expected[i].1)
    ensures ok <==> SameRelation(actual, expected)
  {
    UniqueKeysDistinct(actual);
    UniqueKeysDistinct(expected);
    if |actual| != |expected| {
      if SameRelation(actual, expected) {
        forall k ensures k in Keys(actual) <==> k in Keys(expected) { assert Has(actual, k) == Has(expected, k); }
        EqualityIsSize(Keys(actual), Keys(expected));
      }
      return false;
    }
    for i := 0 to |expected|
      invariant forall j :: 0 <= j < i ==> MembersAgree(actual, expected[j])
    {
      var key, values := expected[i].0, expected[i].1;
      GetAt(expected, i);
      HasIsGet(expected, key);
      HasIsGet(actual, key);
      var got := Get(actual, key);
      if got.None? { assert Has(actual, key) != Has(expected, key); return false; }
      ghost var at := GetIndex(actual, key);
      if |got.value| != |values| || exists v :: v in values && v !in got.value {
        if SameRelation(actual, expected) { RelatedLists(actual, expected, key, got.value, values); }
        return false;
      }
      InclusionIsEquality(values, got.value);
    }
    MembersMatch(actual, expected);
    return true;
  }

  lemma MembersMatch(actual: Adjacency, expected: Adjacency)
    requires Unique(actual) && Unique(expected) && |actual| == |expected|
    requires forall j :: 0 <= j < |expected| ==> MembersAgree(actual, expected[j])
    ensures SameRelation(actual, expected)
  {
    UniqueKeysDistinct(actual);
    UniqueKeysDistinct(expected);
    forall k | k in Keys(expected) ensures k in Keys(actual) {
      var j :| 0 <= j < |expected| && Keys(expected)[j] == k;
      assert MembersAgree(actual, expected[j]);
      HasIsGet(actual, expected[j].0);
    }
    InclusionIsEquality(Keys(expected), Keys(actual));
    forall k ensures Has(actual, k) == Has(expected, k)
      && forall v :: v in OrElse(Get(actual, k), []) <==> v in OrElse(Get(expected, k), [])
    {
      HasIsGet(actual, k);
      HasIsGet(expected, k);
      assert k in Keys(actual) <==> k in Keys(expected);
      if Has(expected, k) {
        var j := GetIndex(expected, k);
        assert MembersAgree(actual, expected[j]);
      }
    }
  }

  method DegreesMatch(actual: Degrees, expected: Degrees) returns (ok: bool)
    requires Unique(expected)
    ensures ok <==> ReadableDegrees(actual) && SameDegrees(actual, expected)
  {
    for i := 0 to |actual|
      invariant ReadableDegrees(actual[..i])
    {
      HasIsGet(actual[..i], actual[i].0);
      assert forall j :: 0 <= j < i ==> actual[..i][j] == actual[j];
      if IsBlank(actual[i].0) || actual[i].1 < 0.0 || Has(actual[..i], actual[i].0) { return false; }
      assert actual[..i + 1] == actual[..i] + [actual[i]];
    }
    assert actual[..|actual|] == actual;
    UniqueKeysDistinct(actual);
    UniqueKeysDistinct(expected);
    if |actual| != |expected| {
      if SameDegrees(actual, expected) {
        forall k ensures k in Keys(actual) <==> k in Keys(expected) {
          HasIsGet(actual, k);
          HasIsGet(expected, k);
          assert Get(actual, k) == Get(expected, k);
        }
        EqualityIsSize(Keys(actual), Keys(expected));
      }
      return false;
    }
    for i := 0 to |expected|
      invariant forall j :: 0 <= j < i ==> Get(actual, expected[j].0) == Some(expected[j].1)
    {
      GetAt(expected, i);
      if Get(actual, expected[i].0) != Some(expected[i].1) { return false; }
    }
    ValuesMatch(actual, expected);
    return true;
  }

  lemma ValuesMatch(actual: Degrees, expected: Degrees)
    requires Unique(actual) && Unique(expected) && |actual| == |expected|
    requires forall j :: 0 <= j < |expected| ==> Get(actual, expected[j].0) == Some(expected[j].1)
    ensures SameDegrees(actual, expected)
  {
    UniqueKeysDistinct(actual);
    UniqueKeysDistinct(expected);
    forall k | k in Keys(expected) ensures k in Keys(actual) {
      var j :| 0 <= j < |expected| && Keys(expected)[j] == k;
      HasIsGet(actual, expected[j].0);
    }
    InclusionIsEquality(Keys(expected), Keys(actual));
    forall k ensures Get(actual, k) == Get(expected, k) {
      HasIsGet(actual, k);
      HasIsGet(expected, k);
      assert k in Keys(actual) <==> k in Keys(expected);
      if Has(expected, k) { var j := GetIndex(expected, k); }
    }
  }

  /** What the edge loop recomputes. */
  datatype Recomputed = Recomputed(
    callees: Adjacency, callers: Adjacency, inDegree: Degrees, evidence: real, duplicates: real)

  /** `evidenceCount * weight` and `(evidenceCount - 1) * weight` */
  method Weigh(e: Edge) returns (evidence: real, duplicates: real)
    ensures evidence == Times(EvidenceCount(e), e.weight)
    ensures duplicates == Times(EvidenceCount(e) - 1, e.weight)
  {
    TimesIsProduct(EvidenceCount(e), e.weight);
    TimesIsProduct(EvidenceCount(e) - 1, e.weight);
    evidence := EvidenceCount(e) as real * e.weight;
    duplicates := (EvidenceCount(e) - 1) as real * e.weight;
  }

  method CheckEdge(norm: string -> string, e: Edge) returns (ok: bool)
    ensures ok <==> EdgeOk(norm, e)
  {
    if !EdgeFieldsOk(e) { return false; }
    ok := KeyNames(norm, e.callerKey, e.callerFile, e.callerSymbol)
          && KeyNames(norm, e.calleeKey, e.calleeFile, Some(e.calleeSymbol));
  }

  function Summary(edges: seq<Edge>): Recomputed {
    Recomputed(Outgoing(edges), Incoming(edges), InDegrees(edges), WeightedEvidence(edges), WeightedDuplicates(edges))
  }

  /** One edge added to everything that is recomputed. */
  method AddEdge(sofar: Recomputed, ghost edges: seq<Edge>, e: Edge) returns (r: Recomputed)
    requires sofar == Summary(edges)
    ensures r == Summary(edges + [e])
  {
    assert (edges + [e])[..|edges|] == edges;
    var evidence, duplicates := Weigh(e);
    r := Recomputed(Link(sofar.callees, e.callerKey, e.calleeKey), Link(sofar.callers, e.calleeKey, e.callerKey),
                    Credit(sofar.inDegree, e.calleeKey, e.weight), sofar.evidence + evidence,
                      sofar.duplicates + duplicates);
  }

  function PairOf(e: Edge): (string, string) { (e.callerKey, e.calleeKey) }

  ghost predicate AllOk(norm: string -> string, edges: seq<Edge>) {
    forall i :: 0 <= i < |edges| ==> EdgeOk(norm, edges[i])
  }

  lemma DistinctSnoc(edges: seq<Edge>, e: Edge)
    ensures DistinctPairs(edges + [e]) <==>
      DistinctPairs(edges) && forall j :: 0 <= j < |edges| ==> PairOf(edges[j]) != PairOf(e)
  {
    var all := edges + [e];
    assert forall j :: 0 <= j < |edges| ==> all[j] == edges[j];
    assert all[|edges|] == e;
    if DistinctPairs(all) {
      forall j | 0 <= j < |edges| ensures PairOf(edges[j]) != PairOf(e) {
        assert all[j].callerKey != all[|edges|].callerKey || all[j].calleeKey != all[|edges|].calleeKey;
      }
    }
  }

  lemma AllOkSnoc(norm: string -> string, edges: seq<Edge>, e: Edge)
    ensures AllOk(norm, edges + [e]) <==> AllOk(norm, edges) && EdgeOk(norm, e)
  {
    var all := edges + [e];
    assert forall j :: 0 <= j < |edges| ==> all[j] == edges[j];
    assert all[|edges|] == e;
    if AllOk(norm, all) {
      forall j | 0 <= j < |edges| ensures EdgeOk(norm, edges[j]) { assert EdgeOk(norm, all[j]); }
      assert EdgeOk(norm, all[|edges|]);
    }
  }

  lemma AllOkAt(norm: string -> string, edges: seq<Edge>, i: nat)
    requires AllOk(norm, edges) && i < |edges|
    ensures EdgeOk(norm, edges[i])
  {}

  /** One edge checked and folded in, or the reason to stop. */
  method Extend(norm: string -> string, ghost edges: seq<Edge>, sofar: Recomputed, pairs: set<(string, string)>,
                e: Edge)
    returns (ok: bool, r: Recomputed, seen: set<(string, string)>)
    requires sofar == Summary(edges) && pairs == PairsOf(edges) && AllOk(norm, edges) && DistinctPairs(edges)
    ensures ok <==> AllOk(norm, edges + [e]) && DistinctPairs(edges + [e])
    ensures ok ==> r == Summary(edges + [e]) && seen == PairsOf(edges + [e])
  {
    AllOkSnoc(norm, edges, e);
    DistinctSnoc(edges, e);
    r, seen := sofar, pairs;
    ok := CheckEdge(norm, e);
    if !ok || PairOf(e) in pairs { return false, r, seen; }
    seen := pairs + {PairOf(e)};
    assert forall j :: 0 <= j < |edges| ==> (edges + [e])[j] == edges[j];
    assert (edges + [e])[|edges|] == e;
    r := AddEdge(sofar, edges, e);
  }

  function PairsOf(edges: seq<Edge>): set<(string, string)> {
    set j | 0 <= j < |edges| :: PairOf(edges[j])
  }

  lemma PrefixOk(norm: string -> string, edges: seq<Edge>, n: nat)
    requires n <= |edges| && AllOk(norm, edges) && DistinctPairs(edges)
    ensures AllOk(norm, edges[..n]) && DistinctPairs(edges[..n])
  {
    forall i | 0 <= i < n ensures EdgeOk(norm, edges[..n][i]) { AllOkAt(norm, edges, i); }
  }

  method RecomputeFromEdges(norm: string -> string, edges: seq<Edge>) returns (r: Option<Recomputed>)
    ensures r.Some? <==> AllOk(norm, edges) && DistinctPairs(edges)
    ensures r.Some? ==> r.value == Summary(edges)
  {
    var sofar := Recomputed([], [], [], 0.0, 0.0);
    var pairs: set<(string, string)> := {};
    for i := 0 to |edges|
      invariant AllOk(norm, edges[..i]) && DistinctPairs(edges[..i])
      invariant pairs == PairsOf(edges[..i]) && sofar == Summary(edges[..i])
    {
      assert edges[..i + 1] == edges[..i] + [edges[i]];
      var ok;
      ok, sofar, pairs := Extend(norm, edges[..i], sofar, pairs, edges[i]);
      if !ok {
        if AllOk(norm, edges) && DistinctPairs(edges) { PrefixOk(norm, edges, i + 1); }
        return None;
      }
    }
    assert edges[..|edges|] == edges;
    r := Some(sofar);
  }

  method ValidatePersistedCallGraph(norm: string -> string, raw: Persisted, coverage: Coverage) returns (ok: bool)
    ensures ok <==> Accepts(norm, raw, coverage)
  {
    if raw.version != CALL_GRAPH_CACHE_VERSION || IsBlank(raw.builtAt) { return false; }
    if raw.reviewGraphVersion.None? || IsBlank(raw.reviewGraphVersion.value) { return false; }
    if raw.reviewGraphSignature.None? || IsBlank(raw.reviewGraphSignature.value) { return false; }
    if !CoverageOk(coverage) { return false; }
    var r := RecomputeFromEdges(norm, raw.edges);
    if r.None? { return false; }
    var expected := r.value;
    if !CountsMatch(expected.evidence, coverage.resolvedEvidence as real) { return false; }
    if !CountsMatch(expected.duplicates, coverage.duplicateEvidence as real) { return false; }
    if !CountsMatch(coverage.totalEvidence as real,
                    expected.evidence + coverage.unresolvedEvidence as real + coverage.typeOnlyEvidence as real
                    + coverage.unsupportedEvidence as real + coverage.sameFileEvidence as real) { return false; }
    if raw.totalRefs.Some? && raw.totalRefs.value != coverage.totalEvidence { return false; }
    if raw.unresolvedRefs.Some? && raw.unresolvedRefs.value != coverage.unresolvedEvidence { return false; }
    ViewsAreMaps(raw.edges);
    var readable := ReadAdjacency(raw.callees);
    if !readable { return false; }
    readable := ReadAdjacency(raw.callers);
    if !readable { return false; }
    var same := SameSets(raw.callees, expected.callees);
    if !same { return false; }
    same := SameSets(raw.callers, expected.callers);
    if !same { return false; }
    ok := DegreesMatch(raw.inDegree, expected.inDegree);
  }

  // ---- loading -------------------------------------------------------------------

  datatype Loaded = Loaded(graph: FunctionCallGraph, identity: Identity)

  function Rehydrate(raw: Persisted, coverage: Coverage): FunctionCallGraph {
    FunctionCallGraph(raw.callees, raw.callers, raw.edges, raw.inDegree,
                      OrElse(raw.unresolvedRefs, coverage.unresolvedEvidence),
                      OrElse(raw.totalRefs, coverage.totalEvidence), Some(coverage), raw.builtAt)
  }

  ghost predicate Expected(raw: Persisted, expected: Option<Identity>) {
    && raw.reviewGraphVersion.Some? && raw.reviewGraphSignature.Some?
    && (expected.Some? ==>
          expected.value == Identity(raw.reviewGraphVersion.value, raw.reviewGraphSignature.value))
  }

  /** A missing, foreign or inconsistent snapshot loads as nothing; any other loads whole. */
  method LoadCallGraph(norm: string -> string, file: Option<Persisted>, expected: Option<Identity>)
    returns (r: Option<Loaded>)
    ensures r.Some? <==> file.Some? && Expected(file.value, expected)
                         && Accepts(norm, file.value, LoadCoverage(file.value))
    ensures r.Some? ==> r.value.graph == Rehydrate(file.value, LoadCoverage(file.value))
    ensures r.Some? ==> Some(r.value.identity.reviewGraphVersion) == file.value.reviewGraphVersion
                        && Some(r.value.identity.reviewGraphSignature) == file.value.reviewGraphSignature
  {
    if file.None? { return None; }
    var raw := file.value;
    if raw.version != CALL_GRAPH_CACHE_VERSION { return None; }
    if raw.reviewGraphVersion.None? || raw.reviewGraphSignature.None? { return None; }
    var identity := Identity(raw.reviewGraphVersion.value, raw.reviewGraphSignature.value);
    if expected.Some? && identity != expected.value { return None; }
    var coverage := LoadCoverage(raw);
    var ok := ValidatePersistedCallGraph(norm, raw, coverage);
    if !ok { return None; }
    return Some(Loaded(Rehydrate(raw, coverage), identity));
  }

  // ---- what acceptance guarantees ------------------------------------------------

  ghost predicate EdgeBetween(edges: seq<Edge>, a: string, b: string) {
    exists i :: 0 <= i < |edges| && edges[i].callerKey == a && edges[i].calleeKey == b
  }

  /** Whatever bytes were on disk, an accepted graph's maps relate exactly the pairs its
      edges relate, and its in-degrees are the exact weight sums. */
  lemma AcceptedMapsAreEdges(norm: string -> string, raw: Persisted, c: Coverage, a: string, b: string)
    requires Accepts(norm, raw, c)
    ensures b in OrElse(Get(raw.callees, a), []) <==> EdgeBetween(raw.edges, a, b)
    ensures a in OrElse(Get(raw.callers, b), []) <==> EdgeBetween(raw.edges, a, b)
    ensures Get(raw.inDegree, b) == if Enters(raw.edges, b) then Some(WeightInto(raw.edges, b)) else None
  {
    OutgoingIsProjection(raw.edges, a);
    IncomingIsProjection(raw.edges, b);
    CalleesOfMember(raw.edges, a, b);
    CallersOfMember(raw.edges, b, a);
    InDegreesIsSum(raw.edges, b);
    assert Has(raw.callees, a) == Has(Outgoing(raw.edges), a);
    assert Has(raw.callers, b) == Has(Incoming(raw.edges), b);
    assert b in OrElse(Get(raw.callees, a), []) <==> b in OrElse(Get(Outgoing(raw.edges), a), []);
    assert a in OrElse(Get(raw.callers, b), []) <==> a in OrElse(Get(Incoming(raw.edges), b), []);
  }

  /** What a name that holds key separators must look like to pass: it ends in its last one, and
      the file with the rest of the name appended normalizes to the file itself. */
  predicate AbsorbedByFile(norm: string -> string, file: string, name: string) {
    var n := LastIndex(name, ':');
    && n >= 0 && n == |name| - 1 && IsOneLine(name[..n])
    && norm(file + ":" + name[..n]) == norm(file)
  }

  /** A minted callee key passes the identity check, for any file and name at all, exactly when
      the file has one line and the name holds no separator or is absorbed by the file. A
      module-level file is judged by what follows its prefix. */
  lemma CalleeNamedIff(norm: string -> string, file: string, name: string, kind: string, line: nat)
    requires IsKindToken(kind)
    ensures KeyNames(norm, BuildSymbolId(file, name, kind, line), file, Some(name))
      <==> if IsModuleForm(file) then norm(BuildSymbolId(file, name, kind, line)[5..]) == norm(file)
           else IsOneLine(file) && (':' !in name || AbsorbedByFile(norm, file, name))
  {
    hide ParseCanonical, IsKindToken, LastIndex;
    var key := BuildSymbolId(file, name, kind, line);
    FilePrefix(file, name, kind, line);
    if IsModuleForm(file) {
    } else {
      if ':' in name { SeparatorFields(file, name, kind, line); } else { CanonicalFields(file, name, kind, line); }
      if ParseCanonical(key).None? { FallbackMisnames(file, name, kind, line); }
    }
  }

  /** A minted id that is not canonical is read with a name other than its own. */
  lemma FallbackMisnames(file: string, name: string, kind: string, line: nat)
    requires IsKindToken(kind) && !IsModuleForm(file) && (file == "" ==> ':' in name)
    requires ParseCanonical(BuildSymbolId(file, name, kind, line)).None?
    ensures var parsed := ParseSymbolKey(BuildSymbolId(file, name, kind, line), file);
            parsed.symbolName.Some? && parsed.symbolName != Some(name)
  {
    hide ParseCanonical, IsKindToken, LastIndex;
    var key := BuildSymbolId(file, name, kind, line);
    FilePrefix(file, name, kind, line);
    MintedSuffix(file, name, kind, line);
    assert key == file + ":" + (name + ":" + kind + ":" + Decimal(line));
    assert key[|file| + 1..] == name + ":" + kind + ":" + Decimal(line);
    DigitsHaveNoColon(Decimal(line));
  }

  /** A concrete key that is refused, whatever the normalizer. */
  lemma ColonNameIsRefused(norm: string -> string)
    ensures !KeyNames(norm, BuildSymbolId("f.cc", "a::b", "function", 1), "f.cc", Some("a::b"))
  {
    var file, name := "f.cc", "a::b";
    assert IsKindToken("function") by { assert "function"[0] == 'f'; }
    assert file[0] == 'f' && file[1] == '.' && !IsModuleForm(file);
    assert name[1] == ':' && name[3] == 'b';
    CalleeNamedIff(norm, file, name, "function", 1);
  }
}
