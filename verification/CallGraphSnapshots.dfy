/** What an accepted snapshot can be relied on for, and how one that carries no coverage is counted
    (clients/call-graph.ts:720-1040). */
module CallGraphSnapshots {
  import opened JsMap
  import opened Numbers
  import opened Text
  import opened SymbolId
  import opened CallGraphTypes
  import opened CallGraphPersist

  // ---- what acceptance promises --------------------------------------------------

  lemma {:induction false} DegreeIsBounded(edges: seq<Edge>, k: string)
    requires forall i :: 0 <= i < |edges| ==> 0.0 < edges[i].weight <= 1.0
    ensures 0.0 <= WeightInto(edges, k) <= |CallersOf(edges, k)| as real
    ensures Enters(edges, k) ==> WeightInto(edges, k) > 0.0
  {
    if edges == [] {
    } else {
      var front := edges[..|edges| - 1];
      DegreeIsBounded(front, k);
      if i :| 0 <= i < |edges| && edges[i].calleeKey == k && i < |front| { assert front[i].calleeKey == k; }
    }
  }

  /** No key and no file of an edge is blank, its weight is at most one, its record count at least
      one, and both keys name their files. */
  ghost predicate Sane(norm: string -> string, e: Edge) {
    && 0.0 < e.weight <= 1.0 && (e.evidenceCount.Some? ==> e.evidenceCount.value >= 1)
    && !IsBlank(e.callerKey) && !IsBlank(e.calleeKey) && !IsBlank(e.callerFile) && !IsBlank(e.calleeFile)
    && !IsBlank(e.calleeSymbol)
    && (e.callerSymbol.Some? ==> !IsBlank(e.callerSymbol.value))
    && norm(ParseSymbolKey(e.callerKey, e.callerFile).filePath) == norm(e.callerFile)
    && norm(ParseSymbolKey(e.calleeKey, e.calleeFile).filePath) == norm(e.calleeFile)
    && (ParseSymbolKey(e.calleeKey, e.calleeFile).symbolName.Some? ==>
          ParseSymbolKey(e.calleeKey, e.calleeFile).symbolName.value == e.calleeSymbol)
    && (ParseSymbolKey(e.callerKey, e.callerFile).symbolName.Some? && e.callerSymbol.Some? ==>
          ParseSymbolKey(e.callerKey, e.callerFile).symbolName == e.callerSymbol)
  }

  /** The counters of a snapshot: none is negative or above the total, what is resolved is what was
      eligible, and a complete one has nothing unsupported and only complete languages. */
  ghost predicate Counts(c: Coverage) {
    && 0 <= c.resolvedEvidence <= c.totalEvidence && 0 <= c.unresolvedEvidence <= c.totalEvidence
    && 0 <= c.typeOnlyEvidence <= c.totalEvidence && 0 <= c.unsupportedEvidence <= c.totalEvidence
    && 0 <= c.sameFileEvidence <= c.totalEvidence && 0 <= c.duplicateEvidence
    && 0 <= c.callsEvidence == c.totalEvidence - c.referencesEvidence && 0 <= c.referencesEvidence
    && c.eligibleEvidence == c.resolvedEvidence
    && c.resolvedEvidence == c.totalEvidence - c.unresolvedEvidence - c.typeOnlyEvidence - c.unsupportedEvidence
                             - c.sameFileEvidence
    && (c.complete ==> c.unsupportedEvidence == 0)
    && (c.complete && c.languages.Some? ==>
          forall i :: 0 <= i < |c.languages.value| ==> c.languages.value[i].1 == Complete)
  }

  lemma AcceptedCounts(c: Coverage)
    requires CoverageOk(c)
    ensures Counts(c)
  {}

  lemma AcceptedIsSane(norm: string -> string, e: Edge)
    requires EdgeOk(norm, e)
    ensures Sane(norm, e)
  {
    hide IsBlank, ParseSymbolKey;
  }

  /** An accepted snapshot is of this version and identity, its counters are consistent and agree
      with the two totals stored beside them, every edge is sane and no pair has two, and the stored
      degree of a symbol is positive and at most the number of its callers. */
  lemma AcceptedIsConsistent(norm: string -> string, raw: Persisted, c: Coverage, k: string)
    requires Accepts(norm, raw, c)
    ensures raw.version == 5 && raw.reviewGraphVersion.Some? && raw.reviewGraphSignature.Some?
    ensures !IsBlank(raw.builtAt) && !IsBlank(raw.reviewGraphVersion.value) && !IsBlank(raw.reviewGraphSignature.value)
    ensures Counts(c) && (raw.totalRefs.Some? ==> raw.totalRefs.value == c.totalEvidence)
    ensures raw.unresolvedRefs.Some? ==> raw.unresolvedRefs.value == c.unresolvedEvidence
    ensures forall i :: 0 <= i < |raw.edges| ==> Sane(norm, raw.edges[i])
    ensures forall i, j :: 0 <= i < j < |raw.edges| ==>
              raw.edges[i].callerKey != raw.edges[j].callerKey || raw.edges[i].calleeKey != raw.edges[j].calleeKey
    ensures Get(raw.inDegree, k).Some? ==> 0.0 < Get(raw.inDegree, k).value <= |CallersOf(raw.edges, k)| as real
  {
    hide IsBlank, EdgeOk, Sane, Outgoing, Incoming, InDegrees, CoverageOk, Counts, LedgerOk, Readable, ReadableDegrees,
      SameRelation, SameDegrees;
    AcceptedCounts(c);
    assert LedgerOk(raw, c);
    TotalsAgree(raw, c);
    forall i | 0 <= i < |raw.edges| ensures Sane(norm, raw.edges[i]) && 0.0 < raw.edges[i].weight <= 1.0 {
      AcceptedIsSane(norm, raw.edges[i]);
      SaneWeight(norm, raw.edges[i]);
    }
    DegreeIsBounded(raw.edges, k);
    AcceptedMapsAreEdges(norm, raw, c, k, k);
  }

  lemma SaneWeight(norm: string -> string, e: Edge)
    requires Sane(norm, e)
    ensures 0.0 < e.weight <= 1.0
  {}

  lemma TotalsAgree(raw: Persisted, c: Coverage)
    requires LedgerOk(raw, c)
    ensures raw.totalRefs.Some? ==> raw.totalRefs.value == c.totalEvidence
    ensures raw.unresolvedRefs.Some? ==> raw.unresolvedRefs.value == c.unresolvedEvidence
  {
    hide CountsMatch, WeightedEvidence, WeightedDuplicates;
  }

  // ---- a snapshot without coverage -----------------------------------------------

  /** The nearest whole number, the upper one from the middle. */
  predicate Nearest(n: int, x: real) { x - 0.5 < n as real <= x + 0.5 }

  /** Weighted evidence of the edges whose records are all references. */
  function ReferenceEvidence(edges: seq<Edge>): real {
    if edges == [] then 0.0
    else
      var e := edges[|edges| - 1];
      ReferenceEvidence(edges[..|edges| - 1])
      + if e.evidenceKind == Some(References) then EvidenceCount(e) as real * e.weight else 0.0
  }

  lemma {:induction false} LegacySums(edges: seq<Edge>)
    requires forall i :: 0 <= i < |edges| ==> 0.0 < edges[i].weight && EvidenceCount(edges[i]) >= 1
    ensures LegacyTotal(edges) == WeightedEvidence(edges) >= 0.0
    ensures LegacyDuplicates(edges) == WeightedDuplicates(edges) >= 0.0
    ensures LegacyReferences(edges) == ReferenceEvidence(edges) >= 0.0
  {
    if edges == [] {
    } else {
      var e := edges[|edges| - 1];
      LegacySums(edges[..|edges| - 1]);
      TimesIsProduct(EvidenceCount(e), e.weight);
      TimesIsProduct(EvidenceCount(e) - 1, e.weight);
      assert EvidenceCount(e) as real * e.weight >= 0.0 && (EvidenceCount(e) - 1) as real * e.weight >= 0.0;
    }
  }

  lemma RoundIsNearest(x: real)
    requires x >= 0.0
    ensures Nearest(AtLeastZero(Round(x)), x)
  {}

  /** A snapshot without coverage is counted by its edges: everything is resolved evidence, rounded
      to whole records, and it never claims to be complete. */
  lemma LegacyCoverageIs(raw: Persisted)
    requires raw.coverage.None?
    requires forall i :: 0 <= i < |raw.edges| ==> 0.0 < raw.edges[i].weight && EvidenceCount(raw.edges[i]) >= 1
    ensures var c := LoadCoverage(raw);
            && Nearest(c.totalEvidence, WeightedEvidence(raw.edges))
            && Nearest(c.duplicateEvidence, WeightedDuplicates(raw.edges))
            && Nearest(c.referencesEvidence, ReferenceEvidence(raw.edges))
            && c.callsEvidence == c.totalEvidence - c.referencesEvidence
            && c.eligibleEvidence == c.resolvedEvidence == c.totalEvidence
            && c.unresolvedEvidence == c.typeOnlyEvidence == c.unsupportedEvidence == c.sameFileEvidence == 0
            && !c.complete && c.languages.None?
  {
    hide WeightedEvidence, WeightedDuplicates, ReferenceEvidence, LegacyTotal, LegacyDuplicates, LegacyReferences,
      Round;
    LegacySums(raw.edges);
    RoundIsNearest(WeightedEvidence(raw.edges));
    RoundIsNearest(WeightedDuplicates(raw.edges));
    RoundIsNearest(ReferenceEvidence(raw.edges));
  }
}
