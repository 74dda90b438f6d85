/** Records of the cross-file call graph (clients/symbol-types.ts, clients/call-graph.ts).
    A TypeScript optional property is an `Option`; `undefined` is `None`. */
module CallGraphTypes {
  import opened JsMap

  datatype Symbol = Symbol(
    id: string, name: string, kind: string, filePath: string,
    line: int, endLine: Option<int>, column: int)

  datatype EvidenceKind = Calls | References | Mixed

  /** A reference is tagged by one source; only an edge can be mixed. */
  type RefEvidence = k: EvidenceKind | k != Mixed witness Calls

  datatype ReferenceKind = CallReference | TypeReference | UnknownReference

  datatype Resolution = Exact | Import | ReceiverType | NameOnly | Unresolved

  datatype SymbolRef = SymbolRef(
    symbolId: string, symbolName: Option<string>, line: int,
    evidenceKind: Option<RefEvidence>, referenceKind: Option<ReferenceKind>,
    targetId: Option<string>, callerSymbolId: Option<string>, resolution: Option<Resolution>)

  datatype Edge = Edge(
    callerFile: string, callerSymbol: Option<string>, callerKey: string,
    callerKind: Option<string>, callerLine: Option<int>, callerColumn: Option<int>,
    calleeFile: string, calleeSymbol: string, calleeKey: string,
    calleeKind: Option<string>, calleeLine: Option<int>, calleeColumn: Option<int>,
    evidenceKind: Option<EvidenceKind>, resolution: Option<Resolution>,
    evidenceCount: Option<int>, weight: real)

  datatype LanguageStatus = Complete | Partial | Unavailable

  datatype Coverage = Coverage(
    totalEvidence: int, callsEvidence: int, referencesEvidence: int,
    eligibleEvidence: int, resolvedEvidence: int, unresolvedEvidence: int,
    typeOnlyEvidence: int, unsupportedEvidence: int, sameFileEvidence: int,
    duplicateEvidence: int, complete: bool,
    languages: Option<Entries<string, LanguageStatus>>)

  type Adjacency = Entries<string, seq<string>>
  type Degrees = Entries<string, real>

  datatype FunctionCallGraph = FunctionCallGraph(
    callees: Adjacency, callers: Adjacency, edges: seq<Edge>, inDegree: Degrees,
    unresolvedRefs: int, totalRefs: int, coverage: Option<Coverage>, builtAt: string)

  function EmptyCoverage(): Coverage {
    Coverage(0, 0, 0, 0, 0, 0, 0, 0, 0, 0, false, None)
  }

  function OrElse<T>(o: Option<T>, default: T): T {
    match o case Some(v) => v case None => default
  }

  function EvidenceCount(e: Edge): int { OrElse(e.evidenceCount, 1) }

  /** JavaScript truthiness of an optional string. */
  predicate Truthy(o: Option<string>) { o.Some? && o.value != "" }

  // ---- the three views of an edge list -------------------------------------------

  /** One adjacency insertion: `(map.get(k) ?? new Set()).add(v)`. */
  function Link(m: Adjacency, k: string, v: string): Adjacency {
    Put(m, k, Add(OrElse(Get(m, k), []), v))
  }

  function Credit(m: Degrees, k: string, w: real): Degrees {
    Put(m, k, OrElse(Get(m, k), 0.0) + w)
  }

  function Outgoing(edges: seq<Edge>): Adjacency {
    if edges == [] then []
    else var e := edges[|edges| - 1]; Link(Outgoing(edges[..|edges| - 1]), e.callerKey, e.calleeKey)
  }

  function Incoming(edges: seq<Edge>): Adjacency {
    if edges == [] then []
    else var e := edges[|edges| - 1]; Link(Incoming(edges[..|edges| - 1]), e.calleeKey, e.callerKey)
  }

  function InDegrees(edges: seq<Edge>): Degrees {
    if edges == [] then []
    else var e := edges[|edges| - 1]; Credit(InDegrees(edges[..|edges| - 1]), e.calleeKey, e.weight)
  }

  // ---- what the views mean -------------------------------------------------------

  /** Callee keys of the edges leaving `k`, in edge order. */
  function CalleesOf(edges: seq<Edge>, k: string): seq<string> {
    if edges == [] then []
    else var e := edges[|edges| - 1];
         CalleesOf(edges[..|edges| - 1], k) + (if e.callerKey == k then [e.calleeKey] else [])
  }

  function CallersOf(edges: seq<Edge>, k: string): seq<string> {
    if edges == [] then []
    else var e := edges[|edges| - 1];
         CallersOf(edges[..|edges| - 1], k) + (if e.calleeKey == k then [e.callerKey] else [])
  }

  /** Total weight of the edges entering `k`. */
  function WeightInto(edges: seq<Edge>, k: string): real {
    if edges == [] then 0.0
    else var e := edges[|edges| - 1];
         WeightInto(edges[..|edges| - 1], k) + (if e.calleeKey == k then e.weight else 0.0)
  }

  predicate Leaves(edges: seq<Edge>, k: string) { exists i :: 0 <= i < |edges| && edges[i].callerKey == k }
  predicate Enters(edges: seq<Edge>, k: string) { exists i :: 0 <= i < |edges| && edges[i].calleeKey == k }

  ghost predicate DistinctPairs(edges: seq<Edge>) {
    forall i, j :: 0 <= i < j < |edges| ==>
      edges[i].callerKey != edges[j].callerKey || edges[i].calleeKey != edges[j].calleeKey
  }

  lemma {:induction false} CalleesOfMember(edges: seq<Edge>, k: string, v: string)
    ensures v in CalleesOf(edges, k)
      <==> exists i :: 0 <= i < |edges| && edges[i].callerKey == k && edges[i].calleeKey == v
  {
    if edges == [] {
    } else {
      var front := edges[..|edges| - 1];
      CalleesOfMember(front, k, v);
      if i :| 0 <= i < |edges| && edges[i].callerKey == k && edges[i].calleeKey == v && i < |edges| - 1 {
        assert front[i] == edges[i];
      }
    }
  }

  lemma {:induction false} CallersOfMember(edges: seq<Edge>, k: string, v: string)
    ensures v in CallersOf(edges, k)
      <==> exists i :: 0 <= i < |edges| && edges[i].calleeKey == k && edges[i].callerKey == v
  {
    if edges == [] {
    } else {
      var front := edges[..|edges| - 1];
      CallersOfMember(front, k, v);
      if i :| 0 <= i < |edges| && edges[i].calleeKey == k && edges[i].callerKey == v && i < |edges| - 1 {
        assert front[i] == edges[i];
      }
    }
  }

  /** With distinct pairs each view is exactly the corresponding projection of the edges. */
  lemma {:induction false} OutgoingIsProjection(edges: seq<Edge>, k: string)
    requires DistinctPairs(edges)
    ensures Get(Outgoing(edges), k) == if Leaves(edges, k) then Some(CalleesOf(edges, k)) else None
    ensures !Leaves(edges, k) ==> CalleesOf(edges, k) == []
  {
    if edges == [] {
    } else {
      var front, e := edges[..|edges| - 1], edges[|edges| - 1];
      OutgoingIsProjection(front, k);
      CalleesOfMember(front, k, e.calleeKey);
      assert e.callerKey == k ==> e.calleeKey !in CalleesOf(front, k) by {
        if i :| 0 <= i < |front| && front[i].callerKey == k && front[i].calleeKey == e.calleeKey {
          assert edges[i] == front[i];
        }
      }
      PutGet(Outgoing(front), e.callerKey, Add(OrElse(Get(Outgoing(front), e.callerKey), []), e.calleeKey), k);
      LeavesSnoc(edges, k);
      assert [] + [e.calleeKey] == [e.calleeKey] && CalleesOf(front, k) + [] == CalleesOf(front, k);
      assert Outgoing(edges) == Link(Outgoing(front), e.callerKey, e.calleeKey);
    }
  }

  lemma {:induction false} IncomingIsProjection(edges: seq<Edge>, k: string)
    requires DistinctPairs(edges)
    ensures Get(Incoming(edges), k) == if Enters(edges, k) then Some(CallersOf(edges, k)) else None
    ensures !Enters(edges, k) ==> CallersOf(edges, k) == []
  {
    if edges == [] {
    } else {
      var front, e := edges[..|edges| - 1], edges[|edges| - 1];
      IncomingIsProjection(front, k);
      CallersOfMember(front, k, e.callerKey);
      assert e.calleeKey == k ==> e.callerKey !in CallersOf(front, k) by {
        if i :| 0 <= i < |front| && front[i].calleeKey == k && front[i].callerKey == e.callerKey {
          assert edges[i] == front[i];
        }
      }
      PutGet(Incoming(front), e.calleeKey, Add(OrElse(Get(Incoming(front), e.calleeKey), []), e.callerKey), k);
      EntersSnoc(edges, k);
      assert [] + [e.callerKey] == [e.callerKey] && CallersOf(front, k) + [] == CallersOf(front, k);
      assert Incoming(edges) == Link(Incoming(front), e.calleeKey, e.callerKey);
    }
  }

  lemma LeavesSnoc(edges: seq<Edge>, k: string)
    requires edges != []
    ensures Leaves(edges, k) <==> Leaves(edges[..|edges| - 1], k) || edges[|edges| - 1].callerKey == k
  {
    var front, e := edges[..|edges| - 1], edges[|edges| - 1];
    if i :| 0 <= i < |front| && front[i].callerKey == k { assert edges[i].callerKey == k; }
    if i :| 0 <= i < |edges| && edges[i].callerKey == k && e.callerKey != k { assert front[i].callerKey == k; }
  }

  lemma EntersSnoc(edges: seq<Edge>, k: string)
    requires edges != []
    ensures Enters(edges, k) <==> Enters(edges[..|edges| - 1], k) || edges[|edges| - 1].calleeKey == k
  {
    var front, e := edges[..|edges| - 1], edges[|edges| - 1];
    if i :| 0 <= i < |front| && front[i].calleeKey == k { assert edges[i].calleeKey == k; }
    if i :| 0 <= i < |edges| && edges[i].calleeKey == k && e.calleeKey != k { assert front[i].calleeKey == k; }
  }

  lemma {:induction false} InDegreesIsSum(edges: seq<Edge>, k: string)
    ensures Get(InDegrees(edges), k) == if Enters(edges, k) then Some(WeightInto(edges, k)) else None
    ensures !Enters(edges, k) ==> WeightInto(edges, k) == 0.0
  {
    if edges == [] {
    } else {
      var front, e := edges[..|edges| - 1], edges[|edges| - 1];
      InDegreesIsSum(front, k);
      PutGet(InDegrees(front), e.calleeKey, OrElse(Get(InDegrees(front), e.calleeKey), 0.0) + e.weight, k);
      EntersSnoc(edges, k);
    }
  }

  /** The views read only the keys and weights. */
  ghost predicate SameKeys(a: seq<Edge>, b: seq<Edge>) {
    |a| == |b| && forall i :: 0 <= i < |a| ==>
      a[i].callerKey == b[i].callerKey && a[i].calleeKey == b[i].calleeKey && a[i].weight == b[i].weight
  }

  lemma {:induction false} ViewsReadKeys(a: seq<Edge>, b: seq<Edge>)
    requires SameKeys(a, b)
    ensures Outgoing(a) == Outgoing(b) && Incoming(a) == Incoming(b) && InDegrees(a) == InDegrees(b)
  {
    if a == [] {
    } else {
      ViewsReadKeys(a[..|a| - 1], b[..|b| - 1]);
    }
  }

  lemma {:induction false} ViewsAreMaps(edges: seq<Edge>)
    ensures Unique(Outgoing(edges)) && Unique(Incoming(edges)) && Unique(InDegrees(edges))
    ensures forall i :: 0 <= i < |Outgoing(edges)| ==> Distinct(Outgoing(edges)[i].1)
    ensures forall i :: 0 <= i < |Incoming(edges)| ==> Distinct(Incoming(edges)[i].1)
  {
    if edges == [] {
    } else {
      var front, e := edges[..|edges| - 1], edges[|edges| - 1];
      ViewsAreMaps(front);
      LinkKeepsMap(Outgoing(front), e.callerKey, e.calleeKey);
      LinkKeepsMap(Incoming(front), e.calleeKey, e.callerKey);
      PutShape(InDegrees(front), e.calleeKey, OrElse(Get(InDegrees(front), e.calleeKey), 0.0) + e.weight);
    }
  }

  lemma LinkKeepsMap(m: Adjacency, k: string, v: string)
    requires Unique(m) && forall i :: 0 <= i < |m| ==> Distinct(m[i].1)
    ensures Unique(Link(m, k, v)) && forall i :: 0 <= i < |Link(m, k, v)| ==> Distinct(Link(m, k, v)[i].1)
  {
    var s := Add(OrElse(Get(m, k), []), v);
    PutShape(m, k, s);
    HasIsGet(m, k);
    if Has(m, k) {
      var i := GetIndex(m, k);
      PutAt(m, k, s, i);
    }
  }

  // ---- evidence ledgers ----------------------------------------------------------

  /** `count * weight`, as repeated addition. */
  function Times(count: int, weight: real): real
    decreases if count < 0 then -count else count
  {
    if count == 0 then 0.0
    else if count > 0 then Times(count - 1, weight) + weight
    else Times(count + 1, weight) - weight
  }

  lemma {:induction false} TimesIsProduct(count: int, weight: real)
    ensures Times(count, weight) == count as real * weight
    decreases if count < 0 then -count else count
  {
    if count > 0 {
      TimesIsProduct(count - 1, weight);
      assert count as real * weight == (count - 1) as real * weight + weight;
    } else if count < 0 {
      TimesIsProduct(count + 1, weight);
      assert count as real * weight == (count + 1) as real * weight - weight;
    }
  }

  /** Sum of evidenceCount times weight. */
  function WeightedEvidence(edges: seq<Edge>): real {
    if edges == [] then 0.0
    else var e := edges[|edges| - 1];
         WeightedEvidence(edges[..|edges| - 1]) + Times(EvidenceCount(e), e.weight)
  }

  /** Sum of (evidenceCount - 1) times weight. */
  function WeightedDuplicates(edges: seq<Edge>): real {
    if edges == [] then 0.0
    else var e := edges[|edges| - 1];
         WeightedDuplicates(edges[..|edges| - 1]) + Times(EvidenceCount(e) - 1, e.weight)
  }
}
