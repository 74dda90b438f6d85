/** `impact` (clients/call-graph.ts:146-196): the depth-bounded, weight-filtered breadth-first
    search over callers, proved against shortest distances. */
module CallGraphImpact {
  import opened JsMap
  import opened Sorting
  import opened CallGraphTypes

  datatype Severity = WillBreak | MayBreak | Review

  datatype ImpactResult = ImpactResult(symbolKey: string, depth: int, severity: Severity)

  function SeverityForDepth(depth: int): Severity {
    if depth == 1 then WillBreak else if depth == 2 then MayBreak else Review
  }

  // ---- the graph the search walks ------------------------------------------------

  type WeightTable = Entries<(string, string), real>

  function MaxWeight(a: real, b: real): real { if a < b then b else a }

  /** Best weight per (callee, caller) pair. */
  function BestWeights(edges: seq<Edge>): WeightTable {
    if edges == [] then []
    else
      var before, e := BestWeights(edges[..|edges| - 1]), edges[|edges| - 1];
      Put(before, (e.calleeKey, e.callerKey), MaxWeight(OrElse(Get(before, (e.calleeKey, e.callerKey)), 0.0), e.weight))
  }

  /** The caller is listed for the callee and the best edge between them is heavy enough; a
      listed pair without an edge counts as weight one. */
  ghost predicate Calls(g: FunctionCallGraph, minWeight: real, callee: string, caller: string) {
    && caller in OrElse(Get(g.callers, callee), [])
    && OrElse(Get(BestWeights(g.edges), (callee, caller)), 1.0) >= minWeight
  }

  /** There is a caller path of exactly `n` steps from the start to `k`. */
  ghost predicate PathOf(g: FunctionCallGraph, minWeight: real, start: string, n: nat, k: string) {
    if n == 0 then k == start
    else exists u :: PathOf(g, minWeight, start, n - 1, u) && Calls(g, minWeight, u, k)
  }

  /** `d` is the length of a shortest caller path to `k`. */
  ghost predicate Distance(g: FunctionCallGraph, minWeight: real, start: string, d: nat, k: string) {
    PathOf(g, minWeight, start, d, k) && forall n: nat :: n < d ==> !PathOf(g, minWeight, start, n, k)
  }

  /** Affected within the depth bound. */
  ghost predicate Affected(g: FunctionCallGraph, minWeight: real, maxDepth: int, start: string, k: string) {
    k != start && exists n: nat :: n <= maxDepth && PathOf(g, minWeight, start, n, k)
  }

  // ---- what the weight table means -----------------------------------------------

  ghost predicate Between(e: Edge, callee: string, caller: string) { e.calleeKey == callee && e.callerKey == caller }

  /** The entry of a pair is the greatest weight of its edges (never below zero), and absent
      exactly when it has none. */
  lemma {:induction false} BestWeightIsMaximum(edges: seq<Edge>, callee: string, caller: string)
    ensures match Get(BestWeights(edges), (callee, caller))
            case None => forall i :: 0 <= i < |edges| ==> !Between(edges[i], callee, caller)
            case Some(w) =>
              && (exists i :: 0 <= i < |edges| && Between(edges[i], callee, caller))
              && (forall i :: 0 <= i < |edges| && Between(edges[i], callee, caller) ==> edges[i].weight <= w)
              && 0.0 <= w
              && (w == 0.0 || exists i :: 0 <= i < |edges| && Between(edges[i], callee, caller) && edges[i].weight == w)
  {
    if edges == [] {
    } else {
      var front, e := edges[..|edges| - 1], edges[|edges| - 1];
      assert forall i :: 0 <= i < |front| ==> edges[i] == front[i];
      BestWeightIsMaximum(front, callee, caller);
      var before := BestWeights(front);
      var q := (e.calleeKey, e.callerKey);
      PutGet(before, q, MaxWeight(OrElse(Get(before, q), 0.0), e.weight), (callee, caller));
      assert edges[|edges| - 1] == e;
    }
  }

  // ---- monotonicity of the specification -----------------------------------------

  lemma {:induction false} LighterFilterKeepsPaths(g: FunctionCallGraph, heavy: real, light: real, start: string,
                                                   n: nat, k: string)
    requires light <= heavy && PathOf(g, heavy, start, n, k)
    ensures PathOf(g, light, start, n, k)
  {
    if n == 0 {
    } else {
      var u :| PathOf(g, heavy, start, n - 1, u) && Calls(g, heavy, u, k);
      LighterFilterKeepsPaths(g, heavy, light, start, n - 1, u);
      assert Calls(g, light, u, k);
    }
  }

  /** Raising the depth bound or lowering the weight threshold never loses a symbol. */
  lemma AffectedIsMonotone(g: FunctionCallGraph, heavy: real, light: real, shallow: int, deep: int, start: string,
                           k: string)
    requires light <= heavy && shallow <= deep
    requires Affected(g, heavy, shallow, start, k)
    ensures Affected(g, light, deep, start, k)
  {
    var n: nat :| n <= shallow && PathOf(g, heavy, start, n, k);
    LighterFilterKeepsPaths(g, heavy, light, start, n, k);
  }

  // ---- search state --------------------------------------------------------------

  datatype Item = Item(key: string, depth: nat)

  /** Discovery depths: the visited set with the depth each key was found at. */
  type Depths = map<string, nat>

  ghost predicate Sound(g: FunctionCallGraph, w: real, start: string, found: Depths) {
    forall k :: k in found ==> PathOf(g, w, start, found[k], k)
  }

  ghost predicate Queued(found: Depths, queue: seq<Item>) {
    forall i :: 0 <= i < |queue| ==> queue[i].key in found && found[queue[i].key] == queue[i].depth
  }

  ghost predicate InQueue(queue: seq<Item>, k: string) { exists i :: 0 <= i < |queue| && queue[i].key == k }

  /** All callers of `u` were found, at most one step deeper. */
  ghost predicate Expanded(g: FunctionCallGraph, w: real, found: Depths, u: string)
    requires u in found
  {
    forall k :: Calls(g, w, u, k) ==> k in found && found[k] <= found[u] + 1
  }

  /** Every found key is still queued, too deep to expand, or expanded. */
  ghost predicate Closed(g: FunctionCallGraph, w: real, maxDepth: int, found: Depths, queue: seq<Item>) {
    forall u :: u in found ==> InQueue(queue, u) || found[u] >= maxDepth || Expanded(g, w, found, u)
  }

  /** Queue depths never decrease and span at most two levels; nothing found is deeper. */
  ghost predicate Layered(found: Depths, queue: seq<Item>) {
    && (forall i, j :: 0 <= i <= j < |queue| ==> queue[i].depth <= queue[j].depth)
    && (queue != [] ==> forall k :: k in found ==> found[k] <= queue[0].depth + 1)
  }

  /** When the queue is empty, everything reachable within the bound was found, at its
      shortest depth. */
  lemma {:induction false} ClosedIsComplete(g: FunctionCallGraph, w: real, maxDepth: int, start: string,
                                            found: Depths, n: nat, k: string)
    requires start in found && found[start] == 0
    requires Closed(g, w, maxDepth, found, [])
    requires n <= maxDepth && PathOf(g, w, start, n, k)
    ensures k in found && found[k] <= n
  {
    if n == 0 {
    } else {
      var u :| PathOf(g, w, start, n - 1, u) && Calls(g, w, u, k);
      ClosedIsComplete(g, w, maxDepth, start, found, n - 1, u);
      assert !InQueue([], u);
      assert Expanded(g, w, found, u);
    }
  }

  lemma FoundIsDistance(g: FunctionCallGraph, w: real, maxDepth: int, start: string, found: Depths, k: string)
    requires start in found && found[start] == 0
    requires Closed(g, w, maxDepth, found, []) && Sound(g, w, start, found)
    requires k in found && found[k] <= maxDepth
    ensures Distance(g, w, start, found[k], k)
  {
    forall n: nat | n < found[k] ensures !PathOf(g, w, start, n, k) {
      if PathOf(g, w, start, n, k) { ClosedIsComplete(g, w, maxDepth, start, found, n, k); }
    }
  }

  // ---- results -------------------------------------------------------------------

  /** Results are exactly the found keys other than the start, once each. */
  ghost predicate Recorded(start: string, found: Depths, results: seq<ImpactResult>) {
    && (forall i :: 0 <= i < |results| ==>
          && results[i].symbolKey in found && results[i].symbolKey != start
          && results[i].depth == found[results[i].symbolKey]
          && (results[i].severity == WillBreak <==> results[i].depth == 1)
          && (results[i].severity == MayBreak <==> results[i].depth == 2))
    && (forall i, j :: 0 <= i < j < |results| ==> results[i].symbolKey != results[j].symbolKey)
    && (forall k :: k in found && k != start ==> exists i :: 0 <= i < |results| && results[i].symbolKey == k)
  }

  ghost predicate Precise(g: FunctionCallGraph, w: real, maxDepth: int, start: string, results: seq<ImpactResult>) {
    && (forall i :: 0 <= i < |results| ==>
          && Affected(g, w, maxDepth, start, results[i].symbolKey)
          && 1 <= results[i].depth <= maxDepth
          && Distance(g, w, start, results[i].depth, results[i].symbolKey)
          && (results[i].severity == WillBreak <==> results[i].depth == 1)
          && (results[i].severity == MayBreak <==> results[i].depth == 2))
    && (forall i, j :: 0 <= i < j < |results| ==> results[i].symbolKey != results[j].symbolKey)
    && (forall k :: Affected(g, w, maxDepth, start, k) ==> exists i :: 0 <= i < |results| && results[i].symbolKey == k)
  }

  lemma RecordedIsPrecise(g: FunctionCallGraph, w: real, maxDepth: int, start: string, found: Depths,
                          results: seq<ImpactResult>)
    requires start in found && found[start] == 0
    requires Closed(g, w, maxDepth, found, []) && Sound(g, w, start, found)
    requires forall k :: k in found && k != start ==> 1 <= found[k] <= maxDepth
    requires Recorded(start, found, results)
    ensures Precise(g, w, maxDepth, start, results)
  {
    forall i | 0 <= i < |results|
      ensures Affected(g, w, maxDepth, start, results[i].symbolKey)
      ensures Distance(g, w, start, results[i].depth, results[i].symbolKey)
    {
      FoundIsDistance(g, w, maxDepth, start, found, results[i].symbolKey);
    }
    forall k | Affected(g, w, maxDepth, start, k) ensures exists i :: 0 <= i < |results| && results[i].symbolKey == k {
      var n: nat :| n <= maxDepth && PathOf(g, w, start, n, k);
      ClosedIsComplete(g, w, maxDepth, start, found, n, k);
    }
  }

  /** A permutation of precise results is precise. */
  lemma PermutedIsPrecise(g: FunctionCallGraph, w: real, maxDepth: int, start: string, a: seq<ImpactResult>,
                          b: seq<ImpactResult>)
    requires Precise(g, w, maxDepth, start, a) && multiset(a) == multiset(b)
    ensures Precise(g, w, maxDepth, start, b)
  {
    forall i | 0 <= i < |b| ensures exists j :: 0 <= j < |a| && a[j] == b[i] { SameMembers(a, b, b[i]); }
    forall i, j | 0 <= i < j < |b| ensures b[i].symbolKey != b[j].symbolKey {
      if b[i].symbolKey == b[j].symbolKey { TwiceInPermutation(a, b, i, j); }
    }
    forall k | Affected(g, w, maxDepth, start, k) ensures exists i :: 0 <= i < |b| && b[i].symbolKey == k {
      var i :| 0 <= i < |a| && a[i].symbolKey == k;
      SameMembers(a, b, a[i]);
    }
  }

  /** Two places with one key in a permutation come from two places of the original. */
  lemma TwiceInPermutation(a: seq<ImpactResult>, b: seq<ImpactResult>, i: nat, j: nat)
    requires multiset(a) == multiset(b) && i < j < |b| && b[i].symbolKey == b[j].symbolKey
    ensures exists p, q :: 0 <= p < q < |a| && a[p].symbolKey == a[q].symbolKey
  {
    SameMembers(a, b, b[i]);
    SameMembers(a, b, b[j]);
    var p :| 0 <= p < |a| && a[p] == b[i];
    var q :| 0 <= q < |a| && a[q] == b[j];
    if p == q {
      OccursTwice(b, i, j);
      var r := SecondPlace(a, p);
      assert a[r] == a[p];
      if r < p { assert a[r].symbolKey == a[p].symbolKey; } else { assert a[p].symbolKey == a[r].symbolKey; }
    } else if p < q {
      assert a[p].symbolKey == a[q].symbolKey;
    } else {
      assert a[q].symbolKey == a[p].symbolKey;
    }
  }

  lemma SecondPlace<T>(s: seq<T>, p: nat) returns (r: nat)
    requires p < |s| && multiset(s)[s[p]] >= 2
    ensures r < |s| && r != p && s[r] == s[p]
  {
    assert s == s[..p] + [s[p]] + s[p + 1..];
    assert multiset(s) == multiset(s[..p]) + multiset{s[p]} + multiset(s[p + 1..]);
    if s[p] in multiset(s[..p]) {
      var i :| 0 <= i < |s[..p]| && s[..p][i] == s[p];
      r := i;
    } else {
      assert s[p] in multiset(s[p + 1..]);
      var i :| 0 <= i < |s[p + 1..]| && s[p + 1..][i] == s[p];
      r := p + 1 + i;
    }
  }

  /** `a.depth - b.depth || a.symbolKey.localeCompare(b.symbolKey)` as an order. */
  function ByDepthThenKey(collate: (string, string) -> bool): (ImpactResult, ImpactResult) -> bool {
    (a: ImpactResult, b: ImpactResult) => a.depth < b.depth || (a.depth == b.depth && collate(a.symbolKey, b.symbolKey))
  }

  lemma ByDepthIsOrder(collate: (string, string) -> bool)
    requires TotalPreorder(collate)
    ensures TotalPreorder(ByDepthThenKey(collate))
  {
    var le := ByDepthThenKey(collate);
    forall x, y ensures le(x, y) || le(y, x) {
      assert collate(x.symbolKey, y.symbolKey) || collate(y.symbolKey, x.symbolKey);
    }
    forall x, y, z | le(x, y) && le(y, z) ensures le(x, z) {
      if x.depth == y.depth == z.depth {
        assert collate(x.symbolKey, y.symbolKey) && collate(y.symbolKey, z.symbolKey);
      }
    }
  }

  // ---- the program ---------------------------------------------------------------

  method WeightLookup(edges: seq<Edge>) returns (weights: WeightTable)
    ensures weights == BestWeights(edges)
  {
    weights := [];
    for i := 0 to |edges|
      invariant weights == BestWeights(edges[..i])
    {
      assert edges[..i + 1][..i] == edges[..i];
      var key := (edges[i].calleeKey, edges[i].callerKey);
      var existing := OrElse(Get(weights, key), 0.0);
      weights := Put(weights, key, MaxWeight(existing, edges[i].weight));
    }
    assert edges[..|edges|] == edges;
  }

  /** Depth bookkeeping while the callers of a key at depth `d` are expanded. */
  ghost predicate LayeredAt(d: nat, found: Depths, queue: seq<Item>) {
    && (forall i, j :: 0 <= i <= j < |queue| ==> queue[i].depth <= queue[j].depth)
    && (forall i :: 0 <= i < |queue| ==> d <= queue[i].depth <= d + 1)
    && (forall k :: k in found ==> found[k] <= d + 1)
  }

  /** The state of the search, apart from the layering and the closure. */
  ghost predicate SearchInv(g: FunctionCallGraph, w: real, maxDepth: int, start: string,
                            found: Depths, queue: seq<Item>, results: seq<ImpactResult>) {
    && start in found && found[start] == 0
    && (forall k :: k in found && k != start ==> 1 <= found[k] <= maxDepth)
    && Sound(g, w, start, found) && Queued(found, queue)
    && Recorded(start, found, results)
  }

  ghost predicate ClosedExcept(g: FunctionCallGraph, w: real, maxDepth: int, found: Depths, queue: seq<Item>,
                               key: string) {
    forall u :: u in found && u != key ==> InQueue(queue, u) || found[u] >= maxDepth || Expanded(g, w, found, u)
  }

  lemma PopLayered(found: Depths, queue: seq<Item>)
    requires queue != [] && Layered(found, queue) && Queued(found, queue)
    ensures LayeredAt(queue[0].depth, found, queue[1..]) && Queued(found, queue[1..])
  {}

  lemma PopClosed(g: FunctionCallGraph, w: real, maxDepth: int, found: Depths, queue: seq<Item>)
    requires queue != [] && Closed(g, w, maxDepth, found, queue)
    ensures ClosedExcept(g, w, maxDepth, found, queue[1..], queue[0].key)
  {
    forall u | u in found && u != queue[0].key && InQueue(queue, u) ensures InQueue(queue[1..], u) {
      var i :| 0 <= i < |queue| && queue[i].key == u;
      assert queue[1..][i - 1].key == u;
    }
  }

  lemma AtIsLayered(d: nat, found: Depths, queue: seq<Item>)
    requires LayeredAt(d, found, queue)
    ensures Layered(found, queue)
  {}

  /** Finding one new caller of `key` keeps every invariant. */
  lemma DiscoverSound(g: FunctionCallGraph, w: real, maxDepth: int, start: string, found: Depths, queue: seq<Item>,
                      results: seq<ImpactResult>, key: string, k: string)
    requires SearchInv(g, w, maxDepth, start, found, queue, results)
    requires key in found && found[key] < maxDepth && k !in found && Calls(g, w, key, k)
    ensures var d := found[key] + 1;
            SearchInv(g, w, maxDepth, start, found[k := d], queue + [Item(k, d)],
                      results + [ImpactResult(k, d, SeverityForDepth(d))])
  {
    var d := found[key] + 1;
    var next := found[k := d];
    assert PathOf(g, w, start, d - 1, key);
    assert PathOf(g, w, start, d, k);
    var r := results + [ImpactResult(k, d, SeverityForDepth(d))];
    forall x | x in next && x != start ensures exists i :: 0 <= i < |r| && r[i].symbolKey == x {
      if x == k {
        assert r[|results|].symbolKey == k;
      } else {
        var i :| 0 <= i < |results| && results[i].symbolKey == x;
        assert r[i].symbolKey == x;
      }
    }
  }

  lemma DiscoverLayered(d: nat, found: Depths, queue: seq<Item>, k: string)
    requires LayeredAt(d, found, queue) && k !in found
    ensures LayeredAt(d, found[k := d + 1], queue + [Item(k, d + 1)])
  {}

  lemma DiscoverClosed(g: FunctionCallGraph, w: real, maxDepth: int, found: Depths, queue: seq<Item>, key: string,
                       k: string, d: nat)
    requires ClosedExcept(g, w, maxDepth, found, queue, key) && k !in found
    ensures ClosedExcept(g, w, maxDepth, found[k := d], queue + [Item(k, d)], key)
  {
    var next, longer := found[k := d], queue + [Item(k, d)];
    forall u | u in next && u != key ensures InQueue(longer, u) || next[u] >= maxDepth || Expanded(g, w, next, u) {
      if u == k {
        assert longer[|queue|].key == k;
      } else if InQueue(queue, u) {
        var i :| 0 <= i < |queue| && queue[i].key == u;
        assert longer[i].key == u;
      } else if found[u] < maxDepth {
        assert Expanded(g, w, found, u);
      }
    }
  }

  /** Every key the search can meet. */
  function Universe(g: FunctionCallGraph): set<string> {
    set i, x | 0 <= i < |g.callers| && x in g.callers[i].1 :: x
  }

  lemma CallersInUniverse(g: FunctionCallGraph, key: string)
    ensures forall x :: x in OrElse(Get(g.callers, key), []) ==> x in Universe(g)
  {
    if Get(g.callers, key).Some? { var i := GetIndex(g.callers, key); }
  }

  ghost predicate Expanding(g: FunctionCallGraph, w: real, maxDepth: int, start: string, item: Item,
                            found: Depths, queue: seq<Item>, results: seq<ImpactResult>) {
    && SearchInv(g, w, maxDepth, start, found, queue, results)
    && item.key in found && found[item.key] == item.depth < maxDepth
    && LayeredAt(item.depth, found, queue) && ClosedExcept(g, w, maxDepth, found, queue, item.key)
  }

  /** The search state between two keys. */
  ghost predicate Searching(g: FunctionCallGraph, w: real, maxDepth: int, start: string,
                            found: Depths, queue: seq<Item>, results: seq<ImpactResult>) {
    && SearchInv(g, w, maxDepth, start, found, queue, results)
    && Layered(found, queue) && Closed(g, w, maxDepth, found, queue)
  }

  /** The callers examined so far that pass the filter have been found. */
  ghost predicate Examined(g: FunctionCallGraph, w: real, key: string, callers: seq<string>, found: Depths) {
    forall j :: 0 <= j < |callers| && Calls(g, w, key, callers[j]) ==> callers[j] in found
  }

  lemma ExaminedSnoc(g: FunctionCallGraph, w: real, key: string, callers: seq<string>, last: string, before: Depths,
                     after: Depths)
    requires Examined(g, w, key, callers, before) && before.Keys <= after.Keys
    requires Calls(g, w, key, last) ==> last in after
    ensures Examined(g, w, key, callers + [last], after)
  {
    var all := callers + [last];
    forall j | 0 <= j < |all| && Calls(g, w, key, all[j]) ensures all[j] in after {
      if j < |callers| { assert callers[j] in before; }
    }
  }

  lemma ExaminedAll(g: FunctionCallGraph, w: real, maxDepth: int, start: string, item: Item,
                    found: Depths, queue: seq<Item>, results: seq<ImpactResult>)
    requires Expanding(g, w, maxDepth, start, item, found, queue, results)
    requires Examined(g, w, item.key, OrElse(Get(g.callers, item.key), []), found)
    ensures Searching(g, w, maxDepth, start, found, queue, results)
  {
    assert Expanded(g, w, found, item.key);
    AtIsLayered(item.depth, found, queue);
  }

  /** One caller of the expanded key: skip it, or discover it. */
  method Visit(g: FunctionCallGraph, weights: WeightTable, start: string, maxDepth: int, minWeight: real, item: Item,
               callerKey: string, visited: set<string>, ghost found: Depths, queue: seq<Item>,
                 results: seq<ImpactResult>)
    returns (visited': set<string>, ghost found': Depths, queue': seq<Item>, results': seq<ImpactResult>)
    requires weights == BestWeights(g.edges) && visited == found.Keys
    requires callerKey in OrElse(Get(g.callers, item.key), [])
    requires Expanding(g, minWeight, maxDepth, start, item, found, queue, results)
    ensures visited' == found'.Keys && visited <= visited' <= visited + {callerKey}
    ensures visited' == visited ==> queue' == queue
    ensures Expanding(g, minWeight, maxDepth, start, item, found', queue', results')
    ensures Calls(g, minWeight, item.key, callerKey) ==> callerKey in found'
  {
    visited', found', queue', results' := visited, found, queue, results;
    if callerKey in visited { return; }
    var weight := OrElse(Get(weights, (item.key, callerKey)), 1.0);
    if weight < minWeight { return; }
    var depth := item.depth + 1;
    DiscoverSound(g, minWeight, maxDepth, start, found, queue, results, item.key, callerKey);
    DiscoverLayered(item.depth, found, queue, callerKey);
    DiscoverClosed(g, minWeight, maxDepth, found, queue, item.key, callerKey, depth);
    visited' := visited + {callerKey};
    found' := found[callerKey := depth];
    results' := results + [ImpactResult(callerKey, depth, SeverityForDepth(depth))];
    queue' := queue + [Item(callerKey, depth)];
  }

  /** Expand one key: enqueue each of its heavy enough callers not visited before. */
  method Expand(g: FunctionCallGraph, weights: WeightTable, start: string, maxDepth: int, minWeight: real,
                item: Item, visited: set<string>, ghost found: Depths, queue: seq<Item>, results: seq<ImpactResult>)
    returns (visited': set<string>, ghost found': Depths, queue': seq<Item>, results': seq<ImpactResult>)
    requires weights == BestWeights(g.edges) && visited == found.Keys
    requires Expanding(g, minWeight, maxDepth, start, item, found, queue, results)
    ensures visited' == found'.Keys && visited <= visited' <= visited + Universe(g)
    ensures visited' == visited ==> queue' == queue
    ensures Searching(g, minWeight, maxDepth, start, found', queue', results')
  {
    visited', found', queue', results' := visited, found, queue, results;
    var callers := OrElse(Get(g.callers, item.key), []);
    CallersInUniverse(g, item.key);
    for i := 0 to |callers|
      invariant visited' == found'.Keys && visited <= visited' <= visited + Universe(g)
      invariant visited' == visited ==> queue' == queue
      invariant Expanding(g, minWeight, maxDepth, start, item, found', queue', results')
      invariant Examined(g, minWeight, item.key, callers[..i], found')
    {
      ghost var before := found';
      visited', found', queue', results' :=
        Visit(g, weights, start, maxDepth, minWeight, item, callers[i], visited', found', queue', results');
      TakeSnoc(callers, i);
      ExaminedSnoc(g, minWeight, item.key, callers[..i], callers[i], before, found');
    }
    assert callers[..|callers|] == callers;
    ExaminedAll(g, minWeight, maxDepth, start, item, found', queue', results');
  }

  lemma SearchStarts(g: FunctionCallGraph, w: real, maxDepth: int, start: string)
    ensures Searching(g, w, maxDepth, start, map[start := 0], [Item(start, 0)], [])
  {
    assert PathOf(g, w, start, 0, start);
    assert [Item(start, 0)][0].key == start;
  }

  /** Taking the oldest key off the queue: it is about to be expanded, or too deep. */
  lemma SearchPops(g: FunctionCallGraph, w: real, maxDepth: int, start: string,
                   found: Depths, queue: seq<Item>, results: seq<ImpactResult>)
    requires queue != [] && Searching(g, w, maxDepth, start, found, queue, results)
    ensures queue[0].depth < maxDepth ==> Expanding(g, w, maxDepth, start, queue[0], found, queue[1..], results)
    ensures queue[0].depth >= maxDepth ==> Searching(g, w, maxDepth, start, found, queue[1..], results)
  {
    PopLayered(found, queue);
    PopClosed(g, w, maxDepth, found, queue);
    AtIsLayered(queue[0].depth, found, queue[1..]);
  }

  lemma SearchEnds(g: FunctionCallGraph, w: real, maxDepth: int, start: string, found: Depths,
                   results: seq<ImpactResult>, collate: (string, string) -> bool)
    requires Searching(g, w, maxDepth, start, found, [], results) && TotalPreorder(collate)
    ensures Precise(g, w, maxDepth, start, Sort(results, ByDepthThenKey(collate)))
    ensures SortedBy(Sort(results, ByDepthThenKey(collate)), ByDepthThenKey(collate))
  {
    RecordedIsPrecise(g, w, maxDepth, start, found, results);
    ByDepthIsOrder(collate);
    SortSorts(results, ByDepthThenKey(collate));
    PermutedIsPrecise(g, w, maxDepth, start, results, Sort(results, ByDepthThenKey(collate)));
  }

  /** Breadth-first search upstream. Terminates, and reports each affected symbol once, at its
      shortest distance, sorted by distance and then by the collation of its key. */
  method Impact(g: FunctionCallGraph, startKey: string, maxDepth: int, minWeight: real,
                collate: (string, string) -> bool)
    returns (sorted: seq<ImpactResult>)
    requires TotalPreorder(collate)
    ensures Precise(g, minWeight, maxDepth, startKey, sorted)
    ensures forall i, j :: 0 <= i < j < |sorted| ==>
              && sorted[i].depth <= sorted[j].depth
              && (sorted[i].depth == sorted[j].depth ==> collate(sorted[i].symbolKey, sorted[j].symbolKey))
  {
    var results: seq<ImpactResult> := [];
    var visited := {startKey};
    var queue := [Item(startKey, 0)];
    ghost var found: Depths := map[startKey := 0];
    SearchStarts(g, minWeight, maxDepth, startKey);
    var weights := WeightLookup(g.edges);
    ghost var universe := Universe(g) + {startKey};
    while |queue| > 0
      invariant visited == found.Keys && visited <= universe
      invariant Searching(g, minWeight, maxDepth, startKey, found, queue, results)
      decreases universe - visited, |queue|
    {
      var item := queue[0];
      SearchPops(g, minWeight, maxDepth, startKey, found, queue, results);
      queue := queue[1..];
      if item.depth >= maxDepth { continue; }
      visited, found, queue, results := Expand(g, weights, startKey, maxDepth, minWeight, item, visited, found,
        queue, results);
    }
    SearchEnds(g, minWeight, maxDepth, startKey, found, results, collate);
    sorted := Sort(results, ByDepthThenKey(collate));
  }
}
