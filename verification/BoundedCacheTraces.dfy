/** Laws of whole traces over the bounded collections (clients/bounded-cache.ts): LRU
    inclusion between capacities, what an LRU and a FIFO map hold after any trace, and
    conservation of keys through returned evictions. */
module BoundedCacheTraces {
  import opened JsMap
  import opened BoundedCache
  import opened Numbers

  datatype Op<K, V> =
    | Read(key: K)
    | Write(key: K, value: Option<V>)
    | Drop(key: K)
    | Empty
    | Resize(max: int)

  /** Entries and capacity. */
  datatype Store<K, V> = Store(entries: Stored<K, V>, max: int)

  /** The effect of one operation on an LRU cache: the entries before eviction. */
  function LruBefore<K(==), V>(m: Stored<K, V>, op: Op<K, V>): Stored<K, V> {
    match op
    case Read(k) => Promote(m, k)
    case Write(k, v) => Touch(m, k, v)
    case Drop(k) => Remove(m, k)
    case Empty => []
    case Resize(_) => m
  }

  function FifoBefore<K(==), V>(m: Stored<K, V>, op: Op<K, V>): Stored<K, V> {
    match op
    case Read(_) => m
    case Write(k, v) => Put(m, k, v)
    case Drop(k) => Remove(m, k)
    case Empty => []
    case Resize(_) => m
  }

  function NextMax<K, V>(max: int, op: Op<K, V>): int { match op case Resize(n) => n case _ => max }

  function LruStep<K(==), V>(s: Store<K, V>, op: Op<K, V>): Store<K, V> {
    Store(Kept(LruBefore(s.entries, op), NextMax(s.max, op)), NextMax(s.max, op))
  }

  function FifoStep<K(==), V>(s: Store<K, V>, op: Op<K, V>): Store<K, V> {
    Store(Kept(FifoBefore(s.entries, op), NextMax(s.max, op)), NextMax(s.max, op))
  }

  function LruRun<K(==), V>(ops: seq<Op<K, V>>, max: int): Store<K, V> {
    if ops == [] then Store([], max) else LruStep(LruRun(ops[..|ops| - 1], max), ops[|ops| - 1])
  }

  function FifoRun<K(==), V>(ops: seq<Op<K, V>>, max: int): Store<K, V> {
    if ops == [] then Store([], max) else FifoStep(FifoRun(ops[..|ops| - 1], max), ops[|ops| - 1])
  }

  ghost predicate Bounded<K, V>(s: Store<K, V>) {
    Unique(s.entries) && (|s.entries| <= s.max || s.entries == [])
  }

  lemma LruBeforeUnique<K, V>(m: Stored<K, V>, op: Op<K, V>)
    requires Unique(m)
    ensures Unique(LruBefore(m, op))
  {
    match op {
      case Read(k) =>
        var found: Option<Option<V>> := Get(m, k);
        if found.Some? && found.value.Some? { TouchUnique(m, k, found.value); }
      case Write(k, v) => TouchUnique(m, k, v);
      case Drop(k) => RemoveShape(m, k);
      case _ =>
    }
  }

  lemma FifoBeforeUnique<K, V>(m: Stored<K, V>, op: Op<K, V>)
    requires Unique(m)
    ensures Unique(FifoBefore(m, op))
  {
    match op {
      case Write(k, v) => PutShape(m, k, v);
      case Drop(k) => RemoveShape(m, k);
      case _ =>
    }
  }

  lemma {:induction false} LruRunBounded<K, V>(ops: seq<Op<K, V>>, max: int)
    ensures Bounded(LruRun(ops, max))
  {
    if ops == [] {
    } else {
      LruRunBounded(ops[..|ops| - 1], max);
      LruBeforeUnique(LruRun(ops[..|ops| - 1], max).entries, ops[|ops| - 1]);
    }
  }

  lemma {:induction false} FifoRunBounded<K, V>(ops: seq<Op<K, V>>, max: int)
    ensures Bounded(FifoRun(ops, max))
  {
    if ops == [] {
    } else {
      FifoRunBounded(ops[..|ops| - 1], max);
      FifoBeforeUnique(FifoRun(ops[..|ops| - 1], max).entries, ops[|ops| - 1]);
    }
  }

  // ---- selecting entries by key --------------------------------------------------

  /** The entries whose key is in `s`, in order. */
  function Select<K(==), V>(m: Stored<K, V>, s: set<K>): Stored<K, V> {
    if m == [] then []
    else if m[0].0 in s then [m[0]] + Select(m[1..], s)
    else Select(m[1..], s)
  }

  function KeySet<K(==), V>(m: Stored<K, V>): set<K> { set i | 0 <= i < |m| :: m[i].0 }

  lemma KeySetHas<K, V>(m: Stored<K, V>, k: K)
    ensures k in KeySet(m) <==> Has(m, k)
  {
    HasIsGet(m, k);
  }

  lemma {:induction false} SelectAppend<K, V>(a: Stored<K, V>, b: Stored<K, V>, s: set<K>)
    ensures Select(a + b, s) == Select(a, s) + Select(b, s)
  {
    if a == [] { assert a + b == b; } else {
      assert (a + b)[1..] == a[1..] + b;
      SelectAppend(a[1..], b, s);
    }
  }

  lemma {:induction false} SelectRemove<K, V>(m: Stored<K, V>, s: set<K>, k: K)
    requires Unique(m)
    ensures Select(Remove(m, k), s) == Remove(Select(m, s), k)
  {
    if m == [] {
    } else {
      assert ([m[0]] + Select(m[1..], s))[1..] == Select(m[1..], s);
      if m[0].0 == k {
        SelectMisses(m[1..], s, k);
        RemoveAbsent(Select(m[1..], s), k);
      } else {
        SelectRemove(m[1..], s, k);
        assert ([m[0]] + Remove(m[1..], k))[1..] == Remove(m[1..], k);
      }
    }
  }

  lemma {:induction false} SelectHas<K, V>(m: Stored<K, V>, s: set<K>, k: K)
    ensures Get(Select(m, s), k) == if k in s then Get(m, k) else None
  {
    if m == [] {
    } else {
      SelectHas(m[1..], s, k);
      assert ([m[0]] + Select(m[1..], s))[1..] == Select(m[1..], s);
    }
  }

  lemma SelectMisses<K, V>(m: Stored<K, V>, s: set<K>, k: K)
    requires forall i :: 0 <= i < |m| ==> m[i].0 != k
    ensures !Has(Select(m, s), k)
  {
    SelectHas(m, s, k);
    HasIsGet(m, k);
    HasIsGet(Select(m, s), k);
  }

  /** Only membership of the present keys matters. */
  lemma {:induction false} SelectSame<K, V>(m: Stored<K, V>, s: set<K>, t: set<K>)
    requires forall i :: 0 <= i < |m| ==> (m[i].0 in s <==> m[i].0 in t)
    ensures Select(m, s) == Select(m, t)
  {
    if m == [] {
    } else {
      assert forall i :: 0 <= i < |m[1..]| ==> m[1..][i] == m[i + 1];
      SelectSame(m[1..], s, t);
    }
  }

  lemma {:induction false} SelectAll<K, V>(m: Stored<K, V>, s: set<K>)
    requires forall i :: 0 <= i < |m| ==> m[i].0 in s
    ensures Select(m, s) == m
  {
    if m == [] {
    } else {
      assert forall i :: 0 <= i < |m[1..]| ==> m[1..][i] == m[i + 1];
      SelectAll(m[1..], s);
    }
  }

  // ---- LRU inclusion -------------------------------------------------------------

  /** The small cache is what the large one holds of the small one's keys: same values, same
      relative order. */
  ghost predicate Included<K, V>(small: Stored<K, V>, large: Stored<K, V>) {
    small == Select(large, KeySet(small))
  }

  ghost predicate Nested<K, V>(small: Stored<K, V>, large: Stored<K, V>, n: int, m: int) {
    && Unique(small) && Unique(large) && Included(small, large)
    && |large| - |small| <= AtLeastZero(m) - AtLeastZero(n)
  }

  /** Selecting by the small cache's keys and one more that the large one lacks. */
  lemma IncludedTouch<K, V>(small: Stored<K, V>, large: Stored<K, V>, k: K, v: Option<V>)
    requires Unique(small) && Unique(large) && Included(small, large)
    ensures Included(Touch(small, k, v), Touch(large, k, v))
  {
    var s, t := KeySet(small), KeySet(Touch(small, k, v));
    RemoveShape(large, k);
    RemoveShape(small, k);
    SelectAppend(Remove(large, k), [(k, v)], t);
    forall q | q != k ensures q in s <==> q in t {
      KeySetHas(small, q);
      KeySetHas(Touch(small, k, v), q);
      HasAppend(Remove(small, k), [(k, v)], q);
      HasIsGet(small, q);
      HasIsGet(Remove(small, k), q);
    }
    var rest := Remove(large, k);
    forall i | 0 <= i < |rest| ensures rest[i].0 != k { HasIsGet(rest, k); }
    SelectSame(rest, s, t);
    SelectRemove(large, s, k);
    KeySetHas(Touch(small, k, v), k);
    HasAppend(Remove(small, k), [(k, v)], k);
    assert Select([(k, v)], t) == [(k, v)];
  }

  /** A promotion of a key only the large cache holds changes nothing for the small one. */
  lemma IncludedPromoteLarge<K, V>(small: Stored<K, V>, large: Stored<K, V>, k: K, v: Option<V>)
    requires Unique(small) && Unique(large) && Included(small, large) && !Has(small, k)
    ensures Included(small, Touch(large, k, v))
  {
    var s := KeySet(small);
    SelectAppend(Remove(large, k), [(k, v)], s);
    SelectRemove(large, s, k);
    RemoveAbsent(small, k);
    KeySetHas(small, k);
    assert Select([(k, v)], s) == [];
  }

  lemma IncludedRemove<K, V>(small: Stored<K, V>, large: Stored<K, V>, k: K)
    requires Unique(small) && Unique(large) && Included(small, large)
    ensures Included(Remove(small, k), Remove(large, k))
  {
    var s, t := KeySet(small), KeySet(Remove(small, k));
    RemoveShape(large, k);
    RemoveShape(small, k);
    SelectRemove(large, s, k);
    var rest := Remove(large, k);
    forall i | 0 <= i < |rest| ensures rest[i].0 in s <==> rest[i].0 in t {
      HasIsGet(rest, k);
      var q := rest[i].0;
      KeySetHas(small, q);
      KeySetHas(Remove(small, k), q);
      HasIsGet(small, q);
      HasIsGet(Remove(small, k), q);
    }
    SelectSame(rest, s, t);
  }

  lemma IncludedAgrees<K, V>(small: Stored<K, V>, large: Stored<K, V>, k: K)
    requires Included(small, large)
    ensures Has(small, k) ==> Has(large, k) && Get(small, k) == Get(large, k)
  {
    SelectHas(large, KeySet(small), k);
    HasIsGet(small, k);
    HasIsGet(large, k);
    KeySetHas(small, k);
  }

  /** The oldest entry of the small cache may go on its own. */
  lemma EvictSmall<K, V>(small: Stored<K, V>, large: Stored<K, V>)
    requires Unique(small) && Unique(large) && Included(small, large) && small != []
    ensures Included(small[1..], large)
  {
    RemoveFirst(small);
    IncludedRemove(small, large, small[0].0);
    var k := small[0].0;
    var t := KeySet(small[1..]);
    KeySetHas(small[1..], k);
    RemoveShape(small, k);
    SelectRemove(large, t, k);
    SelectHas(large, t, k);
    HasIsGet(Select(large, t), k);
    RemoveAbsent(Select(large, t), k);
  }

  lemma RemoveFirst<K, V>(m: Stored<K, V>)
    requires m != []
    ensures Remove(m, m[0].0) == m[1..]
  {}

  /** The oldest of the large cache may go too, once the small one no longer holds it. */
  lemma EvictLarge<K, V>(small: Stored<K, V>, large: Stored<K, V>)
    requires Included(small, large) && large != [] && large[0].0 !in KeySet(small)
    ensures Included(small, large[1..])
  {}

  /** If the large cache's oldest key is in the small one, it is the small one's oldest. */
  lemma OldestAgree<K, V>(small: Stored<K, V>, large: Stored<K, V>)
    requires Included(small, large) && large != [] && large[0].0 in KeySet(small)
    ensures small != [] && small[0] == large[0]
  {}

  lemma EvictBoth<K, V>(small: Stored<K, V>, large: Stored<K, V>)
    requires Unique(small) && Unique(large) && Included(small, large) && small != [] && large != []
    ensures Included(small[1..], large[1..])
  {
    if large[0].0 in KeySet(small) { OldestAgree(small, large); }
    EvictSmall(small, large);
    KeySetHas(small[1..], large[0].0);
    HasIsGet(small[1..], large[0].0);
    EvictLarge(small[1..], large);
  }

  /** After one operation each cache is at most one over its capacity; evicting keeps them
      nested, and the large one never evicts unless the small one does. */
  lemma EvictNested<K, V>(small: Stored<K, V>, large: Stored<K, V>, n: int, m: int)
    requires n <= m && Nested(small, large, n, m)
    requires |small| <= AtLeastZero(n) + 1 && |large| <= AtLeastZero(m) + 1
    ensures Nested(Kept(small, n), Kept(large, m), n, m)
    ensures |Kept(small, n)| <= AtLeastZero(n) && |Kept(large, m)| <= AtLeastZero(m)
  {
    if |small| > AtLeastZero(n) {
      assert Kept(small, n) == small[1..];
      if |large| > AtLeastZero(m) {
        assert Kept(large, m) == large[1..];
        EvictBoth(small, large);
      } else {
        EvictSmall(small, large);
      }
    }
  }

  predicate FixedCapacity<K, V>(ops: seq<Op<K, V>>) {
    forall i :: 0 <= i < |ops| ==> !ops[i].Resize?
  }

  lemma BeforeNested<K, V>(small: Stored<K, V>, large: Stored<K, V>, n: int, m: int, op: Op<K, V>)
    requires n <= m && Nested(small, large, n, m) && !op.Resize?
    requires |small| <= AtLeastZero(n) && |large| <= AtLeastZero(m)
    ensures Nested(LruBefore(small, op), LruBefore(large, op), n, m)
    ensures |LruBefore(small, op)| <= AtLeastZero(n) + 1 && |LruBefore(large, op)| <= AtLeastZero(m) + 1
  {
    LruBeforeUnique(small, op);
    LruBeforeUnique(large, op);
    match op {
      case Read(k) =>
        IncludedAgrees(small, large, k);
        HasIsGet(small, k);
        HasIsGet(large, k);
        var found: Option<Option<V>> := Get(large, k);
        if found.Some? && found.value.Some? {
          TouchUnique(small, k, found.value);
          TouchUnique(large, k, found.value);
          if Has(small, k) { IncludedTouch(small, large, k, found.value); }
          else { IncludedPromoteLarge(small, large, k, found.value); }
        }
      case Write(k, v) =>
        IncludedAgrees(small, large, k);
        TouchUnique(small, k, v);
        TouchUnique(large, k, v);
        IncludedTouch(small, large, k, v);
      case Drop(k) =>
        IncludedAgrees(small, large, k);
        RemoveShape(small, k);
        RemoveShape(large, k);
        IncludedRemove(small, large, k);
      case Empty =>
    }
  }

  /** LRU inclusion: on one trace, the cache with the smaller capacity always holds a part of
      what the larger one holds, in the same order with the same values, and the larger one
      holds at most the difference of the capacities in addition. */
  lemma {:induction false} LruInclusion<K, V>(ops: seq<Op<K, V>>, n: int, m: int)
    requires n <= m && FixedCapacity(ops)
    ensures Nested(LruRun(ops, n).entries, LruRun(ops, m).entries, n, m)
    ensures LruRun(ops, n).max == n && LruRun(ops, m).max == m
    ensures |LruRun(ops, n).entries| <= AtLeastZero(n) && |LruRun(ops, m).entries| <= AtLeastZero(m)
  {
    if ops == [] {
    } else {
      var front, op := ops[..|ops| - 1], ops[|ops| - 1];
      LruInclusion(front, n, m);
      BeforeNested(LruRun(front, n).entries, LruRun(front, m).entries, n, m, op);
      EvictNested(LruBefore(LruRun(front, n).entries, op), LruBefore(LruRun(front, m).entries, op), n, m);
    }
  }

  /** A larger cache never turns a hit into a miss. */
  lemma LargerCacheKeepsHits<K, V>(ops: seq<Op<K, V>>, n: int, m: int, k: K)
    requires n <= m && FixedCapacity(ops) && Has(LruRun(ops, n).entries, k)
    ensures Get(LruRun(ops, m).entries, k) == Get(LruRun(ops, n).entries, k)
    ensures |LruRun(ops, m).entries| - |LruRun(ops, n).entries| <= m - n
  {
    LruInclusion(ops, n, m);
    IncludedAgrees(LruRun(ops, n).entries, LruRun(ops, m).entries, k);
  }

  // ---- what an LRU holds ---------------------------------------------------------

  /** The writes and the promoting reads of a trace, each with the value the key then has. */
  function Uses<K(==), V>(ops: seq<Op<K, V>>, max: int): Stored<K, V> {
    if ops == [] then []
    else
      var front, op := ops[..|ops| - 1], ops[|ops| - 1];
      Uses(front, max) + (match op
                          case Write(k, v) => [(k, v)]
                          case Read(k) =>
                            var found: Option<Option<V>> := Get(LruRun(front, max).entries, k);
                            if found.Some? && found.value.Some? then [(k, found.value)] else []
                          case _ => [])
  }

  /** Each key once, ordered by its last use, with its last value. */
  function ByLastUse<K(==), V>(uses: Stored<K, V>): Stored<K, V> {
    if uses == [] then []
    else Touch(ByLastUse(uses[..|uses| - 1]), uses[|uses| - 1].0, uses[|uses| - 1].1)
  }

  predicate ReadsAndWrites<K, V>(ops: seq<Op<K, V>>) {
    forall i :: 0 <= i < |ops| ==> ops[i].Read? || ops[i].Write?
  }

  function LastOf<K, V>(m: Stored<K, V>, n: nat): Stored<K, V> {
    if |m| <= n then m else m[|m| - n..]
  }

  lemma {:induction false} ByLastUseUnique<K, V>(uses: Stored<K, V>)
    ensures Unique(ByLastUse(uses))
  {
    if uses == [] {
    } else {
      ByLastUseUnique(uses[..|uses| - 1]);
      TouchUnique(ByLastUse(uses[..|uses| - 1]), uses[|uses| - 1].0, uses[|uses| - 1].1);
    }
  }

  lemma NotInBoth<K, V>(a: Stored<K, V>, b: Stored<K, V>, k: K)
    requires Unique(a + b) && Has(b, k)
    ensures !Has(a, k)
  {
    HasIsGet(a, k);
    HasIsGet(b, k);
    var j :| 0 <= j < |b| && b[j].0 == k;
    assert (a + b)[|a| + j] == b[j];
    forall i | 0 <= i < |a| ensures a[i].0 != k { assert (a + b)[i] == a[i]; }
  }

  /** Touching a key inside the window leaves what is outside alone. */
  lemma TouchInside<K, V>(older: Stored<K, V>, window: Stored<K, V>, k: K, v: Option<V>)
    requires Unique(older + window) && Has(window, k)
    ensures Touch(older + window, k, v) == older + Touch(window, k, v)
  {
    NotInBoth(older, window, k);
    RemoveAppend(older, window, k);
  }

  lemma RemoveOutside<K, V>(older: Stored<K, V>, window: Stored<K, V>, k: K)
    requires !Has(window, k)
    ensures Remove(older + window, k) == Remove(older, k) + window
  {
    RemoveAppend(older, window, k);
    if !Has(older, k) {
      RemoveAbsent(older, k);
      RemoveAbsent(window, k);
    }
  }

  /** Touching a key outside the window appends it. */
  lemma TouchOutside<K, V>(older: Stored<K, V>, window: Stored<K, V>, k: K, v: Option<V>) returns (rest: Stored<K, V>)
    requires !Has(window, k)
    ensures rest == Remove(older, k)
    ensures Touch(older + window, k, v) == rest + (window + [(k, v)]) && Touch(window, k, v) == window + [(k, v)]
  {
    rest := Remove(older, k);
    RemoveOutside(older, window, k);
    RemoveAbsent(window, k);
    assert rest + window + [(k, v)] == rest + (window + [(k, v)]);
  }

  /** Touching commutes with keeping the newest: a key outside the window displaces the
      oldest of it. */
  lemma LastOfTouch<K, V>(all: Stored<K, V>, n: nat, k: K, v: Option<V>)
    requires Unique(all)
    ensures Kept(Touch(LastOf(all, n), k, v), n) == LastOf(Touch(all, k, v), n)
  {
    var window := LastOf(all, n);
    var older := all[..|all| - |window|];
    assert all == older + window;
    if Has(window, k) {
      TouchInside(older, window, k, v);
      TouchUnique(window, k, v);
    } else {
      var rest := TouchOutside(older, window, k, v);
      LastOfJoin(rest, window + [(k, v)], n);
      if older == [] { assert rest == []; }
    }
  }

  /** A window that is full needs nothing from before it. */
  lemma LastOfJoin<K, V>(rest: Stored<K, V>, window: Stored<K, V>, n: nat)
    requires |window| > 0 && (|window| > n || rest == [])
    ensures LastOf(rest + window, n) == LastOf(window, n) == Kept(window, n)
  {
    assert rest == [] ==> rest + window == window;
  }

  /** Without deletes, an LRU holds exactly the newest keys by last write or hit, in that
      order, each with its last value. */
  lemma {:induction false} LruHoldsLastUsed<K, V>(ops: seq<Op<K, V>>, max: nat)
    requires ReadsAndWrites(ops)
    ensures LruRun(ops, max) == Store(LastOf(ByLastUse(Uses(ops, max)), max), max)
  {
    if ops == [] {
    } else {
      var front, op := ops[..|ops| - 1], ops[|ops| - 1];
      LruHoldsLastUsed(front, max);
      var uses := Uses(front, max);
      ByLastUseUnique(uses);
      var m := LruRun(front, max).entries;
      match op {
        case Write(k, v) =>
          LastOfTouch(ByLastUse(uses), max, k, v);
          assert (uses + [(k, v)])[..|uses|] == uses;
        case Read(k) =>
          var found: Option<Option<V>> := Get(m, k);
          if found.Some? && found.value.Some? {
            LastOfTouch(ByLastUse(uses), max, k, found.value);
            assert (uses + [(k, found.value)])[..|uses|] == uses;
          } else {
            assert uses + [] == uses;
          }
      }
    }
  }

  /** Position of the last use of a key, or -1. */
  function LastUse<K(==), V>(uses: Stored<K, V>, k: K): (i: int)
    ensures -1 <= i < |uses|
    ensures i >= 0 ==> uses[i].0 == k
    ensures forall j :: i < j < |uses| ==> uses[j].0 != k
  {
    if uses == [] then -1
    else if uses[|uses| - 1].0 == k then |uses| - 1
    else LastUse(uses[..|uses| - 1], k)
  }

  ghost predicate Ordered<K, V>(m: Stored<K, V>, uses: Stored<K, V>) {
    forall i, j :: 0 <= i < j < |m| ==> LastUse(uses, m[i].0) < LastUse(uses, m[j].0)
  }

  ghost predicate LastValues<K, V>(m: Stored<K, V>, uses: Stored<K, V>) {
    forall i :: 0 <= i < |m| ==> LastUse(uses, m[i].0) >= 0 && m[i].1 == uses[LastUse(uses, m[i].0)].1
  }

  lemma {:induction false} RemoveAt<K, V>(m: Stored<K, V>, k: K) returns (p: nat)
    requires Has(m, k)
    ensures p < |m| && m[p].0 == k && Remove(m, k) == m[..p] + m[p + 1..]
  {
    if m[0].0 == k {
      p := 0;
    } else {
      var q := RemoveAt(m[1..], k);
      p := q + 1;
      assert m[..p] == [m[0]] + m[1..][..q];
    }
  }

  lemma LastUseSnoc<K, V>(front: Stored<K, V>, last: (K, Option<V>), q: K)
    ensures LastUse(front + [last], q) == if q == last.0 then |front| else LastUse(front, q)
  {
    assert (front + [last])[..|front|] == front;
  }

  lemma SublistKeepsOrder<K, V>(m: Stored<K, V>, p: nat, uses: Stored<K, V>)
    requires p < |m| && Ordered(m, uses) && LastValues(m, uses)
    ensures Ordered(m[..p] + m[p + 1..], uses) && LastValues(m[..p] + m[p + 1..], uses)
  {}

  lemma TouchOrdered<K, V>(rest: Stored<K, V>, front: Stored<K, V>, last: (K, Option<V>))
    requires Ordered(rest, front) && LastValues(rest, front)
    requires forall i :: 0 <= i < |rest| ==> rest[i].0 != last.0
    ensures Ordered(rest + [last], front + [last]) && LastValues(rest + [last], front + [last])
  {
    forall i | 0 <= i < |rest| ensures LastUse(front + [last], rest[i].0) == LastUse(front, rest[i].0) {
      LastUseSnoc(front, last, rest[i].0);
    }
    LastUseSnoc(front, last, last.0);
  }

  /** The reading of `ByLastUse`: exactly the used keys, in order of last use, each with the
      value of that use. */
  lemma {:induction false} ByLastUseMeaning<K, V>(uses: Stored<K, V>)
    ensures Ordered(ByLastUse(uses), uses) && LastValues(ByLastUse(uses), uses)
    ensures forall k :: Has(ByLastUse(uses), k) <==> LastUse(uses, k) >= 0
  {
    if uses == [] {
    } else {
      var front, last := uses[..|uses| - 1], uses[|uses| - 1];
      assert uses == front + [last];
      ByLastUseMeaning(front);
      ByLastUseUnique(front);
      var m := ByLastUse(front);
      var rest := Remove(m, last.0);
      if Has(m, last.0) {
        var p := RemoveAt(m, last.0);
        SublistKeepsOrder(m, p, front);
      } else {
        RemoveAbsent(m, last.0);
      }
      RemoveShape(m, last.0);
      HasIsGet(rest, last.0);
      TouchOrdered(rest, front, last);
      forall k ensures Has(rest + [last], k) <==> LastUse(uses, k) >= 0 {
        LastUseSnoc(front, last, k);
        HasAppend(rest, [last], k);
        HasIsGet(rest, k);
        HasIsGet(m, k);
      }
    }
  }

  // ---- FIFO order ----------------------------------------------------------------

  /** When a held key was inserted, counting only insertions of an absent key. */
  function BornAt<K(==), V>(ops: seq<Op<K, V>>, max: int, k: K): nat {
    if ops == [] then 0
    else
      var front := ops[..|ops| - 1];
      if Has(FifoRun(front, max).entries, k) then BornAt(front, max, k) else |front|
  }

  ghost predicate InBirthOrder<K, V>(m: Stored<K, V>, ops: seq<Op<K, V>>, max: int) {
    forall i, j :: 0 <= i < j < |m| ==> BornAt(ops, max, m[i].0) < BornAt(ops, max, m[j].0)
  }

  lemma {:induction false} BornBefore<K, V>(ops: seq<Op<K, V>>, max: int, k: K)
    requires Has(FifoRun(ops, max).entries, k)
    ensures BornAt(ops, max, k) < |ops|
  {
    if ops == [] {
    } else {
      var front := ops[..|ops| - 1];
      if Has(FifoRun(front, max).entries, k) { BornBefore(front, max, k); }
    }
  }

  lemma SublistBirthOrder<K, V>(m: Stored<K, V>, p: nat, ops: seq<Op<K, V>>, max: int)
    requires p < |m| && InBirthOrder(m, ops, max)
    ensures InBirthOrder(m[..p] + m[p + 1..], ops, max)
  {}

  /** Births of the keys that stay do not move; a new key is born last. */
  lemma BirthsKeep<K, V>(ops: seq<Op<K, V>>, op: Op<K, V>, max: int, k: K)
    ensures BornAt(ops + [op], max, k)
         == if Has(FifoRun(ops, max).entries, k) then BornAt(ops, max, k) else |ops|
  {
    assert (ops + [op])[..|ops|] == ops;
  }

  /** Entries that only lost some keys or changed values keep their order one step later. */
  lemma OrderCarries<K, V>(m: Stored<K, V>, ops: seq<Op<K, V>>, op: Op<K, V>, max: int)
    requires InBirthOrder(m, ops, max)
    requires forall i :: 0 <= i < |m| ==> Has(FifoRun(ops, max).entries, m[i].0)
    ensures InBirthOrder(m, ops + [op], max)
  {
    forall i | 0 <= i < |m| ensures BornAt(ops + [op], max, m[i].0) == BornAt(ops, max, m[i].0) {
      BirthsKeep(ops, op, max, m[i].0);
    }
  }

  lemma OverwriteKeepsKeys<K, V>(m: Stored<K, V>, k: K, v: Option<V>)
    requires Has(m, k)
    ensures |Put(m, k, v)| == |m| && forall i :: 0 <= i < |m| ==> Put(m, k, v)[i].0 == m[i].0
  {
    HasIsGet(m, k);
    var at := PutFirst(m, k, v);
  }

  lemma AllHeld<K, V>(m: Stored<K, V>)
    ensures forall i :: 0 <= i < |m| ==> Has(m, m[i].0)
  {
    forall i | 0 <= i < |m| ensures Has(m, m[i].0) { HasIsGet(m, m[i].0); }
  }

  /** Before eviction the entries are in birth order, whatever the operation. */
  lemma BeforeInBirthOrder<K, V>(ops: seq<Op<K, V>>, op: Op<K, V>, max: int)
    requires InBirthOrder(FifoRun(ops, max).entries, ops, max)
    ensures InBirthOrder(FifoBefore(FifoRun(ops, max).entries, op), ops + [op], max)
  {
    var m := FifoRun(ops, max).entries;
    AllHeld(m);
    OrderCarries(m, ops, op, max);
    match op {
      case Write(k, v) =>
        if Has(m, k) {
          OverwriteKeepsKeys(m, k, v);
        } else {
          HasIsGet(m, k);
          PutNew(m, k, v);
          BirthsKeep(ops, op, max, k);
          forall i | 0 <= i < |m| ensures BornAt(ops + [op], max, m[i].0) < |ops| {
            BirthsKeep(ops, op, max, m[i].0);
            BornBefore(ops, max, m[i].0);
          }
        }
      case Drop(k) =>
        if Has(m, k) {
          var p := RemoveAt(m, k);
          SublistBirthOrder(m, p, ops + [op], max);
        } else {
          RemoveAbsent(m, k);
        }
      case _ =>
    }
  }

  /** A FIFO map always lists its keys in the order in which they were last inserted while
      absent; reads and rewrites never change it. */
  lemma {:induction false} FifoInBirthOrder<K, V>(ops: seq<Op<K, V>>, max: int)
    ensures InBirthOrder(FifoRun(ops, max).entries, ops, max)
  {
    if ops == [] {
    } else {
      var front, op := ops[..|ops| - 1], ops[|ops| - 1];
      assert ops == front + [op];
      FifoInBirthOrder(front, max);
      BeforeInBirthOrder(front, op, max);
    }
  }

  /** So every eviction takes the keys that have been present longest. */
  lemma FifoEvictsOldest<K, V>(ops: seq<Op<K, V>>, op: Op<K, V>, max: int, i: nat, j: nat)
    requires var s := FifoRun(ops, max);
             var before, cap := FifoBefore(s.entries, op), NextMax(s.max, op);
             i < |Evicted(before, cap)| && j < |Kept(before, cap)|
    ensures var s := FifoRun(ops, max);
            var before, cap := FifoBefore(s.entries, op), NextMax(s.max, op);
            BornAt(ops + [op], max, Evicted(before, cap)[i].0) < BornAt(ops + [op], max, Kept(before, cap)[j].0)
  {
    FifoInBirthOrder(ops, max);
    BeforeInBirthOrder(ops, op, max);
  }

  // ---- conservation --------------------------------------------------------------

  function KeyBag<K(==), V>(m: Stored<K, V>): multiset<K> { multiset(Keys(m)) }

  /** What one operation adds to and takes from the held keys, besides eviction. */
  function Gained<K(==), V>(m: Stored<K, V>, op: Op<K, V>): multiset<K> {
    match op case Write(k, _) => if Has(m, k) then multiset{} else multiset{k} case _ => multiset{}
  }

  function Dropped<K(==), V>(m: Stored<K, V>, op: Op<K, V>): multiset<K> {
    match op
    case Drop(k) => if Has(m, k) then multiset{k} else multiset{}
    case Empty => KeyBag(m)
    case _ => multiset{}
  }

  /** Running totals over a trace. */
  datatype Account<K> = Account(inserted: multiset<K>, dropped: multiset<K>, evicted: multiset<K>)

  function FifoAccount<K(==), V>(ops: seq<Op<K, V>>, max: int): Account<K> {
    if ops == [] then Account(multiset{}, multiset{}, multiset{})
    else
      var front, op := ops[..|ops| - 1], ops[|ops| - 1];
      var a, s := FifoAccount(front, max), FifoRun(front, max);
      Account(a.inserted + Gained(s.entries, op), a.dropped + Dropped(s.entries, op),
              a.evicted + KeyBag(Evicted(FifoBefore(s.entries, op), NextMax(s.max, op))))
  }

  function LruAccount<K(==), V>(ops: seq<Op<K, V>>, max: int): Account<K> {
    if ops == [] then Account(multiset{}, multiset{}, multiset{})
    else
      var front, op := ops[..|ops| - 1], ops[|ops| - 1];
      var a, s := LruAccount(front, max), LruRun(front, max);
      Account(a.inserted + Gained(s.entries, op), a.dropped + Dropped(s.entries, op),
              a.evicted + KeyBag(Evicted(LruBefore(s.entries, op), NextMax(s.max, op))))
  }

  lemma SplitBag<K, V>(m: Stored<K, V>, max: int)
    ensures KeyBag(m) == KeyBag(Evicted(m, max)) + KeyBag(Kept(m, max))
  {
    assert m == Evicted(m, max) + Kept(m, max);
    KeysAppend(Evicted(m, max), Kept(m, max));
  }

  lemma AppendBag<K, V>(m: Stored<K, V>, k: K, v: Option<V>)
    ensures KeyBag(m + [(k, v)]) == KeyBag(m) + multiset{k}
  {
    KeysAppend(m, [(k, v)]);
    assert Keys([(k, v)]) == [k];
  }

  lemma JoinBag<K, V>(a: Stored<K, V>, b: Stored<K, V>)
    ensures KeyBag(a + b) == KeyBag(a) + KeyBag(b)
  {
    KeysAppend(a, b);
  }

  lemma SingleBag<K, V>(e: (K, Option<V>))
    ensures KeyBag([e]) == multiset{e.0}
  {
    assert Keys([e]) == [e.0];
  }

  lemma RemoveBag<K, V>(m: Stored<K, V>, k: K)
    ensures KeyBag(m) == KeyBag(Remove(m, k)) + (if Has(m, k) then multiset{k} else multiset{})
  {
    hide KeyBag, Remove;
    if Has(m, k) {
      var p := RemoveAt(m, k);
      var a, b := m[..p], m[p + 1..];
      assert m == a + ([m[p]] + b);
      JoinBag(a, [m[p]] + b);
      JoinBag([m[p]], b);
      JoinBag(a, b);
      SingleBag(m[p]);
    } else {
      RemoveAbsent(m, k);
    }
  }

  lemma PutBag<K, V>(m: Stored<K, V>, k: K, v: Option<V>)
    ensures KeyBag(Put(m, k, v)) == KeyBag(m) + (if Has(m, k) then multiset{} else multiset{k})
  {
    PutShape(m, k, v);
    if !Has(m, k) { AppendBag(m, k, v); }
  }

  lemma TouchBag<K, V>(m: Stored<K, V>, k: K, v: Option<V>)
    ensures KeyBag(Touch(m, k, v)) == KeyBag(m) + (if Has(m, k) then multiset{} else multiset{k})
  {
    RemoveBag(m, k);
    AppendBag(Remove(m, k), k, v);
  }

  lemma FifoStepBag<K, V>(m: Stored<K, V>, op: Op<K, V>)
    ensures KeyBag(m) + Gained(m, op) == KeyBag(FifoBefore(m, op)) + Dropped(m, op)
  {
    match op {
      case Write(k, v) => PutBag(m, k, v);
      case Drop(k) => RemoveBag(m, k);
      case _ =>
    }
  }

  lemma LruStepBag<K, V>(m: Stored<K, V>, op: Op<K, V>)
    ensures KeyBag(m) + Gained(m, op) == KeyBag(LruBefore(m, op)) + Dropped(m, op)
  {
    match op {
      case Read(k) =>
        var found: Option<Option<V>> := Get(m, k);
        if found.Some? && found.value.Some? {
          HasIsGet(m, k);
          TouchBag(m, k, found.value);
        }
      case Write(k, v) => TouchBag(m, k, v);
      case Drop(k) => RemoveBag(m, k);
      case _ =>
    }
  }

  /** One step of the books. */
  lemma BagBalance<K>(a: Account<K>, held: multiset<K>, gained: multiset<K>, dropped: multiset<K>,
                      before: multiset<K>, evicted: multiset<K>, kept: multiset<K>)
    requires a.inserted == a.evicted + a.dropped + held
    requires held + gained == before + dropped
    requires before == evicted + kept
    ensures a.inserted + gained == (a.evicted + evicted) + (a.dropped + dropped) + kept
  {
    forall k ensures (a.inserted + gained)[k] == ((a.evicted + evicted) + (a.dropped + dropped) + kept)[k] {
      assert (held + gained)[k] == (before + dropped)[k];
    }
  }

  /** Every inserted key is accounted for: returned as evicted, dropped by request, or still
      held. Capacity changes included. */
  lemma {:induction false} FifoConserves<K, V>(ops: seq<Op<K, V>>, max: int)
    ensures var a := FifoAccount(ops, max);
            a.inserted == a.evicted + a.dropped + KeyBag(FifoRun(ops, max).entries)
  {
    if ops == [] {
    } else {
      var front, op := ops[..|ops| - 1], ops[|ops| - 1];
      FifoConserves(front, max);
      var s := FifoRun(front, max);
      var before, cap := FifoBefore(s.entries, op), NextMax(s.max, op);
      FifoStepBag(s.entries, op);
      SplitBag(before, cap);
      BagBalance(FifoAccount(front, max), KeyBag(s.entries), Gained(s.entries, op), Dropped(s.entries, op),
                 KeyBag(before), KeyBag(Evicted(before, cap)), KeyBag(Kept(before, cap)));
    }
  }

  lemma {:induction false} LruConserves<K, V>(ops: seq<Op<K, V>>, max: int)
    ensures var a := LruAccount(ops, max);
            a.inserted == a.evicted + a.dropped + KeyBag(LruRun(ops, max).entries)
  {
    if ops == [] {
    } else {
      var front, op := ops[..|ops| - 1], ops[|ops| - 1];
      LruConserves(front, max);
      var s := LruRun(front, max);
      var before, cap := LruBefore(s.entries, op), NextMax(s.max, op);
      LruStepBag(s.entries, op);
      SplitBag(before, cap);
      BagBalance(LruAccount(front, max), KeyBag(s.entries), Gained(s.entries, op), Dropped(s.entries, op),
                 KeyBag(before), KeyBag(Evicted(before, cap)), KeyBag(Kept(before, cap)));
    }
  }
}
