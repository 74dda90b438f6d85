/** The JavaScript collections the repository relies on, as values.

    A JavaScript `Map` iterates in insertion order, keeps the position of a key that is
    written again, and moves a key to the end only when it is deleted first. Several of
    the modelled algorithms depend on exactly that, so a `Map` is a sequence of entries
    with distinct keys, and a `Set` is a sequence of distinct elements. */
module JsMap {

  datatype Option<+T> = None | Some(value: T)

  type Entries<K, V> = seq<(K, V)>

  function Keys<K, V>(m: Entries<K, V>): (ks: seq<K>)
    ensures |ks| == |m|
    ensures forall i :: 0 <= i < |m| ==> ks[i] == m[i].0
  {
    if m == [] then [] else [m[0].0] + Keys(m[1..])
  }

  ghost predicate Distinct<T>(s: seq<T>) {
    forall i, j :: 0 <= i < j < |s| ==> s[i] != s[j]
  }

  /** The invariant every JavaScript `Map` has by construction. */
  ghost predicate Unique<K, V>(m: Entries<K, V>) {
    forall i, j :: 0 <= i < j < |m| ==> m[i].0 != m[j].0
  }

  predicate Has<K(==), V>(m: Entries<K, V>, k: K) {
    m != [] && (m[0].0 == k || Has(m[1..], k))
  }

  function Get<K(==), V>(m: Entries<K, V>, k: K): Option<V> {
    if m == [] then None else if m[0].0 == k then Some(m[0].1) else Get(m[1..], k)
  }

  /** `map.set(k, v)`: overwrite in place, or append. */
  function Put<K(==), V>(m: Entries<K, V>, k: K, v: V): Entries<K, V> {
    if m == [] then [(k, v)]
    else if m[0].0 == k then [(k, v)] + m[1..]
    else [m[0]] + Put(m[1..], k, v)
  }

  /** `map.delete(k)`. */
  function Remove<K(==), V>(m: Entries<K, V>, k: K): Entries<K, V> {
    if m == [] then []
    else if m[0].0 == k then m[1..]
    else [m[0]] + Remove(m[1..], k)
  }

  /** `set.add(x)`. */
  function Add<T(==)>(s: seq<T>, x: T): seq<T> {
    if x in s then s else s + [x]
  }

  /** Several `set.add`, in order. */
  function AddAll<T(==)>(s: seq<T>, more: seq<T>): seq<T> {
    if more == [] then s else Add(AddAll(s, more[..|more| - 1]), more[|more| - 1])
  }

  lemma {:induction false} AddAllMembers<T>(s: seq<T>, more: seq<T>)
    requires Distinct(s)
    ensures Distinct(AddAll(s, more)) && forall x :: x in AddAll(s, more) <==> x in s || x in more
  {
    if more == [] {
    } else {
      AddAllMembers(s, more[..|more| - 1]);
      assert more == more[..|more| - 1] + [more[|more| - 1]];
    }
  }

  lemma TakeSnoc<T>(s: seq<T>, i: nat)
    requires i < |s|
    ensures s[..i + 1] == s[..i] + [s[i]] && s[..i + 1][..i] == s[..i]
  {}

  // ---- lookups -------------------------------------------------------------------

  lemma {:induction false} HasIsGet<K, V>(m: Entries<K, V>, k: K)
    ensures Has(m, k) <==> Get(m, k).Some?
    ensures Has(m, k) <==> exists i :: 0 <= i < |m| && m[i].0 == k
  {
    if m == [] {
    } else {
      HasIsGet(m[1..], k);
      if m[0].0 != k && Has(m[1..], k) {
        var i :| 0 <= i < |m[1..]| && m[1..][i].0 == k;
        assert m[i + 1].0 == k;
      }
      if i :| 0 <= i < |m| && m[i].0 == k && i > 0 {
        assert m[1..][i - 1].0 == k;
      }
    }
  }

  lemma {:induction false} KeysHas<K, V>(m: Entries<K, V>, k: K)
    ensures k in Keys(m) <==> Has(m, k)
  {
    if m == [] {
    } else {
      KeysHas(m[1..], k);
    }
  }

  lemma {:induction false} GetAt<K, V>(m: Entries<K, V>, i: int)
    requires Unique(m) && 0 <= i < |m|
    ensures Get(m, m[i].0) == Some(m[i].1)
  {
    if i == 0 {
    } else {
      assert m[1..][i - 1] == m[i];
      GetAt(m[1..], i - 1);
    }
  }

  lemma {:induction false} GetIndex<K, V>(m: Entries<K, V>, k: K) returns (i: int)
    requires Get(m, k).Some?
    ensures 0 <= i < |m| && m[i].0 == k && m[i].1 == Get(m, k).value
    ensures forall j :: 0 <= j < i ==> m[j].0 != k
  {
    if m[0].0 == k { i := 0; } else {
      var j := GetIndex(m[1..], k);
      i := j + 1;
    }
  }

  lemma {:induction false} GetAppend<K, V>(m: Entries<K, V>, n: Entries<K, V>, k: K)
    ensures Get(m + n, k) == if Get(m, k).Some? then Get(m, k) else Get(n, k)
  {
    if m == [] { assert m + n == n; } else {
      assert (m + n)[1..] == m[1..] + n;
      GetAppend(m[1..], n, k);
    }
  }

  // ---- updates -------------------------------------------------------------------

  lemma {:induction false} PutGet<K, V>(m: Entries<K, V>, k: K, v: V, q: K)
    ensures Get(Put(m, k, v), q) == if q == k then Some(v) else Get(m, q)
  {
    if m == [] || m[0].0 == k {
    } else {
      PutGet(m[1..], k, v, q);
    }
  }

  lemma {:induction false} PutShape<K, V>(m: Entries<K, V>, k: K, v: V)
    ensures !Has(m, k) ==> Put(m, k, v) == m + [(k, v)]
    ensures Has(m, k) ==> |Put(m, k, v)| == |m| && Keys(Put(m, k, v)) == Keys(m)
    ensures Unique(m) ==> Unique(Put(m, k, v))
  {
    if m == [] || m[0].0 == k {
    } else {
      PutShape(m[1..], k, v);
      if Unique(m) {
        assert Unique(m[1..]);
        var p := Put(m[1..], k, v);
        forall i | 0 <= i < |p| ensures p[i].0 != m[0].0 {
          if Has(m[1..], k) {
            assert Keys(p)[i] == Keys(m[1..])[i];
          }
        }
      }
    }
  }

  /** On keys, `map.set` is `set.add`. */
  lemma PutKeys<K, V>(m: Entries<K, V>, k: K, v: V)
    ensures Keys(Put(m, k, v)) == Add(Keys(m), k)
  {
    PutShape(m, k, v);
    KeysHas(m, k);
    HasIsGet(m, k);
    if !Has(m, k) { assert Keys(m + [(k, v)]) == Keys(m) + [k]; }
  }

  lemma {:induction false} PutAt<K, V>(m: Entries<K, V>, k: K, v: V, i: int)
    requires Unique(m) && 0 <= i < |m| && m[i].0 == k
    ensures Put(m, k, v) == m[i := (k, v)]
  {
    if i == 0 {
    } else {
      assert m[1..][i - 1] == m[i];
      PutAt(m[1..], k, v, i - 1);
    }
  }

  /** Overwriting a present key changes its first entry and nothing else. */
  lemma {:induction false} PutFirst<K, V>(m: Entries<K, V>, k: K, v: V) returns (i: nat)
    requires Get(m, k).Some?
    ensures i < |m| && m[i] == (k, Get(m, k).value) && Put(m, k, v) == m[i := (k, v)]
  {
    if m[0].0 == k { i := 0; } else {
      var j := PutFirst(m[1..], k, v);
      i := j + 1;
    }
  }

  lemma {:induction false} PutNew<K, V>(m: Entries<K, V>, k: K, v: V)
    requires Get(m, k).None?
    ensures Put(m, k, v) == m + [(k, v)]
  {
    if m == [] {
    } else {
      PutNew(m[1..], k, v);
    }
  }

  lemma {:induction false} RemoveShape<K, V>(m: Entries<K, V>, k: K)
    requires Unique(m)
    ensures Unique(Remove(m, k)) && !Has(Remove(m, k), k)
    ensures |Remove(m, k)| == if Has(m, k) then |m| - 1 else |m|
    ensures forall q :: q != k ==> Get(Remove(m, k), q) == Get(m, q)
  {
    if m == [] {
    } else {
      HasIsGet(m[1..], k);
      if m[0].0 != k {
        RemoveShape(m[1..], k);
        var r := Remove(m[1..], k);
        forall i | 0 <= i < |r| ensures r[i].0 != m[0].0 {
          GetAt(r, i);
          HasIsGet(m[1..], r[i].0);
          HasIsGet(r, k);
          assert r[i].0 != k;
          HasIsGet(m[1..], m[0].0);
        }
      } else {
        forall i | 0 <= i < |m[1..]| ensures m[1..][i].0 != k { assert m[1..][i] == m[i + 1]; }
      }
    }
  }

  lemma {:induction false} RemoveAbsent<K, V>(m: Entries<K, V>, k: K)
    requires !Has(m, k)
    ensures Remove(m, k) == m
  {
    if m == [] {
    } else {
      RemoveAbsent(m[1..], k);
    }
  }

  lemma {:induction false} RemoveAppend<K, V>(m: Entries<K, V>, n: Entries<K, V>, k: K)
    ensures Remove(m + n, k) == if Has(m, k) then Remove(m, k) + n else m + Remove(n, k)
  {
    if m == [] { assert m + n == n; } else {
      assert (m + n)[1..] == m[1..] + n;
      RemoveAppend(m[1..], n, k);
    }
  }

  lemma {:induction false} HasAppend<K, V>(m: Entries<K, V>, n: Entries<K, V>, k: K)
    ensures Has(m + n, k) <==> Has(m, k) || Has(n, k)
  {
    HasIsGet(m + n, k); HasIsGet(m, k); HasIsGet(n, k);
    GetAppend(m, n, k);
  }
}
