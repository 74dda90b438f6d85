/** Bounded insertion-ordered collections (clients/bounded-cache.ts): the classes, and what
    each of their operations does to the entries, oldest first. A stored `undefined` is the
    value `None`. */
module BoundedCache {
  import opened JsMap

  type Stored<K, V> = Entries<K, Option<V>>

  // ---- one operation, on entries -------------------------------------------------

  /** How many of the oldest entries have to go. */
  function Overflow<K, V>(m: Stored<K, V>, max: int): (n: nat)
    ensures n <= |m|
    ensures |m| - n <= max || n == |m|
    ensures n > 0 ==> |m| - (n - 1) > max
  {
    if |m| <= max then 0 else if max < 0 then |m| else |m| - max
  }

  function Kept<K, V>(m: Stored<K, V>, max: int): Stored<K, V> { m[Overflow(m, max)..] }
  function Evicted<K, V>(m: Stored<K, V>, max: int): Stored<K, V> { m[..Overflow(m, max)] }

  /** `delete` then `set`: the key moves to the newest position. */
  function Touch<K(==), V>(m: Stored<K, V>, k: K, v: Option<V>): Stored<K, V> { Remove(m, k) + [(k, v)] }

  /** What a promoting read leaves behind: a stored `undefined` is not promoted. */
  function Promote<K(==), V>(m: Stored<K, V>, k: K): Stored<K, V> {
    var found: Option<Option<V>> := Get(m, k);
    if found.Some? && found.value.Some? then Touch(m, k, found.value) else m
  }

  /** The value a read returns: absence and a stored `undefined` look the same. */
  function Lookup<K(==), V>(m: Stored<K, V>, k: K): Option<V> {
    var found: Option<Option<V>> := Get(m, k);
    if found.Some? then found.value else None
  }

  lemma TouchUnique<K, V>(m: Stored<K, V>, k: K, v: Option<V>)
    requires Unique(m)
    ensures Unique(Touch(m, k, v)) && Put(Remove(m, k), k, v) == Touch(m, k, v)
    ensures |Touch(m, k, v)| == if Has(m, k) then |m| else |m| + 1
  {
    RemoveShape(m, k);
    HasIsGet(Remove(m, k), k);
    PutNew(Remove(m, k), k, v);
  }

  // ---- FIFO map ------------------------------------------------------------------

  class BoundedFifoMap<K(==), V> {
    var entries: Stored<K, V>
    var maxEntries: int

    ghost predicate Valid()
      reads this
    {
      Unique(entries) && (|entries| <= maxEntries || entries == [])
    }

    constructor (max: int)
      ensures Valid() && entries == [] && maxEntries == max
    {
      entries, maxEntries := [], max;
    }

    /** Reads never reorder. */
    method Get(key: K) returns (value: Option<V>)
      requires Valid()
      ensures value == Lookup(entries, key)
    {
      var found: Option<Option<V>> := JsMap.Get(entries, key);
      value := if found.Some? then found.value else None;
    }

    method Has(key: K) returns (present: bool)
      ensures present == JsMap.Has(entries, key)
    {
      present := JsMap.Has(entries, key);
    }

    /** Drop oldest-first until within capacity. */
    method EvictOverflow() returns (evicted: Stored<K, V>)
      requires Unique(entries)
      modifies this`entries
      ensures Valid()
      ensures entries == Kept(old(entries), maxEntries) && evicted == Evicted(old(entries), maxEntries)
    {
      evicted := [];
      ghost var all := entries;
      while |entries| > maxEntries
        invariant |evicted| <= |all| && evicted == all[..|evicted|] && entries == all[|evicted|..]
        invariant |evicted| > 0 ==> |entries| >= maxEntries
        decreases |entries|
      {
        if |entries| == 0 { break; }
        var oldest := entries[0];
        assert JsMap.Remove(entries, oldest.0) == entries[1..];
        entries := JsMap.Remove(entries, oldest.0);
        evicted := evicted + [oldest];
      }
    }

    /** Insert or update without reordering; returns the evicted entries, oldest first. */
    method Set(key: K, value: Option<V>) returns (evicted: Stored<K, V>)
      requires Valid()
      modifies this`entries
      ensures Valid()
      ensures entries == Kept(Put(old(entries), key, value), maxEntries)
      ensures evicted == Evicted(Put(old(entries), key, value), maxEntries)
    {
      PutShape(entries, key, value);
      entries := Put(entries, key, value);
      evicted := EvictOverflow();
    }

    method SetMaxEntries(max: int) returns (evicted: Stored<K, V>)
      requires Valid()
      modifies this
      ensures Valid() && maxEntries == max
      ensures entries == Kept(old(entries), max) && evicted == Evicted(old(entries), max)
    {
      maxEntries := max;
      evicted := EvictOverflow();
    }

    method Delete(key: K) returns (existed: bool)
      requires Valid()
      modifies this`entries
      ensures Valid() && entries == JsMap.Remove(old(entries), key)
      ensures existed == JsMap.Has(old(entries), key)
    {
      RemoveShape(entries, key);
      existed := JsMap.Has(entries, key);
      entries := JsMap.Remove(entries, key);
    }

    method Clear()
      modifies this`entries
      ensures Valid() && entries == []
    {
      entries := [];
    }
  }

  // ---- LRU cache -----------------------------------------------------------------

  /** The same bounded map with the two overridden methods: a promoting read, and a write
      that moves the key to the newest position. */
  class BoundedLruCache<K(==), V> {
    const base: BoundedFifoMap<K, V>

    ghost predicate Valid()
      reads this, base
    {
      base.Valid()
    }

    constructor (max: int)
      ensures Valid() && fresh(base) && base.entries == [] && base.maxEntries == max
    {
      base := new BoundedFifoMap<K, V>(max);
    }

    method Get(key: K) returns (value: Option<V>)
      requires Valid()
      modifies base`entries
      ensures Valid()
      ensures value == Lookup(old(base.entries), key)
      ensures base.entries == Promote(old(base.entries), key)
    {
      value := base.Get(key);
      if value.Some? {
        TouchUnique(base.entries, key, value);
        HasIsGet(base.entries, key);
        base.entries := JsMap.Remove(base.entries, key);
        base.entries := Put(base.entries, key, value);
      }
    }

    method Set(key: K, value: Option<V>) returns (evicted: Stored<K, V>)
      requires Valid()
      modifies base`entries
      ensures Valid()
      ensures base.entries == Kept(Touch(old(base.entries), key, value), base.maxEntries)
      ensures evicted == Evicted(Touch(old(base.entries), key, value), base.maxEntries)
    {
      TouchUnique(base.entries, key, value);
      var existed := base.Delete(key);
      evicted := base.Set(key, value);
    }
  }

  // ---- set -----------------------------------------------------------------------

  /** Membership only: a wrapper that hides a dummy value. */
  class BoundedSet<T(==)> {
    const backing: BoundedFifoMap<T, bool>

    ghost predicate Valid()
      reads this, backing
    {
      backing.Valid()
    }

    /** Members, oldest first. */
    ghost function Members(): seq<T>
      reads this, backing
    {
      Keys(backing.entries)
    }

    constructor (max: int)
      ensures Valid() && fresh(backing) && Members() == [] && backing.maxEntries == max
    {
      backing := new BoundedFifoMap<T, bool>(max);
    }

    method Has(value: T) returns (present: bool)
      requires Valid()
      ensures present <==> value in Members()
    {
      present := backing.Has(value);
      KeysHas(backing.entries, value);
    }

    /** Never reorders a present member; returns the evicted members, oldest first. */
    method Add(value: T) returns (evicted: seq<T>)
      requires Valid()
      modifies backing`entries
      ensures Valid()
      ensures evicted + Members() == JsMap.Add(old(Members()), value)
      ensures |Members()| <= backing.maxEntries || Members() == []
    {
      ghost var before := backing.entries;
      var dropped := backing.Set(value, Some(true));
      evicted := Keys(dropped);
      PutKeys(before, value, Some(true));
      assert Put(before, value, Some(true)) == dropped + backing.entries;
      KeysAppend(dropped, backing.entries);
    }
  }

  lemma {:induction false} KeysAppend<K, V>(a: Entries<K, V>, b: Entries<K, V>)
    ensures Keys(a + b) == Keys(a) + Keys(b)
  {
    if a == [] { assert a + b == b; } else {
      assert (a + b)[1..] == a[1..] + b;
      KeysAppend(a[1..], b);
    }
  }
}
