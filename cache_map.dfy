/**
 * CacheMap: a map that keeps at most a fixed number of entries and evicts the
 * oldest INSERTED key (not the least recently used one) when it is full.
 *
 * `listKeys` is the key list with its front at index 0: `Insert` pushes new
 * keys at the front and `PruneLast` drops the key at the back.
 */
module CacheMaps {
  import opened Common

  /** The four fields of a CacheMap, as a value. */
  datatype CacheState<K, V> = CacheState(maxSize: nat, size: nat, keys: seq<K>, items: map<K, V>)

  predicate NoDuplicates<K(==)>(s: seq<K>)
  {
    forall i, j :: 0 <= i < j < |s| ==> s[i] != s[j]
  }

  /** The invariant the container keeps: the size counter, the key list and the map agree. */
  predicate Wellformed<K(==), V>(s: CacheState<K, V>)
  {
    && s.size == |s.keys|
    && NoDuplicates(s.keys)
    && s.items.Keys == (set k | k in s.keys)
  }

  lemma DistinctKeysCardinality<K, V>(s: CacheState<K, V>)
    requires NoDuplicates(s.keys)
    requires s.items.Keys == (set k | k in s.keys)
    ensures |s.items| == |s.keys|
    decreases |s.keys|
  {
    if s.keys != [] {
      var last := s.keys[|s.keys| - 1];
      var rest := CacheState(s.maxSize, s.size, s.keys[..|s.keys| - 1], s.items - {last});
      assert rest.items.Keys == (set k | k in rest.keys) by {
        forall k ensures k in rest.items <==> k in rest.keys {
          if k in rest.keys {
            var i :| 0 <= i < |rest.keys| && rest.keys[i] == k;
            assert s.keys[i] == k;
          }
          if k in s.keys && k != last {
            var i :| 0 <= i < |s.keys| && s.keys[i] == k;
            assert i < |s.keys| - 1;
            assert rest.keys[i] == k;
          }
        }
      }
      DistinctKeysCardinality(rest);
      assert last in s.items;
    }
  }

  /** The size counter equals both the length of the key list and the number of map entries. */
  lemma WellformedSizes<K, V>(s: CacheState<K, V>)
    requires Wellformed(s)
    ensures s.size == |s.keys| == |s.items|
  {
    DistinctKeysCardinality(s);
  }

  /** A fresh cache (cachemap.h:41-46). */
  function Empty<K(==), V>(maxSize: nat): (r: CacheState<K, V>)
    ensures Wellformed(r) && r.size == 0 && r.maxSize == maxSize && r.items == map[]
  {
    CacheState(maxSize, 0, [], map[])
  }

  /** PruneLast (cachemap.h:111-120): drop the key at the back of the list, if any. */
  function AfterPruneLast<K(==), V>(s: CacheState<K, V>): (r: CacheState<K, V>)
    requires Wellformed(s)
    ensures Wellformed(r)
    ensures s.size >= 1 ==>
      (r.size == s.size - 1 && r.keys == s.keys[..s.size - 1] && r.items.Keys == s.items.Keys - {s.keys[s.size - 1]})
    ensures s.size == 0 ==> r == s
  {
    if s.size < 1 then s
    else
      var last := s.keys[|s.keys| - 1];
      CacheState(s.maxSize, s.size - 1, s.keys[..|s.keys| - 1], s.items - {last})
  }

  /** Insert (cachemap.h:68-81). */
  function AfterInsert<K(==), V>(s: CacheState<K, V>, key: K, value: V): (r: CacheState<K, V>)
    requires Wellformed(s)
    ensures Wellformed(r)
    ensures key in r.items && r.items[key] == value
    ensures r.maxSize == s.maxSize
  {
    if key in s.items then s.(items := s.items[key := value])
    else
      var p := if s.size == s.maxSize then AfterPruneLast(s) else s;
      assert key !in p.keys;
      CacheState(p.maxSize, p.size + 1, [key] + p.keys, p.items[key := value])
  }

  /** Re-inserting a present key overwrites its value and keeps the size and the key order. */
  lemma InsertExistingKey<K, V>(s: CacheState<K, V>, key: K, value: V)
    requires Wellformed(s) && key in s.items
    ensures var r := AfterInsert(s, key, value);
      r.size == s.size && r.keys == s.keys && r.items == s.items[key := value]
  {
  }

  /** A new key at capacity first evicts exactly the oldest inserted key, then goes to the front. */
  lemma InsertEvictsOldest<K, V>(s: CacheState<K, V>, key: K, value: V)
    requires Wellformed(s) && key !in s.items && s.size == s.maxSize && s.size >= 1
    ensures var r := AfterInsert(s, key, value);
      && r.keys == [key] + s.keys[..s.size - 1]
      && s.keys[s.size - 1] !in r.items
      && r.size == s.size
      && (forall k :: k in s.items && k != s.keys[s.size - 1] ==> k in r.items && r.items[k] == s.items[k])
  {
  }

  /** A new key below capacity is added at the front and nothing is evicted. */
  lemma InsertBelowCapacity<K, V>(s: CacheState<K, V>, key: K, value: V)
    requires Wellformed(s) && key !in s.items && s.size != s.maxSize
    ensures var r := AfterInsert(s, key, value);
      r.keys == [key] + s.keys && r.size == s.size + 1 && r.items == s.items[key := value]
  {
  }

  /** With a capacity of at least one, Insert never pushes the size above the capacity. */
  lemma InsertKeepsBound<K, V>(s: CacheState<K, V>, key: K, value: V)
    requires Wellformed(s) && 1 <= s.maxSize && s.size <= s.maxSize
    ensures AfterInsert(s, key, value).size <= s.maxSize
  {
  }

  /**
   * The `==` test never fires when the size is already above the capacity (capacity 0, or
   * after SetMaxSize below the size): every new key then grows the cache.
   */
  lemma InsertAboveCapacityGrows<K, V>(s: CacheState<K, V>, key: K, value: V)
    requires Wellformed(s) && key !in s.items && s.size >= s.maxSize && !(s.size == s.maxSize >= 1)
    ensures AfterInsert(s, key, value).size == s.size + 1 > s.maxSize
  {
  }

  /** Insert leaves every other key's entry as it was, unless that key was the one evicted. */
  lemma InsertOtherKeys<K, V>(s: CacheState<K, V>, key: K, value: V, other: K)
    requires Wellformed(s) && other != key && other in AfterInsert(s, key, value).items
    ensures other in s.items && AfterInsert(s, key, value).items[other] == s.items[other]
  {
  }

  /** Inserting a list of (key, value) pairs in order. */
  function InsertAll<K(==), V>(s: CacheState<K, V>, kvs: seq<(K, V)>): (r: CacheState<K, V>)
    requires Wellformed(s)
    ensures Wellformed(r) && r.maxSize == s.maxSize
    decreases |kvs|
  {
    if kvs == [] then s else InsertAll(AfterInsert(s, kvs[0].0, kvs[0].1), kvs[1..])
  }

  /** The pairs (lo, lo), (lo + 1, lo + 1), ..., (hi - 1, hi - 1). */
  function Pairs(lo: int, hi: int): seq<(int, int)>
    decreases hi - lo
  {
    if lo >= hi then [] else [(lo, lo)] + Pairs(lo + 1, hi)
  }

  /** What holds after inserting -1 and then 0..k-1 into a cache of capacity 10. */
  predicate ScenarioAfter(s: CacheState<int, int>, k: int)
  {
    && 0 <= k <= 10
    && Wellformed(s) && s.maxSize == 10
    && (k < 10 ==> s.size == k + 1 && s.keys[k] == -1)
    && (k == 10 ==> s.size == 10 && -1 !in s.items)
    && (forall i :: 0 <= i < k ==> i in s.items && s.items[i] == i)
    && (forall x :: x in s.items ==> -1 <= x < k)
  }

  lemma ScenarioStep(s: CacheState<int, int>, k: int)
    requires ScenarioAfter(s, k) && k < 10
    ensures ScenarioAfter(AfterInsert(s, k, k), k + 1)
  {
    var s' := AfterInsert(s, k, k);
    assert k !in s.items;
    if k < 9 {
      InsertBelowCapacity(s, k, k);
      assert s'.keys[k + 1] == -1;
    } else {
      InsertEvictsOldest(s, k, k);
    }
    forall x | x in s'.items ensures -1 <= x < k + 1 {
      if x != k { InsertOtherKeys(s, k, k, x); }
    }
    forall i | 0 <= i < k ensures i in s'.items && s'.items[i] == i {
      InsertOtherKeys(s, k, k, i);
    }
  }

  lemma {:induction false} ScenarioFrom(s: CacheState<int, int>, k: int)
    requires ScenarioAfter(s, k)
    ensures ScenarioAfter(InsertAll(s, Pairs(k, 10)), 10)
    decreases 10 - k
  {
    if k < 10 {
      ScenarioStep(s, k);
      assert Pairs(k, 10)[0] == (k, k) && Pairs(k, 10)[1..] == Pairs(k + 1, 10);
      ScenarioFrom(AfterInsert(s, k, k), k + 1);
    }
  }

  /**
   * The unit test of cachemap_tests.cpp:14-47: capacity 10, insert -1, then 0..9.
   * The size is 10, each i in 0..9 maps to i, and -1 has been evicted.
   */
  lemma CacheMapScenario()
    ensures var s := InsertAll(AfterInsert(Empty<int, int>(10), -1, -1), Pairs(0, 10));
      && s.maxSize == 10
      && s.size == 10
      && (forall i :: 0 <= i < 10 ==> i in s.items && s.items[i] == i)
      && -1 !in s.items
  {
    var s0 := AfterInsert(Empty<int, int>(10), -1, -1);
    assert s0.keys == [-1] && s0.items == map[-1 := -1];
    ScenarioFrom(s0, 0);
  }

  /**
   * The container itself. Fields are those of cachemap.h:32-38; the methods keep
   * `Valid()` and say how the fields change as a `CacheState`.
   */
  class CacheMap<K(==), V> {
    var nMaxSize: nat
    var nCurrentSize: nat
    var listKeys: seq<K>
    var mapItems: map<K, V>

    function State(): CacheState<K, V>
      reads this
    {
      CacheState(nMaxSize, nCurrentSize, listKeys, mapItems)
    }

    predicate Valid()
      reads this
    {
      Wellformed(State())
    }

    /** cachemap.h:41-46 */
    constructor(nMaxSizeIn: nat)
      ensures Valid() && State() == Empty(nMaxSizeIn)
    {
      nMaxSize := nMaxSizeIn;
      nCurrentSize := 0;
      listKeys := [];
      mapItems := map[];
    }

    /** cachemap.h:48-53 */
    method Clear()
      modifies this
      ensures Valid() && State() == Empty(old(nMaxSize))
    {
      mapItems := map[];
      listKeys := [];
      nCurrentSize := 0;
    }

    /** cachemap.h:55-58: only the capacity changes; entries above it are kept. */
    method SetMaxSize(nMaxSizeIn: nat)
      requires Valid()
      modifies this
      ensures Valid() && State() == old(State()).(maxSize := nMaxSizeIn)
    {
      nMaxSize := nMaxSizeIn;
    }

    /** cachemap.h:60-62 */
    method GetMaxSize() returns (r: nat)
      ensures r == nMaxSize
    {
      r := nMaxSize;
    }

    /** cachemap.h:64-66: the counter, which the invariant ties to the number of entries. */
    method GetSize() returns (r: nat)
      requires Valid()
      ensures r == |mapItems| == |listKeys|
    {
      WellformedSizes(State());
      r := nCurrentSize;
    }

    /** cachemap.h:68-81 */
    method Insert(key: K, value: V)
      requires Valid()
      modifies this
      ensures Valid() && State() == AfterInsert(old(State()), key, value)
    {
      if key in mapItems {
        mapItems := mapItems[key := value];
        return;
      }
      if nCurrentSize == nMaxSize {
        PruneLast();
      }
      mapItems := mapItems[key := value];
      listKeys := [key] + listKeys;
      nCurrentSize := nCurrentSize + 1;
    }

    /** cachemap.h:83-87: a key is present exactly when it is in the key list. */
    method HasKey(key: K) returns (b: bool)
      requires Valid()
      ensures b <==> key in listKeys
    {
      b := key in mapItems;
    }

    /** cachemap.h:89-97: the stored value, or nothing when the key is absent. */
    method Get(key: K) returns (r: Option<V>)
      requires Valid()
      ensures r.Some? <==> key in listKeys
      ensures r.Some? ==> key in mapItems && r.value == mapItems[key]
    {
      if key !in mapItems {
        return None;
      }
      r := Some(mapItems[key]);
    }

    /** cachemap.h:111-120 */
    method PruneLast()
      requires Valid()
      modifies this
      ensures Valid() && State() == AfterPruneLast(old(State()))
    {
      if nCurrentSize < 1 {
        return;
      }
      var keyLast := listKeys[|listKeys| - 1];
      mapItems := mapItems - {keyLast};
      listKeys := listKeys[..|listKeys| - 1];
      nCurrentSize := nCurrentSize - 1;
    }
  }
}
