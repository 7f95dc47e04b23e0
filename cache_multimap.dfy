/**
 * CacheMultiMap: like CacheMap, but one key may hold several items. It keeps a
 * list of (key, value) items, newest at the front, and an index from each key
 * to the list positions (iterators) of that key's items.
 *
 * A list iterator is modelled by the identity `id` of the item it points to;
 * `nextId` hands out fresh identities exactly as `push_front` allocates a new
 * list node. An index entry is the sequence of identities of its `it_list_t`,
 * front at index 0.
 */
module CacheMultiMaps {
  import opened Common

  datatype Item<K, V> = Item(id: nat, key: K, value: V)

  /** The fields of a CacheMultiMap, as a value. */
  datatype MultiState<K, V> = MultiState(
    maxSize: nat, size: nat, items: seq<Item<K, V>>, index: map<K, seq<nat>>, nextId: nat)

  // ----- Functions on the item list (front at index 0) -----

  function Ids<K, V>(items: seq<Item<K, V>>): set<nat>
  {
    if items == [] then {} else {items[0].id} + Ids(items[1..])
  }

  predicate UniqueIds<K, V>(items: seq<Item<K, V>>)
  {
    items == [] || (items[0].id !in Ids(items[1..]) && UniqueIds(items[1..]))
  }

  function KeySet<K, V>(items: seq<Item<K, V>>): set<K>
  {
    if items == [] then {} else {items[0].key} + KeySet(items[1..])
  }

  /** The identities of the items with key `k`, in list order. */
  function IdsWithKey<K(==), V>(items: seq<Item<K, V>>, k: K): seq<nat>
  {
    if items == [] then []
    else (if items[0].key == k then [items[0].id] else []) + IdsWithKey(items[1..], k)
  }

  /** The values of the items with key `k`, in list order (newest first). */
  function ValuesWithKey<K(==), V>(items: seq<Item<K, V>>, k: K): seq<V>
  {
    if items == [] then []
    else (if items[0].key == k then [items[0].value] else []) + ValuesWithKey(items[1..], k)
  }

  /** The list without the items of key `k`. */
  function WithoutKey<K(==), V>(items: seq<Item<K, V>>, k: K): seq<Item<K, V>>
  {
    if items == [] then []
    else (if items[0].key == k then [] else [items[0]]) + WithoutKey(items[1..], k)
  }

  /** The list without the items whose identity is in `ids` (`listItems.erase(it)` for each). */
  function WithoutIds<K, V>(items: seq<Item<K, V>>, ids: set<nat>): seq<Item<K, V>>
  {
    if items == [] then []
    else (if items[0].id in ids then [] else [items[0]]) + WithoutIds(items[1..], ids)
  }

  /** Dereferencing an iterator: the value of the item with identity `id`. */
  function ValueOfId<K, V>(items: seq<Item<K, V>>, id: nat): V
    requires id in Ids(items)
  {
    if items[0].id == id then items[0].value else ValueOfId(items[1..], id)
  }

  function ValuesOfIds<K, V>(items: seq<Item<K, V>>, ids: seq<nat>): seq<V>
    requires forall id :: id in ids ==> id in Ids(items)
  {
    if ids == [] then [] else [ValueOfId(items, ids[0])] + ValuesOfIds(items, ids[1..])
  }

  /** `s` without its first occurrence of `x` (the find-and-erase loop of PruneLast). */
  function RemoveFirst(s: seq<nat>, x: nat): seq<nat>
  {
    if s == [] then [] else if s[0] == x then s[1..] else [s[0]] + RemoveFirst(s[1..], x)
  }

  // ----- Basic facts about these functions -----

  lemma {:induction false} AppendIds<K, V>(a: seq<Item<K, V>>, b: seq<Item<K, V>>)
    ensures Ids(a + b) == Ids(a) + Ids(b)
    ensures KeySet(a + b) == KeySet(a) + KeySet(b)
  {
    if a == [] {
      assert a + b == b;
    } else {
      assert (a + b)[1..] == a[1..] + b;
      AppendIds(a[1..], b);
    }
  }

  lemma {:induction false} AppendUnique<K, V>(a: seq<Item<K, V>>, b: seq<Item<K, V>>)
    ensures UniqueIds(a + b) <==> UniqueIds(a) && UniqueIds(b) && Ids(a) * Ids(b) == {}
  {
    if a == [] {
      assert a + b == b;
    } else {
      assert (a + b)[1..] == a[1..] + b;
      AppendIds(a[1..], b);
      AppendUnique(a[1..], b);
    }
  }

  lemma {:induction false} AppendIdsWithKey<K, V>(a: seq<Item<K, V>>, b: seq<Item<K, V>>, k: K)
    ensures IdsWithKey(a + b, k) == IdsWithKey(a, k) + IdsWithKey(b, k)
  {
    if a == [] {
      assert a + b == b;
    } else {
      var x := a[0];
      var h: seq<nat> := if x.key == k then [x.id] else [];
      assert (a + b)[0] == x;
      assert (a + b)[1..] == a[1..] + b;
      assert IdsWithKey(a + b, k) == h + IdsWithKey(a[1..] + b, k);
      assert IdsWithKey(a, k) == h + IdsWithKey(a[1..], k);
      AppendIdsWithKey(a[1..], b, k);
      assert h + (IdsWithKey(a[1..], k) + IdsWithKey(b, k)) == (h + IdsWithKey(a[1..], k)) + IdsWithKey(b, k);
    }
  }

  lemma ElementsOf(s: seq<nat>)
    ensures forall x :: x in Prefix(s, |s|) <==> x in s
  {
    forall x | x in s ensures x in (set i | 0 <= i < |s| :: s[i]) {
      var i :| 0 <= i < |s| && s[i] == x;
    }
  }

  lemma SplitFirst<T>(s: seq<T>)
    requires s != []
    ensures s == [s[0]] + s[1..]
  {
  }

  lemma SplitSeq<T>(s: seq<T>)
    requires s != []
    ensures s == s[..|s| - 1] + [s[|s| - 1]]
  {
  }

  /** The list functions on a non-empty list split before its last item. */
  lemma SplitLast<K, V>(items: seq<Item<K, V>>)
    requires items != []
    ensures items == items[..|items| - 1] + [items[|items| - 1]]
    ensures Ids(items) == Ids(items[..|items| - 1]) + {items[|items| - 1].id}
    ensures KeySet(items) == KeySet(items[..|items| - 1]) + {items[|items| - 1].key}
    ensures UniqueIds(items) ==> UniqueIds(items[..|items| - 1]) && items[|items| - 1].id !in Ids(items[..|items| - 1])
  {
    var pre, last := items[..|items| - 1], items[|items| - 1];
    SplitSeq(items);
    AppendIds(pre, [last]);
    AppendUnique(pre, [last]);
    Cons(last, []);
    assert [last] + [] == [last];
  }

  lemma SplitLastKey<K, V>(items: seq<Item<K, V>>, k: K)
    requires items != []
    ensures IdsWithKey(items, k)
      == IdsWithKey(items[..|items| - 1], k) + (if items[|items| - 1].key == k then [items[|items| - 1].id] else [])
  {
    var pre, last := items[..|items| - 1], items[|items| - 1];
    SplitSeq(items);
    AppendIdsWithKey(pre, [last], k);
    IdsWithKeyCons(last, [], k);
    assert [last] + [] == [last];
    var h: seq<nat> := if last.key == k then [last.id] else [];
    assert h + [] == h;
  }

  lemma {:induction false} IdsWithKeyFacts<K, V>(items: seq<Item<K, V>>, k: K)
    ensures forall id :: id in IdsWithKey(items, k) ==> id in Ids(items)
    ensures k in KeySet(items) <==> IdsWithKey(items, k) != []
    ensures |IdsWithKey(items, k)| <= |items|
  {
    if items != [] {
      IdsWithKeyFacts(items[1..], k);
    }
  }

  lemma {:induction false} RemoveFirstMultiset(s: seq<nat>, x: nat)
    requires x in s
    ensures multiset(RemoveFirst(s, x)) == multiset(s) - multiset{x}
  {
    assert s == [s[0]] + s[1..];
    if s[0] != x {
      RemoveFirstMultiset(s[1..], x);
    }
  }

  lemma {:induction false} RemoveFirstLast(t: seq<nat>, x: nat)
    requires x !in t
    ensures RemoveFirst(t + [x], x) == t
  {
    if t == [] {
    } else {
      assert (t + [x])[1..] == t[1..] + [x];
      RemoveFirstLast(t[1..], x);
    }
  }

  lemma {:induction false} RemoveFirstAt(s: seq<nat>, x: nat, j: int)
    requires 0 <= j < |s| && s[j] == x && x !in s[..j]
    ensures RemoveFirst(s, x) == s[..j] + s[j + 1..]
  {
    if j > 0 {
      assert s[1..][..j - 1] == s[1..j];
      assert s[1..][j..] == s[j + 1..];
      assert s[0] in s[..j];
      RemoveFirstAt(s[1..], x, j - 1);
      assert s[..j] == [s[0]] + s[1..j];
    }
  }

  /** The list functions on an item pushed at the front. */
  lemma Cons<K, V>(x: Item<K, V>, rest: seq<Item<K, V>>)
    ensures ([x] + rest)[0] == x && ([x] + rest)[1..] == rest
    ensures Ids([x] + rest) == {x.id} + Ids(rest)
    ensures KeySet([x] + rest) == {x.key} + KeySet(rest)
    ensures UniqueIds([x] + rest) <==> x.id !in Ids(rest) && UniqueIds(rest)
  {
    assert ([x] + rest)[1..] == rest;
  }

  lemma WithoutIdsCons<K, V>(x: Item<K, V>, rest: seq<Item<K, V>>, ids: set<nat>)
    ensures WithoutIds([x] + rest, ids) == (if x.id in ids then [] else [x]) + WithoutIds(rest, ids)
  {
    assert ([x] + rest)[1..] == rest;
  }

  lemma WithoutKeyCons<K, V>(x: Item<K, V>, rest: seq<Item<K, V>>, k: K)
    ensures WithoutKey([x] + rest, k) == (if x.key == k then [] else [x]) + WithoutKey(rest, k)
  {
    assert ([x] + rest)[1..] == rest;
  }

  lemma IdsWithKeyCons<K, V>(x: Item<K, V>, rest: seq<Item<K, V>>, k: K)
    ensures IdsWithKey([x] + rest, k) == (if x.key == k then [x.id] else []) + IdsWithKey(rest, k)
    ensures ValuesWithKey([x] + rest, k) == (if x.key == k then [x.value] else []) + ValuesWithKey(rest, k)
  {
    assert ([x] + rest)[1..] == rest;
  }

  lemma {:induction false} WithoutIdsTwice<K, V>(items: seq<Item<K, V>>, s: set<nat>, t: set<nat>)
    ensures WithoutIds(WithoutIds(items, s), t) == WithoutIds(items, s + t)
  {
    if items != [] {
      var x, rest := items[0], items[1..];
      SplitFirst(items);
      WithoutIdsTwice(rest, s, t);
      WithoutIdsCons(x, rest, s);
      WithoutIdsCons(x, rest, s + t);
      if x.id !in s {
        WithoutIdsCons(x, WithoutIds(rest, s), t);
        if x.id in t {
          assert WithoutIds(items, s + t) == WithoutIds(rest, s + t);
        }
      } else {
        assert WithoutIds(items, s) == WithoutIds(rest, s);
        assert WithoutIds(items, s + t) == WithoutIds(rest, s + t);
      }
    }
  }

  /** Erasing every item present in the key's index list is erasing that key's items. */
  lemma {:induction false} WithoutIdsIsWithoutKey<K, V>(items: seq<Item<K, V>>, ids: set<nat>, k: K)
    requires UniqueIds(items)
    requires forall id :: id in Ids(items) ==> (id in ids <==> id in IdsWithKey(items, k))
    ensures WithoutIds(items, ids) == WithoutKey(items, k)
  {
    if items != [] {
      var x, rest := items[0], items[1..];
      SplitFirst(items);
      Cons(x, rest);
      IdsWithKeyCons(x, rest, k);
      WithoutIdsCons(x, rest, ids);
      WithoutKeyCons(x, rest, k);
      IdsWithKeyFacts(rest, k);
      forall id | id in Ids(rest) ensures id in ids <==> id in IdsWithKey(rest, k) {
        assert id != x.id;
        assert id in Ids(items);
      }
      WithoutIdsIsWithoutKey(rest, ids, k);
      assert x.id in Ids(items);
      assert x.id in ids <==> x.key == k;
    }
  }

  lemma {:induction false} WithoutKeyFacts<K, V>(items: seq<Item<K, V>>, k: K)
    ensures |WithoutKey(items, k)| == |items| - |IdsWithKey(items, k)|
    ensures k !in KeySet(items) ==> WithoutKey(items, k) == items
    ensures Ids(WithoutKey(items, k)) <= Ids(items)
    ensures KeySet(WithoutKey(items, k)) == KeySet(items) - {k}
    ensures UniqueIds(items) ==> UniqueIds(WithoutKey(items, k))
    ensures IdsWithKey(WithoutKey(items, k), k) == []
    ensures forall k' :: k' != k ==> IdsWithKey(WithoutKey(items, k), k') == IdsWithKey(items, k')
    ensures forall k' :: k' != k ==> ValuesWithKey(WithoutKey(items, k), k') == ValuesWithKey(items, k')
  {
    if items != [] {
      var x, rest := items[0], items[1..];
      SplitFirst(items);
      Cons(x, rest);
      WithoutKeyCons(x, rest, k);
      WithoutKeyFacts(rest, k);
      forall k' ensures IdsWithKey(items, k') == (if x.key == k' then [x.id] else []) + IdsWithKey(rest, k')
        && ValuesWithKey(items, k') == (if x.key == k' then [x.value] else []) + ValuesWithKey(rest, k') {
        IdsWithKeyCons(x, rest, k');
      }
      if x.key != k {
        Cons(x, WithoutKey(rest, k));
        forall k' ensures IdsWithKey(WithoutKey(items, k), k') == (if x.key == k' then [x.id] else []) + IdsWithKey(WithoutKey(rest, k), k')
          && ValuesWithKey(WithoutKey(items, k), k') == (if x.key == k' then [x.value] else []) + ValuesWithKey(WithoutKey(rest, k), k') {
          IdsWithKeyCons(x, WithoutKey(rest, k), k');
        }
      } else {
        assert WithoutKey(items, k) == WithoutKey(rest, k);
      }
    }
  }

  lemma {:induction false} ValueOfIdTail<K, V>(items: seq<Item<K, V>>, ids: seq<nat>)
    requires items != []
    requires forall id :: id in ids ==> id in Ids(items[1..]) && id != items[0].id
    ensures forall id :: id in ids ==> id in Ids(items)
    ensures ValuesOfIds(items, ids) == ValuesOfIds(items[1..], ids)
  {
    SplitFirst(items);
    Cons(items[0], items[1..]);
    if ids != [] {
      assert ids[0] in ids;
      assert forall id :: id in ids[1..] ==> id in ids;
      ValueOfIdTail(items, ids[1..]);
    }
  }

  /** With the index in list order, dereferencing it gives the key's values newest first. */
  lemma {:induction false} ValuesOfIdsWithKey<K, V>(items: seq<Item<K, V>>, k: K)
    requires UniqueIds(items)
    ensures forall id :: id in IdsWithKey(items, k) ==> id in Ids(items)
    ensures ValuesOfIds(items, IdsWithKey(items, k)) == ValuesWithKey(items, k)
  {
    IdsWithKeyFacts(items, k);
    if items != [] {
      var x, rest := items[0], items[1..];
      SplitFirst(items);
      Cons(x, rest);
      IdsWithKeyFacts(rest, k);
      ValuesOfIdsWithKey(rest, k);
      ValueOfIdTail(items, IdsWithKey(rest, k));
      IdsWithKeyCons(x, rest, k);
      if x.key == k {
        var ids := IdsWithKey(items, k);
        assert ids == [x.id] + IdsWithKey(rest, k);
        assert ids[1..] == IdsWithKey(rest, k);
        assert ValueOfId(items, x.id) == x.value;
      } else {
        assert IdsWithKey(items, k) == IdsWithKey(rest, k);
        assert ValuesWithKey(items, k) == ValuesWithKey(rest, k);
      }
    }
  }

  lemma {:induction false} ValuesOfIdsAppend<K, V>(items: seq<Item<K, V>>, ids: seq<nat>, id: nat)
    requires forall i :: i in ids ==> i in Ids(items)
    requires id in Ids(items)
    ensures forall i :: i in ids + [id] ==> i in Ids(items)
    ensures ValuesOfIds(items, ids + [id]) == ValuesOfIds(items, ids) + [ValueOfId(items, id)]
  {
    if ids != [] {
      assert (ids + [id])[1..] == ids[1..] + [id];
      ValuesOfIdsAppend(items, ids[1..], id);
    }
  }

  // ----- The invariant and the operations on the state -----

  /** The invariant of the container: the counter, the item list and the index agree. */
  predicate Wellformed<K(==), V>(s: MultiState<K, V>)
  {
    && ListWellformed(s)
    && s.index.Keys == KeySet(s.items)
    && (forall k :: k in s.index ==> multiset(s.index[k]) == multiset(IdsWithKey(s.items, k)))
  }

  /** The part of the invariant that does not involve the index. */
  predicate ListWellformed<K, V>(s: MultiState<K, V>)
  {
    && s.size == |s.items|
    && UniqueIds(s.items)
    && (forall id :: id in Ids(s.items) ==> id < s.nextId)
  }

  /** What the invariant says about one index entry. */
  lemma IndexEntry<K, V>(s: MultiState<K, V>, k: K)
    requires Wellformed(s) && k in s.index
    ensures s.index[k] != []
    ensures forall id :: id in s.index[k] <==> id in IdsWithKey(s.items, k)
    ensures forall id :: id in s.index[k] ==> id in Ids(s.items)
    ensures |s.index[k]| == |IdsWithKey(s.items, k)| <= s.size
  {
    IdsWithKeyFacts(s.items, k);
    var a, b := s.index[k], IdsWithKey(s.items, k);
    assert multiset(a) == multiset(b);
    forall id ensures id in a <==> id in b {
      assert id in a <==> id in multiset(a);
      assert id in b <==> id in multiset(b);
    }
    assert |a| == |multiset(a)| == |multiset(b)| == |b|;
  }

  /** Each key's index list is in list order, i.e. newest item first. */
  predicate NewestFirst<K(==), V>(s: MultiState<K, V>)
  {
    forall k :: k in s.index ==> s.index[k] == IdsWithKey(s.items, k)
  }

  function Empty<K, V>(maxSize: nat, nextId: nat): (r: MultiState<K, V>)
  {
    MultiState(maxSize, 0, [], map[], nextId)
  }

  /** Removes the identity `id` from the index list of `k`, dropping the key if none is left. */
  function Unindex<K(==)>(index: map<K, seq<nat>>, k: K, id: nat): map<K, seq<nat>>
    requires k in index
  {
    var rest := RemoveFirst(index[k], id);
    if rest == [] then index - {k} else index[k := rest]
  }

  /** PruneLast (cachemultimap.h:194-227): drop the item at the back and its index entry. */
  function AfterPruneLast<K(==), V>(s: MultiState<K, V>): (r: MultiState<K, V>)
    requires Wellformed(s)
  {
    if s.size < 1 then s
    else
      var last := s.items[|s.items| - 1];
      assert last.key in KeySet(s.items) by { SplitLast(s.items); }
      s.(size := s.size - 1, items := s.items[..|s.items| - 1], index := Unindex(s.index, last.key, last.id))
  }

  /** Insert (cachemultimap.h:101-116): prune at capacity, then push a new item at the front. */
  function AfterInsert<K(==), V>(s: MultiState<K, V>, key: K, value: V): (r: MultiState<K, V>)
    requires Wellformed(s)
  {
    PushFront(if s.size == s.maxSize then AfterPruneLast(s) else s, key, value)
  }

  /** cachemultimap.h:106-115: a new item at the front, its identity at the front of its key's index list. */
  function PushFront<K(==), V>(s: MultiState<K, V>, key: K, value: V): MultiState<K, V>
  {
    var ids := if key in s.index then s.index[key] else [];
    MultiState(s.maxSize, s.size + 1, [Item(s.nextId, key, value)] + s.items,
               s.index[key := [s.nextId] + ids], s.nextId + 1)
  }

  /** Erase (cachemultimap.h:151-165). */
  function AfterErase<K(==), V>(s: MultiState<K, V>, key: K): (r: MultiState<K, V>)
    requires Wellformed(s)
  {
    if key !in s.index then s
    else
      assert |s.index[key]| <= s.size by {
        assert |multiset(s.index[key])| == |multiset(IdsWithKey(s.items, key))|;
        IdsWithKeyFacts(s.items, key);
      }
      s.(size := s.size - |s.index[key]|, items := WithoutKey(s.items, key), index := s.index - {key})
  }

  /** The index RebuildIndex builds (cachemultimap.h:229-240): front to back, each pushed at the front. */
  function BuildIndex<K(==), V>(items: seq<Item<K, V>>): map<K, seq<nat>>
  {
    if items == [] then map[]
    else
      var m := BuildIndex(items[..|items| - 1]);
      var x := items[|items| - 1];
      m[x.key := [x.id] + (if x.key in m then m[x.key] else [])]
  }

  /** HasKey (cachemultimap.h:118-122). */
  function ContainsKey<K(==), V>(s: MultiState<K, V>, key: K): bool
  {
    key in s.index
  }

  /** Get (cachemultimap.h:124-134): the value behind the front of the key's index list. */
  function GetValue<K(==), V>(s: MultiState<K, V>, key: K): Option<V>
    requires Wellformed(s)
  {
    if key !in s.index then None
    else
      assert s.index[key] != [] && s.index[key][0] in Ids(s.items) by {
        IndexEntry(s, key);
      }
      Some(ValueOfId(s.items, s.index[key][0]))
  }

  /** GetAll (cachemultimap.h:136-149): one value per entry of the key's index list, in index order. */
  function GetAllValues<K(==), V>(s: MultiState<K, V>, key: K): Option<seq<V>>
    requires Wellformed(s)
  {
    if key !in s.index then None
    else
      assert forall id :: id in s.index[key] ==> id in Ids(s.items) by {
        IndexEntry(s, key);
      }
      Some(ValuesOfIds(s.items, s.index[key]))
  }

  // ----- Properties -----

  /** The key set of the index is exactly the set of keys of stored items. */
  lemma HasKeyIffStored<K, V>(s: MultiState<K, V>, key: K)
    requires Wellformed(s)
    ensures ContainsKey(s, key) <==> ValuesWithKey(s.items, key) != []
  {
    StoredKeys(s.items, key);
  }

  lemma {:induction false} StoredKeys<K, V>(items: seq<Item<K, V>>, key: K)
    ensures key in KeySet(items) <==> ValuesWithKey(items, key) != []
    ensures |ValuesWithKey(items, key)| == |IdsWithKey(items, key)|
  {
    if items != [] {
      StoredKeys(items[1..], key);
    }
  }

  /** The invariant gives a size counter equal to the number of stored items. */
  lemma SizeIsItemCount<K, V>(s: MultiState<K, V>)
    requires Wellformed(s)
    ensures s.size == |s.items|
  {
  }

  /** What PruneLast does to the index list `ids` of the evicted item's key. */
  lemma PruneLastKeyList<K, V>(pre: seq<Item<K, V>>, last: Item<K, V>, ids: seq<nat>)
    requires last.id !in Ids(pre)
    requires multiset(ids) == multiset(IdsWithKey(pre, last.key) + [last.id])
    ensures multiset(RemoveFirst(ids, last.id)) == multiset(IdsWithKey(pre, last.key))
    ensures RemoveFirst(ids, last.id) == [] <==> last.key !in KeySet(pre)
    ensures ids == IdsWithKey(pre, last.key) + [last.id] ==> RemoveFirst(ids, last.id) == IdsWithKey(pre, last.key)
  {
    var pk := IdsWithKey(pre, last.key);
    var rest := RemoveFirst(ids, last.id);
    assert last.id in multiset(ids);
    RemoveFirstMultiset(ids, last.id);
    IdsWithKeyFacts(pre, last.key);
    assert |rest| == |multiset(rest)| == |multiset(pk)| == |pk|;
    if ids == pk + [last.id] {
      assert last.id !in pk;
      RemoveFirstLast(pk, last.id);
    }
  }

  lemma PruneLastKeyEntry<K, V>(s: MultiState<K, V>)
    requires Wellformed(s) && s.size >= 1
    ensures var last, pre := s.items[s.size - 1], s.items[..s.size - 1];
      && last.key in s.index
      && multiset(RemoveFirst(s.index[last.key], last.id)) == multiset(IdsWithKey(pre, last.key))
      && (RemoveFirst(s.index[last.key], last.id) == [] <==> last.key !in KeySet(pre))
      && (NewestFirst(s) ==> RemoveFirst(s.index[last.key], last.id) == IdsWithKey(pre, last.key))
  {
    var pre, last := s.items[..s.size - 1], s.items[s.size - 1];
    SplitLast(s.items);
    SplitLastKey(s.items, last.key);
    PruneLastKeyList(pre, last, s.index[last.key]);
  }

  /** Unindexing the last identity of a key drops the key exactly when no other item has it. */
  lemma UnindexKeys<K>(index: map<K, seq<nat>>, keys: set<K>, k: K, id: nat)
    requires k in index && index.Keys == keys + {k}
    requires RemoveFirst(index[k], id) == [] <==> k !in keys
    ensures Unindex(index, k, id).Keys == keys
  {
  }

  /** The state after PruneLast, field by field, when there is an item to drop. */
  lemma AfterPruneLastFields<K, V>(s: MultiState<K, V>)
    requires Wellformed(s) && s.size >= 1
    ensures s.items[|s.items| - 1].key in s.index
    ensures AfterPruneLast(s) == MultiState(s.maxSize, s.size - 1, s.items[..|s.items| - 1],
      Unindex(s.index, s.items[|s.items| - 1].key, s.items[|s.items| - 1].id), s.nextId)
  {
    PruneLastKeyEntry(s);
  }

  /** PruneLast keeps the invariant and drops exactly the oldest item. */
  lemma PruneLastWellformed<K, V>(s: MultiState<K, V>)
    requires Wellformed(s)
    ensures Wellformed(AfterPruneLast(s))
    ensures AfterPruneLast(s).maxSize == s.maxSize && AfterPruneLast(s).nextId == s.nextId
    ensures s.size >= 1 ==> AfterPruneLast(s).items == s.items[..s.size - 1]
    ensures s.size >= 1 ==> AfterPruneLast(s).size == s.size - 1
    ensures s.size >= 1 ==>
      (ContainsKey(AfterPruneLast(s), s.items[s.size - 1].key) <==> s.items[s.size - 1].key in KeySet(s.items[..s.size - 1]))
    ensures NewestFirst(s) ==> NewestFirst(AfterPruneLast(s))
  {
    if s.size >= 1 {
      var pre, last := s.items[..s.size - 1], s.items[s.size - 1];
      PruneLastKeyEntry(s);
      var idx := Unindex(s.index, last.key, last.id);
      var r := s.(size := s.size - 1, items := pre, index := idx);
      assert AfterPruneLast(s) == r;
      SplitLast(s.items);
      assert ListWellformed(r);
      UnindexKeys(s.index, KeySet(pre), last.key, last.id);
      forall k | k in idx
        ensures multiset(idx[k]) == multiset(IdsWithKey(pre, k))
        ensures NewestFirst(s) ==> idx[k] == IdsWithKey(pre, k)
      {
        if k != last.key {
          SplitLastKey(s.items, k);
        }
      }
    }
  }

  /**
   * Insert keeps the invariant, always adds a new item at the front (no
   * de-duplication), prunes the oldest item first when the size is at the
   * capacity, and keeps the index in list order.
   */
  lemma InsertWellformed<K, V>(s: MultiState<K, V>, key: K, value: V)
    requires Wellformed(s)
    ensures var r := AfterInsert(s, key, value);
      && Wellformed(r)
      && r.items == [Item(s.nextId, key, value)] + (if s.size == s.maxSize then AfterPruneLast(s).items else s.items)
      && r.size == (if s.size == s.maxSize && s.size >= 1 then s.size else s.size + 1)
      && (NewestFirst(s) ==> NewestFirst(r))
  {
    PruneLastWellformed(s);
    PushFrontWellformed(if s.size == s.maxSize then AfterPruneLast(s) else s, key, value);
  }

  lemma PushFrontWellformed<K, V>(s: MultiState<K, V>, key: K, value: V)
    requires Wellformed(s)
    ensures Wellformed(PushFront(s, key, value))
    ensures NewestFirst(s) ==> NewestFirst(PushFront(s, key, value))
  {
    var r := PushFront(s, key, value);
    var x := Item(s.nextId, key, value);
    Cons(x, s.items);
    assert x.id !in Ids(s.items);
    assert ListWellformed(r);
    assert r.index.Keys == KeySet(r.items);
    forall k | k in r.index
      ensures multiset(r.index[k]) == multiset(IdsWithKey(r.items, k))
    {
      PushFrontEntry(s, key, value, k);
    }
    if NewestFirst(s) {
      forall k | k in r.index
        ensures r.index[k] == IdsWithKey(r.items, k)
      {
        PushFrontEntry(s, key, value, k);
      }
    }
  }

  /** One index entry after PushFront: the new identity in front of the entry the key had. */
  lemma PushFrontEntry<K, V>(s: MultiState<K, V>, key: K, value: V, k: K)
    requires Wellformed(s) && k in PushFront(s, key, value).index
    ensures multiset(PushFront(s, key, value).index[k]) == multiset(IdsWithKey(PushFront(s, key, value).items, k))
    ensures (k in s.index ==> s.index[k] == IdsWithKey(s.items, k)) ==>
              PushFront(s, key, value).index[k] == IdsWithKey(PushFront(s, key, value).items, k)
  {
    var x := Item(s.nextId, key, value);
    IdsWithKeyCons(x, s.items, k);
    if k == key && key !in s.index {
      IdsWithKeyFacts(s.items, key);
    }
  }

  /** After an Insert, Get of that key yields the value just inserted. */
  lemma InsertThenGet<K, V>(s: MultiState<K, V>, key: K, value: V)
    requires Wellformed(s)
    ensures Wellformed(AfterInsert(s, key, value))
    ensures GetValue(AfterInsert(s, key, value), key) == Some(value)
  {
    InsertWellformed(s, key, value);
  }

  /** Insert leaves every other key's stored values as they were, except for a pruned item. */
  lemma InsertOtherKey<K, V>(s: MultiState<K, V>, key: K, value: V, other: K)
    requires Wellformed(s) && other != key && s.size != s.maxSize
    ensures ValuesWithKey(AfterInsert(s, key, value).items, other) == ValuesWithKey(s.items, other)
    ensures ContainsKey(AfterInsert(s, key, value), other) <==> ContainsKey(s, other)
  {
  }

  /** Get yields the value of some stored item with the key, and the newest one while the index is in list order. */
  lemma GetSpec<K, V>(s: MultiState<K, V>, key: K)
    requires Wellformed(s)
    ensures GetValue(s, key).Some? <==> ContainsKey(s, key)
    ensures GetValue(s, key).Some? ==> GetValue(s, key).value in ValuesWithKey(s.items, key)
    ensures NewestFirst(s) && ContainsKey(s, key) ==> GetValue(s, key).value == ValuesWithKey(s.items, key)[0]
  {
    if key in s.index {
      ValuesOfIdsWithKey(s.items, key);
      IdsWithKeyFacts(s.items, key);
      var ids := s.index[key];
      var id := ids[0];
      assert id in multiset(IdsWithKey(s.items, key));
      ValueInValues(s.items, key, id);
      if NewestFirst(s) {
        assert ValuesOfIds(s.items, ids)[0] == ValueOfId(s.items, id);
      }
    }
  }

  lemma {:induction false} ValueInValues<K, V>(items: seq<Item<K, V>>, key: K, id: nat)
    requires UniqueIds(items) && id in IdsWithKey(items, key)
    ensures id in Ids(items)
    ensures ValueOfId(items, id) in ValuesWithKey(items, key)
  {
    IdsWithKeyFacts(items, key);
    var x, rest := items[0], items[1..];
    SplitFirst(items);
    IdsWithKeyCons(x, rest, key);
    IdsWithKeyFacts(rest, key);
    if x.id != id {
      ValueInValues(rest, key, id);
    } else {
      assert x.key == key;
    }
  }

  /** GetAll fails for an absent key, and otherwise yields one value per stored item of the key, newest first while the index is in list order. */
  lemma GetAllSpec<K, V>(s: MultiState<K, V>, key: K)
    requires Wellformed(s)
    ensures GetAllValues(s, key).Some? <==> ContainsKey(s, key)
    ensures GetAllValues(s, key).Some? ==> |GetAllValues(s, key).value| == |ValuesWithKey(s.items, key)|
    ensures NewestFirst(s) && ContainsKey(s, key) ==> GetAllValues(s, key).value == ValuesWithKey(s.items, key)
  {
    if key in s.index {
      IndexEntry(s, key);
      StoredKeys(s.items, key);
      ValuesOfIdsLength(s.items, s.index[key]);
      if NewestFirst(s) {
        ValuesOfIdsWithKey(s.items, key);
      }
    }
  }

  lemma {:induction false} ValuesOfIdsLength<K, V>(items: seq<Item<K, V>>, ids: seq<nat>)
    requires forall id :: id in ids ==> id in Ids(items)
    ensures |ValuesOfIds(items, ids)| == |ids|
  {
    if ids != [] {
      ValuesOfIdsLength(items, ids[1..]);
    }
  }

  /** Erase keeps the invariant and the index order. */
  lemma EraseWellformed<K, V>(s: MultiState<K, V>, key: K)
    requires Wellformed(s)
    ensures Wellformed(AfterErase(s, key))
    ensures NewestFirst(s) ==> NewestFirst(AfterErase(s, key))
  {
    if key in s.index {
      var r := AfterErase(s, key);
      IndexEntry(s, key);
      WithoutKeyFacts(s.items, key);
      assert ListWellformed(r);
      assert r.index.Keys == KeySet(r.items);
    }
  }

  /** Erase removes every item of the key, lowers the size by their number and leaves other keys alone. */
  lemma EraseSpec<K, V>(s: MultiState<K, V>, key: K)
    requires Wellformed(s)
    ensures var r := AfterErase(s, key);
      && !ContainsKey(r, key)
      && r.items == WithoutKey(s.items, key)
      && r.size == s.size - |ValuesWithKey(s.items, key)|
      && (forall k :: k != key ==> ValuesWithKey(r.items, k) == ValuesWithKey(s.items, k))
      && (forall k :: k != key ==> (ContainsKey(r, k) <==> ContainsKey(s, k)))
      && (!ContainsKey(s, key) ==> r == s)
  {
    WithoutKeyFacts(s.items, key);
    StoredKeys(s.items, key);
    if key in s.index {
      IndexEntry(s, key);
    } else {
      IdsWithKeyFacts(s.items, key);
    }
  }

  /** Erasing the items at every iterator of the key's index list erases exactly that key's items. */
  lemma ErasedAll<K, V>(s: MultiState<K, V>, key: K, ids: seq<nat>)
    requires Wellformed(s) && key in s.index && ids == s.index[key]
    ensures WithoutIds(s.items, Prefix(ids, |ids|)) == WithoutKey(s.items, key)
  {
    IndexEntry(s, key);
    ElementsOf(ids);
    WithoutIdsIsWithoutKey(s.items, Prefix(ids, |ids|), key);
  }

  /** The identities at the first `j` entries of an index list. */
  function Prefix(ids: seq<nat>, j: nat): set<nat>
    requires j <= |ids|
  {
    set i | 0 <= i < j :: ids[i]
  }

  lemma PrefixStep(ids: seq<nat>, j: nat)
    requires j < |ids|
    ensures Prefix(ids, j + 1) == Prefix(ids, j) + {ids[j]}
  {
  }

  lemma {:induction false} NoIdsRemoved<K, V>(items: seq<Item<K, V>>)
    ensures WithoutIds(items, {}) == items
  {
    if items != [] {
      NoIdsRemoved(items[1..]);
    }
  }

  /** RebuildIndex indexes every stored key, with each key's items oldest first: the reverse of Insert's order. */
  lemma {:induction false} BuildIndexSpec<K, V>(items: seq<Item<K, V>>)
    ensures BuildIndex(items).Keys == KeySet(items)
    ensures forall k :: k in BuildIndex(items) ==> BuildIndex(items)[k] == Reverse(IdsWithKey(items, k))
  {
    if items != [] {
      var pre, x := items[..|items| - 1], items[|items| - 1];
      SplitLast(items);
      BuildIndexSpec(pre);
      forall k | k in BuildIndex(items) ensures BuildIndex(items)[k] == Reverse(IdsWithKey(items, k)) {
        SplitLastKey(items, k);
        if k == x.key {
          IdsWithKeyFacts(pre, k);
          ReverseAppend(IdsWithKey(pre, k), x.id);
          if k !in BuildIndex(pre) {
            assert IdsWithKey(pre, k) == [];
            assert [x.id] + [] == [x.id];
          }
        } else {
          assert IdsWithKey(items, k) == IdsWithKey(pre, k);
        }
      }
    }
  }

  /** RebuildIndex restores the invariant for any well-formed item list. */
  lemma RebuildWellformed<K, V>(s: MultiState<K, V>)
    requires ListWellformed(s)
    ensures Wellformed(s.(index := BuildIndex(s.items)))
  {
    BuildIndexSpec(s.items);
    forall k | k in BuildIndex(s.items)
      ensures multiset(BuildIndex(s.items)[k]) == multiset(IdsWithKey(s.items, k))
    {
      ReverseMultiset(IdsWithKey(s.items, k));
    }
  }

  /**
   * After RebuildIndex, Get returns the OLDEST value of a key: inserting (1, 10)
   * then (1, 20) and rebuilding makes Get(1) yield 10, where before it yielded 20.
   */
  lemma RebuildReversesGet()
    ensures var s := AfterInsert(AfterInsert(Empty<int, int>(5, 0), 1, 10), 1, 20);
      && Wellformed(s)
      && GetValue(s, 1) == Some(20)
      && Wellformed(s.(index := BuildIndex(s.items)))
      && GetValue(s.(index := BuildIndex(s.items)), 1) == Some(10)
  {
    TwoInserts();
    var s := MultiState(5, 2, [Item(1, 1, 20), Item(0, 1, 10)], map[1 := [1, 0]], 2);
    RebuildTwoItems(s);
  }

  /** The state after inserting (1, 10) and then (1, 20) into an empty container of capacity 5. */
  lemma TwoInserts()
    ensures var s := MultiState(5, 2, [Item(1, 1, 20), Item(0, 1, 10)], map[1 := [1, 0]], 2);
      && AfterInsert(AfterInsert(Empty<int, int>(5, 0), 1, 10), 1, 20) == s
      && Wellformed(s)
      && GetValue(s, 1) == Some(20)
  {
    var s1 := MultiState(5, 1, [Item(0, 1, 10)], map[1 := [0]], 1);
    FirstInsert();
    SecondInsert(s1);
    InsertWellformed(s1, 1, 20);
    var s := MultiState(5, 2, [Item(1, 1, 20), Item(0, 1, 10)], map[1 := [1, 0]], 2);
    NewestValue(s);
  }

  lemma SecondInsert(s1: MultiState<int, int>)
    requires s1 == MultiState(5, 1, [Item(0, 1, 10)], map[1 := [0]], 1) && Wellformed(s1)
    ensures var s := MultiState(5, 2, [Item(1, 1, 20), Item(0, 1, 10)], map[1 := [1, 0]], 2);
      AfterInsert(s1, 1, 20) == s
  {
    assert AfterInsert(s1, 1, 20) == PushFront(s1, 1, 20);
    assert PushFront(s1, 1, 20).index == map[1 := [1, 0]] by {
      assert s1.index[1] == [0];
      assert [1] + [0] == [1, 0];
    }
    assert PushFront(s1, 1, 20).items == [Item(1, 1, 20), Item(0, 1, 10)];
  }

  lemma FirstInsert()
    ensures var s1 := MultiState(5, 1, [Item(0, 1, 10)], map[1 := [0]], 1);
      AfterInsert(Empty<int, int>(5, 0), 1, 10) == s1 && Wellformed(s1)
  {
    var s0 := Empty<int, int>(5, 0);
    assert Wellformed(s0);
    InsertWellformed(s0, 1, 10);
    assert [0] + [] == [0];
    assert AfterInsert(s0, 1, 10) == PushFront(s0, 1, 10);
  }

  lemma NewestValue(s: MultiState<int, int>)
    requires s == MultiState(5, 2, [Item(1, 1, 20), Item(0, 1, 10)], map[1 := [1, 0]], 2)
    requires Wellformed(s)
    ensures GetValue(s, 1) == Some(20)
  {
    assert Ids(s.items) == {1, 0} by { Cons(Item(1, 1, 20), [Item(0, 1, 10)]); }
  }

  /** Rebuilding the index of that state puts the older item first. */
  lemma RebuildTwoItems(s: MultiState<int, int>)
    requires s == MultiState(5, 2, [Item(1, 1, 20), Item(0, 1, 10)], map[1 := [1, 0]], 2)
    requires Wellformed(s)
    ensures Wellformed(s.(index := BuildIndex(s.items)))
    ensures GetValue(s.(index := BuildIndex(s.items)), 1) == Some(10)
  {
    RebuildWellformed(s);
    BuildTwoItems(s.items);
    OldestValue(s.(index := map[1 := [0, 1]]));
  }

  lemma OldestValue(t: MultiState<int, int>)
    requires t == MultiState(5, 2, [Item(1, 1, 20), Item(0, 1, 10)], map[1 := [0, 1]], 2)
    requires Wellformed(t)
    ensures GetValue(t, 1) == Some(10)
  {
    assert Ids(t.items) == {1, 0} by { Cons(Item(1, 1, 20), [Item(0, 1, 10)]); }
    assert t.items[1..] == [Item(0, 1, 10)];
  }

  lemma BuildTwoItems(items: seq<Item<int, int>>)
    requires items == [Item(1, 1, 20), Item(0, 1, 10)]
    ensures BuildIndex(items) == map[1 := [0, 1]]
  {
    var newest := [Item(1, 1, 20)];
    assert items[..1] == newest;
    assert newest[..0] == [];
    assert [1] + [] == [1];
    assert BuildIndex(newest) == map[1 := [1]];
    assert [0] + [1] == [0, 1];
  }

  lemma {:induction false} RemoveFirstAbsent(s: seq<nat>, x: nat)
    requires x !in s
    ensures RemoveFirst(s, x) == s
  {
    if s != [] {
      assert s[0] != x && x !in s[1..];
      RemoveFirstAbsent(s[1..], x);
    }
  }

  /**
   * The find-and-erase loop of PruneLast (cachemultimap.h:206-211): erase the
   * first entry of an iterator list that equals `x`, if there is one.
   */
  method EraseFirst(listIt: seq<nat>, x: nat) returns (r: seq<nat>)
    ensures r == RemoveFirst(listIt, x)
    ensures x in listIt ==> |r| == |listIt| - 1
    ensures x !in listIt ==> r == listIt
  {
    var j := 0;
    while j < |listIt| && listIt[j] != x
      invariant 0 <= j <= |listIt|
      invariant x !in listIt[..j]
    {
      assert listIt[..j + 1] == listIt[..j] + [listIt[j]];
      j := j + 1;
    }
    if j < |listIt| {
      RemoveFirstAt(listIt, x, j);
      r := listIt[..j] + listIt[j + 1..];
    } else {
      assert listIt[..j] == listIt;
      RemoveFirstAbsent(listIt, x);
      r := listIt;
    }
  }

  /**
   * The index update of PruneLast (cachemultimap.h:204-220): erase the pruned
   * item's iterator from its key's list, then count the list's entries (the loop
   * stops after one) and drop the key when there are none.
   */
  method UnindexLast<K(==)>(mapIndex: map<K, seq<nat>>, key: K, id: nat) returns (index: map<K, seq<nat>>)
    requires key in mapIndex
    ensures index == Unindex(mapIndex, key, id)
  {
    index := mapIndex;
    var listIt := EraseFirst(index[key], id);
    index := index[key := listIt];
    var nCount := 0;
    var t := 0;
    while t < |listIt|
      invariant 0 <= t <= 1 && t <= |listIt|
      invariant nCount == t
    {
      if nCount > 0 {
        break;
      }
      nCount := nCount + 1;
      t := t + 1;
    }
    if nCount == 0 {
      index := index - {key};
    }
  }

  /** The loop of RebuildIndex (cachemultimap.h:232-239): each item's iterator pushed at the front of its key's list. */
  method IndexOf<K(==), V>(listItems: seq<Item<K, V>>) returns (mapIndex: map<K, seq<nat>>)
    ensures mapIndex == BuildIndex(listItems)
  {
    mapIndex := map[];
    var i := 0;
    while i < |listItems|
      invariant 0 <= i <= |listItems|
      invariant mapIndex == BuildIndex(listItems[..i])
    {
      var item := listItems[i];
      assert listItems[..i + 1][..i] == listItems[..i];
      var listIt := if item.key in mapIndex then mapIndex[item.key] else [];
      mapIndex := mapIndex[item.key := [item.id] + listIt];
      i := i + 1;
    }
    assert listItems[..i] == listItems;
  }

  /**
   * The container. Fields follow cachemultimap.h:51-59; `nextId` stands for
   * the allocation of list nodes. The cross index of line 59 is never used and
   * is not modelled.
   */
  class CacheMultiMap<K(==), V> {
    var nMaxSize: nat
    var nCurrentSize: nat
    var listItems: seq<Item<K, V>>
    var mapIndex: map<K, seq<nat>>
    var nextId: nat

    function State(): MultiState<K, V>
      reads this
    {
      MultiState(nMaxSize, nCurrentSize, listItems, mapIndex, nextId)
    }

    predicate Valid()
      reads this
    {
      Wellformed(State())
    }

    /** cachemultimap.h:62-68 */
    constructor(nMaxSizeIn: nat)
      ensures Valid() && State() == Empty(nMaxSizeIn, 0)
    {
      nMaxSize := nMaxSizeIn;
      nCurrentSize := 0;
      listItems := [];
      mapIndex := map[];
      nextId := 0;
    }

    /** cachemultimap.h:80-86 */
    method Clear()
      modifies this
      ensures Valid() && State() == Empty(old(nMaxSize), old(nextId))
    {
      mapIndex := map[];
      listItems := [];
      nCurrentSize := 0;
    }

    /** cachemultimap.h:88-91 */
    method SetMaxSize(nMaxSizeIn: nat)
      requires Valid()
      modifies this
      ensures Valid() && State() == old(State()).(maxSize := nMaxSizeIn)
    {
      nMaxSize := nMaxSizeIn;
    }

    /** cachemultimap.h:97-99: the counter, which the invariant ties to the number of items. */
    method GetSize() returns (r: nat)
      requires Valid()
      ensures r == |listItems|
    {
      r := nCurrentSize;
    }

    /** cachemultimap.h:101-116 */
    method Insert(key: K, value: V)
      requires Valid()
      modifies this
      ensures Valid() && State() == AfterInsert(old(State()), key, value)
    {
      ghost var s0 := State();
      InsertWellformed(s0, key, value);
      if nCurrentSize == nMaxSize {
        PruneLast();
      }
      ghost var s1 := State();
      var lit := nextId;
      var listIt := if key in mapIndex then mapIndex[key] else [];
      ghost var s2 := PushFront(s1, key, value);
      assert s2.items == [Item(lit, key, value)] + listItems;
      assert s2.index == mapIndex[key := [lit] + listIt];
      listItems := [Item(lit, key, value)] + listItems;
      mapIndex := mapIndex[key := [lit] + listIt];
      nextId := nextId + 1;
      nCurrentSize := nCurrentSize + 1;
      assert State() == s2;
      assert AfterInsert(s0, key, value) == s2;
    }

    /** cachemultimap.h:118-122 */
    method HasKey(key: K) returns (b: bool)
      requires Valid()
      ensures b == ContainsKey(State(), key)
      ensures b <==> ValuesWithKey(listItems, key) != []
    {
      HasKeyIffStored(State(), key);
      b := key in mapIndex;
    }

    /** cachemultimap.h:124-134 */
    method Get(key: K) returns (r: Option<V>)
      requires Valid()
      ensures r == GetValue(State(), key)
    {
      if key !in mapIndex {
        return None;
      }
      IndexEntry(State(), key);
      var listIt := mapIndex[key];
      r := Some(ValueOfId(listItems, listIt[0]));
    }

    /**
     * cachemultimap.h:136-149. The loop body there binds `*it` (an iterator) to
     * an item reference; the model dereferences the iterator, which is what
     * the loop evidently means.
     */
    method GetAll(key: K, vecValues: seq<V>) returns (found: bool, vecOut: seq<V>)
      requires Valid()
      ensures found == ContainsKey(State(), key)
      ensures !found ==> vecOut == vecValues
      ensures found ==> vecOut == vecValues + GetAllValues(State(), key).value
    {
      vecOut := vecValues;
      if key !in mapIndex {
        return false, vecOut;
      }
      IndexEntry(State(), key);
      var listIt := mapIndex[key];
      var j := 0;
      while j < |listIt|
        invariant 0 <= j <= |listIt|
        invariant vecOut == vecValues + ValuesOfIds(listItems, listIt[..j])
      {
        assert listIt[..j + 1] == listIt[..j] + [listIt[j]];
        ValuesOfIdsAppend(listItems, listIt[..j], listIt[j]);
        vecOut := vecOut + [ValueOfId(listItems, listIt[j])];
        j := j + 1;
      }
      assert listIt[..j] == listIt;
      found := true;
    }

    /** cachemultimap.h:151-165 */
    method Erase(key: K)
      requires Valid()
      modifies this
      ensures Valid() && State() == AfterErase(old(State()), key)
    {
      ghost var s0 := State();
      if key !in mapIndex {
        return;
      }
      var listIt := mapIndex[key];
      var items := listItems;
      var size := nCurrentSize;
      assert |listIt| <= size by { IndexEntry(s0, key); }
      assert items == WithoutIds(s0.items, Prefix(listIt, 0)) by {
        NoIdsRemoved(items);
        assert Prefix(listIt, 0) == {};
      }
      var j := 0;
      while j < |listIt|
        invariant 0 <= j <= |listIt| <= s0.size
        invariant items == WithoutIds(s0.items, Prefix(listIt, j))
        invariant size == s0.size - j
        invariant unchanged(this)
      {
        assert WithoutIds(items, {listIt[j]}) == WithoutIds(s0.items, Prefix(listIt, j + 1)) by {
          WithoutIdsTwice(s0.items, Prefix(listIt, j), {listIt[j]});
          PrefixStep(listIt, j);
        }
        items := WithoutIds(items, {listIt[j]});
        size := size - 1;
        j := j + 1;
      }
      assert items == WithoutKey(s0.items, key) by { ErasedAll(s0, key, listIt); }
      listItems := items;
      nCurrentSize := size;
      mapIndex := mapIndex - {key};
      assert State() == AfterErase(s0, key);
      EraseWellformed(s0, key);
    }

    /** cachemultimap.h:194-227 */
    method PruneLast()
      requires Valid()
      modifies this
      ensures Valid() && State() == AfterPruneLast(old(State()))
    {
      ghost var s0 := State();
      if nCurrentSize < 1 {
        return;
      }
      var lit := listItems[|listItems| - 1];
      AfterPruneLastFields(s0);
      ghost var s1 := AfterPruneLast(s0);
      var index := UnindexLast(mapIndex, lit.key, lit.id);
      var items := listItems[..|listItems| - 1];
      assert items == s1.items && index == s1.index;
      listItems := items;
      mapIndex := index;
      nCurrentSize := nCurrentSize - 1;
      assert State() == s1 by {
        assert listItems == s1.items && mapIndex == s1.index && nCurrentSize == s1.size;
      }
      PruneLastWellformed(s0);
    }

    /**
     * cachemultimap.h:229-240. It needs only the list part of the invariant,
     * which is what a deserialized container provides.
     */
    method RebuildIndex()
      requires ListWellformed(State())
      modifies this
      ensures Valid() && State() == old(State()).(index := BuildIndex(old(listItems)))
    {
      ghost var s0 := State();
      RebuildWellformed(s0);
      mapIndex := IndexOf(listItems);
      assert State() == s0.(index := BuildIndex(s0.items));
    }
  }
}
