/** `cache_results(max_size)` (stuff/practice.py): a memo cache that keeps a
    dict of results and a list of its keys in insertion order, and evicts
    the earliest-inserted key when full. A hit does not reorder the list:
    eviction is first-in first-out, not least-recently-used. */
module MemoCache {
  import opened Seqs
  import opened Wrappers

  /** The failure of `cache_order.pop(0)` on an empty list. */
  datatype CacheError = IndexError

  /** The two structures of the wrapper: the dict and the key order. */
  datatype Store<K, V> = Store(entries: map<K, V>, order: seq<K>)

  /** The order list lists every cached key once and nothing else, and the
      cache respects its bound; with a bound below 1 nothing can ever be
      stored, since the first store fails. */
  ghost predicate Inv<K, V>(s: Store<K, V>, maxSize: int) {
    && s.entries.Keys == Elements(s.order)
    && Distinct(s.order)
    && (maxSize >= 1 ==> |s.order| <= maxSize)
    && (maxSize <= 0 ==> s.order == [])
  }

  /** What a miss does after computing `v`: when `len(cache) >= max_size`,
      pop the head of the order list (failing on an empty list) and delete
      its entry; then store `v` and append the key. */
  function Miss<K, V>(s: Store<K, V>, maxSize: int, key: K, v: V): Result<Store<K, V>, CacheError> {
    if |s.entries| >= maxSize then
      if s.order == [] then Err(IndexError)
      else
        var oldest := s.order[0];
        Ok(Store((s.entries - {oldest})[key := v], s.order[1..] + [key]))
    else
      Ok(Store(s.entries[key := v], s.order + [key]))
  }

  /** The order list is as long as the dict. */
  lemma InvSize<K, V>(s: Store<K, V>, maxSize: int)
    requires Inv(s, maxSize)
    ensures |s.entries| == |s.order|
  {
    DistinctCard(s.order);
  }

  /** A miss fails exactly when `max_size < 1`; otherwise it keeps the
      invariant, stores the new value, and leaves the cache with one more
      entry or, when full, with `max_size` entries. */
  lemma MissKeepsInv<K, V>(s: Store<K, V>, maxSize: int, key: K, v: V)
    requires Inv(s, maxSize) && key !in s.entries
    ensures Miss(s, maxSize, key, v).Ok? <==> maxSize >= 1
    ensures Miss(s, maxSize, key, v).Ok? ==>
      var s' := Miss(s, maxSize, key, v).value;
      && Inv(s', maxSize)
      && key in s'.entries && s'.entries[key] == v
      && |s'.entries| == (if |s.entries| < maxSize then |s.entries| + 1 else maxSize)
  {
    InvSize(s, maxSize);
    if maxSize >= 1 {
      if |s.entries| >= maxSize {
        EvictKeepsInv(s, maxSize, key, v);
      } else {
        AppendKeepsInv(s, maxSize, key, v);
      }
    }
  }

  lemma EvictKeepsInv<K, V>(s: Store<K, V>, maxSize: int, key: K, v: V)
    requires Inv(s, maxSize) && key !in s.entries
    requires maxSize >= 1 && |s.order| == maxSize
    ensures var s' := Store((s.entries - {s.order[0]})[key := v], s.order[1..] + [key]);
      Inv(s', maxSize) && |s'.order| == maxSize
  {
    var oldest := s.order[0];
    var rest := s.order[1..];
    assert s.order == [oldest] + rest;
    assert Elements(s.order) == {oldest} + Elements(rest);
    assert oldest !in Elements(rest);
    var o' := rest + [key];
    assert Elements(o') == Elements(rest) + {key};
    assert Distinct(o') by {
      forall i, j | 0 <= i < j < |o'| ensures o'[i] != o'[j] {
        if j < |rest| {
          assert o'[i] == s.order[i + 1] && o'[j] == s.order[j + 1];
        } else {
          assert o'[i] in Elements(rest);
        }
      }
    }
  }

  lemma AppendKeepsInv<K, V>(s: Store<K, V>, maxSize: int, key: K, v: V)
    requires Inv(s, maxSize) && key !in s.entries
    requires |s.order| < maxSize
    ensures var s' := Store(s.entries[key := v], s.order + [key]);
      Inv(s', maxSize) && |s'.order| == |s.order| + 1
  {
    var o' := s.order + [key];
    assert Elements(o') == Elements(s.order) + {key};
    assert Distinct(o') by {
      forall i, j | 0 <= i < j < |o'| ensures o'[i] != o'[j] {
        if j < |s.order| {
          assert o'[i] == s.order[i] && o'[j] == s.order[j];
        } else {
          assert o'[i] in Elements(s.order);
        }
      }
    }
  }

  /** FIFO eviction: on a miss with a full cache exactly the earliest-inserted
      key goes, every other entry stays with its value, and the order list
      shifts by one. */
  lemma MissEvictsOldest<K, V>(s: Store<K, V>, maxSize: int, key: K, v: V)
    requires Inv(s, maxSize) && key !in s.entries
    requires maxSize >= 1 && |s.entries| == maxSize
    ensures Miss(s, maxSize, key, v).Ok?
    ensures var s' := Miss(s, maxSize, key, v).value;
      && s.order[0] !in s'.entries
      && (forall k :: k in s.entries && k != s.order[0] ==> k in s'.entries && s'.entries[k] == s.entries[k])
      && s'.order == s.order[1..] + [key]
  {
    InvSize(s, maxSize);
  }

  /** A miss with room to spare keeps every entry. */
  lemma MissKeepsAll<K, V>(s: Store<K, V>, maxSize: int, key: K, v: V)
    requires Inv(s, maxSize) && key !in s.entries
    requires |s.entries| < maxSize
    ensures Miss(s, maxSize, key, v).Ok?
    ensures var s' := Miss(s, maxSize, key, v).value;
      && (forall k :: k in s.entries ==> k in s'.entries && s'.entries[k] == s.entries[k])
      && s'.order == s.order + [key]
  {
  }

  /** A cache that only ever stores results of `f` keeps holding, for each
      key, exactly what `f` returns for it: memoising a pure function does
      not change what the caller sees. */
  lemma MissFaithful<K, V>(s: Store<K, V>, maxSize: int, key: K, f: K -> V)
    requires Inv(s, maxSize) && key !in s.entries && maxSize >= 1
    requires forall k :: k in s.entries ==> s.entries[k] == f(k)
    ensures Miss(s, maxSize, key, f(key)).Ok?
    ensures var s' := Miss(s, maxSize, key, f(key)).value;
      && key in s'.entries
      && forall k :: k in s'.entries ==> s'.entries[k] == f(k)
  {
    MissKeepsInv(s, maxSize, key, f(key));
  }

  /** The cache of one decorated function. `Call` is the wrapper; `computed`
      says whether the wrapped function was run. */
  class Cache<K(==), V> {
    const maxSize: int
    var entries: map<K, V>
    var order: seq<K>

    /** The store invariant; the dict's size is the order list's length. */
    ghost predicate Valid()
      reads this
    {
      Inv(Store(entries, order), maxSize) && |entries| == |order|
    }

    constructor (maxSize: int := 100)
      ensures Valid() && this.maxSize == maxSize
      ensures entries == map[] && order == []
    {
      this.maxSize := maxSize;
      entries := map[];
      order := [];
    }

    /** The wrapper: a hit returns the stored value and changes nothing; a
        miss runs `f` and then stores its result as `Miss` says. */
    method Call(key: K, f: K -> V) returns (r: Result<V, CacheError>, computed: bool)
      requires Valid()
      modifies this
      ensures Valid()
      ensures key in old(entries) ==>
        && !computed && r == Ok(old(entries)[key])
        && entries == old(entries) && order == old(order)
      ensures key !in old(entries) ==> (computed &&
        match Miss(Store(old(entries), old(order)), maxSize, key, f(key))
        case Ok(s) => r == Ok(f(key)) && entries == s.entries && order == s.order
        case Err(e) => r == Err(e) && entries == old(entries) && order == old(order))
    {
      if key in entries {
        return Ok(entries[key]), false;
      }
      var result := f(key);
      computed := true;
      MissKeepsInv(Store(entries, order), maxSize, key, result);
      ghost var after := Miss(Store(entries, order), maxSize, key, result);
      if after.Ok? {
        InvSize(after.value, maxSize);
      }
      if |entries| >= maxSize {
        if order == [] {
          return Err(IndexError), computed;
        }
        var oldest := order[0];
        order := order[1..];
        entries := entries - {oldest};
      }
      entries := entries[key := result];
      order := order + [key];
      r := Ok(result);
    }

    /** `clear_cache()`: empties both structures. */
    method Clear()
      requires Valid()
      modifies this
      ensures Valid() && entries == map[] && order == []
    {
      entries := map[];
      order := [];
    }

    /** `len(wrapper.cache)`: never more than `max_size` entries. */
    function Size(): (n: nat)
      requires Valid()
      reads this
      ensures n == |order|
      ensures maxSize >= 1 ==> n <= maxSize
    {
      |entries|
    }
  }

  /** A cache with room for two after storing 1 and then 2. */
  method StoreTwo(f: int -> int) returns (cache: Cache<int, int>)
    ensures fresh(cache) && cache.Valid() && cache.maxSize == 2 && cache.order == [1, 2]
  {
    cache := new Cache<int, int>(2);
    var r, c := cache.Call(1, f);
    r, c := cache.Call(2, f);
  }

  /** From that state, hit 1, then miss on 3. Under FIFO the hit on 1 does
      not protect it: 1 is evicted, so asking for 1 again runs the function,
      while 2 is still cached. */
  method HitDoesNotProtect(cache: Cache<int, int>, f: int -> int) returns (oneHit: bool, oneRecomputed: bool, twoCached: bool)
    requires cache.Valid() && cache.maxSize == 2 && cache.order == [1, 2]
    modifies cache
    ensures oneHit && oneRecomputed && twoCached
  {
    assert 1 in Elements(cache.order);
    var r, c := cache.Call(1, f);
    oneHit := !c;
    r, c := cache.Call(3, f);
    assert cache.order == [2, 3];
    twoCached := 2 in cache.entries;
    r, oneRecomputed := cache.Call(1, f);
  }

  /** The whole sequence from an empty cache. */
  method EvictionIsFifo() returns (oneHit: bool, oneRecomputed: bool, twoCached: bool)
    ensures oneHit && oneRecomputed && twoCached
  {
    var f := (k: int) => k * k;
    var cache := StoreTwo(f);
    oneHit, oneRecomputed, twoCached := HitDoesNotProtect(cache, f);
  }

  /** With `max_size = 0` the first miss fails on `pop(0)` of the empty list. */
  method ZeroSizeFails() returns (r: Result<int, CacheError>)
    ensures r == Err(IndexError)
  {
    var cache := new Cache<int, int>(0);
    var computed;
    r, computed := cache.Call(7, (k: int) => k);
  }
}
