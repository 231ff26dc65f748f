/** Counting in insertion order: Python's `collections.Counter` and the
    `d[x] = d.get(x, 0) + 1` loops, whose dicts remember the order in which
    keys were first inserted; and `Counter.most_common(n)`. */
module Counter {
  import opened Seqs

  /** A count dict: its keys in insertion order and the count of each key. */
  datatype Tally<T> = Tally(keys: seq<T>, count: map<T, nat>)

  /** The dict invariant: the key sequence lists each key of the map once. */
  ghost predicate Valid<T>(t: Tally<T>) {
    && Distinct(t.keys)
    && t.count.Keys == Elements(t.keys)
  }

  /** `d[x] = d.get(x, 0) + 1`: a new key goes to the end of the order. */
  function Bump<T>(t: Tally<T>, x: T): Tally<T> {
    if x in t.count then Tally(t.keys, t.count[x := t.count[x] + 1])
    else Tally(t.keys + [x], t.count[x := 1])
  }

  /** `Counter(xs)`: the dict built by bumping every element, left to right. */
  function TallyOf<T>(xs: seq<T>): Tally<T> {
    if xs == [] then Tally([], map[]) else Bump(TallyOf(xs[..|xs| - 1]), xs[|xs| - 1])
  }

  /** `Counter[k]`: 0 for a missing key. */
  function Get<T>(t: Tally<T>, k: T): nat {
    if k in t.count then t.count[k] else 0
  }

  /** The sum of the counts of `keys`. */
  function SumCounts<T>(keys: seq<T>, count: map<T, nat>): int
    requires forall k :: k in keys ==> k in count
  {
    if keys == [] then 0
    else SumCounts(keys[..|keys| - 1], count) + count[keys[|keys| - 1]]
  }

  /** The sum of all counts of a valid dict. */
  function Total<T>(t: Tally<T>): int
    requires Valid(t)
  {
    SumCounts(t.keys, t.count)
  }

  lemma {:induction false} SumCountsFrame<T>(keys: seq<T>, m1: map<T, nat>, m2: map<T, nat>)
    requires forall k :: k in keys ==> k in m1 && k in m2 && m1[k] == m2[k]
    ensures SumCounts(keys, m1) == SumCounts(keys, m2)
  {
    if keys != [] {
      SumCountsFrame(keys[..|keys| - 1], m1, m2);
    }
  }

  /** Raising one listed key by one raises the sum by one. */
  lemma {:induction false} SumCountsBump<T>(keys: seq<T>, m: map<T, nat>, x: T)
    requires Distinct(keys) && x in keys
    requires forall k :: k in keys ==> k in m
    ensures SumCounts(keys, m[x := m[x] + 1]) == SumCounts(keys, m) + 1
  {
    var init := keys[..|keys| - 1];
    var last := keys[|keys| - 1];
    assert Distinct(init);
    if last == x {
      assert x !in init;
      SumCountsFrame(init, m[x := m[x] + 1], m);
    } else {
      assert x in init;
      SumCountsBump(init, m, x);
    }
  }

  /** Bumping keeps the dict invariant and raises the total by exactly one. */
  lemma BumpValid<T>(t: Tally<T>, x: T)
    requires Valid(t)
    ensures Valid(Bump(t, x))
    ensures Total(Bump(t, x)) == Total(t) + 1
    ensures Get(Bump(t, x), x) == Get(t, x) + 1
    ensures forall k :: k != x ==> Get(Bump(t, x), k) == Get(t, k)
    ensures x in Bump(t, x).keys
    ensures forall k :: k in t.keys ==> k in Bump(t, x).keys
  {
    if x in t.count {
      SumCountsBump(t.keys, t.count, x);
    } else {
      var t' := Bump(t, x);
      assert t'.keys[..|t'.keys| - 1] == t.keys;
      SumCountsFrame(t.keys, t'.count, t.count);
    }
  }

  /** `Counter(xs)` counts each element exactly as often as it occurs; its
      keys are exactly the elements, each once; its counts add up to `|xs|`. */
  lemma {:induction false} TallyOfCorrect<T>(xs: seq<T>)
    ensures Valid(TallyOf(xs))
    ensures Total(TallyOf(xs)) == |xs|
    ensures forall k :: Get(TallyOf(xs), k) == multiset(xs)[k]
    ensures forall k :: k in TallyOf(xs).keys <==> k in xs
  {
    if xs != [] {
      var init := xs[..|xs| - 1];
      var x := xs[|xs| - 1];
      TallyOfCorrect(init);
      BumpValid(TallyOf(init), x);
      assert xs == init + [x];
      assert multiset(xs) == multiset(init) + multiset{x};
    }
  }

  /** The number of keys is the number of distinct elements (`len(set(xs))`),
      never more than `len(xs)`. */
  lemma UniqueKeys<T>(xs: seq<T>)
    ensures |TallyOf(xs).keys| == |Elements(xs)| <= |xs|
  {
    TallyOfCorrect(xs);
    DistinctCard(TallyOf(xs).keys);
    assert Elements(TallyOf(xs).keys) == Elements(xs);
    ElementsCardBound(xs);
  }

  /** The keys of `Counter(xs)` are listed in the order of their first
      occurrence in `xs`. */
  lemma {:induction false} TallyKeysOrder<T>(xs: seq<T>)
    ensures forall i :: 0 <= i < |TallyOf(xs).keys| ==> TallyOf(xs).keys[i] in xs
    ensures forall i, j :: 0 <= i < j < |TallyOf(xs).keys| ==>
      FirstIndex(xs, TallyOf(xs).keys[i]) < FirstIndex(xs, TallyOf(xs).keys[j])
  {
    if xs != [] {
      var init, x := xs[..|xs| - 1], xs[|xs| - 1];
      TallyKeysOrder(init);
      var t := TallyOf(init);
      KeysOfBump(init, x);
      FirstOrderStep(init, x, xs, t.keys, TallyOf(xs).keys);
    }
  }

  /** How the keys grow by one element: a new element goes to the end of
      the key order, a known one leaves it as it is. */
  lemma KeysOfBump<T>(init: seq<T>, x: T)
    ensures x in init <==> x in TallyOf(init).keys
    ensures TallyOf(init + [x]).keys == if x in TallyOf(init).keys then TallyOf(init).keys else TallyOf(init).keys + [x]
  {
    TallyKeys(init);
    assert (init + [x])[..|init|] == init;
    assert x in TallyOf(init).count <==> x in TallyOf(init).keys;
  }

  /** The keys of `Counter(xs)` are exactly the elements of `xs`. */
  lemma {:induction false} TallyKeys<T>(xs: seq<T>)
    ensures Valid(TallyOf(xs))
    ensures forall k :: k in TallyOf(xs).keys <==> k in xs
  {
    if xs != [] {
      var init := xs[..|xs| - 1];
      TallyKeys(init);
      BumpValid(TallyOf(init), xs[|xs| - 1]);
      assert xs == init + [xs[|xs| - 1]];
    }
  }

  /** A first-occurrence listing of `init` extends to one of `xs = init + [x]`:
      unchanged when `x` was listed, with `x` at the end otherwise. */
  lemma FirstOrderStep<T>(init: seq<T>, x: T, xs: seq<T>, before: seq<T>, keys: seq<T>)
    requires xs == init + [x]
    requires forall i :: 0 <= i < |before| ==> before[i] in init
    requires x in init <==> x in before
    requires forall i, j :: 0 <= i < j < |before| ==> FirstIndex(init, before[i]) < FirstIndex(init, before[j])
    requires keys == if x in before then before else before + [x]
    ensures forall i :: 0 <= i < |keys| ==> keys[i] in xs
    ensures forall i, j :: 0 <= i < j < |keys| ==> FirstIndex(xs, keys[i]) < FirstIndex(xs, keys[j])
  {
    forall i | 0 <= i < |before|
      ensures FirstIndex(xs, before[i]) == FirstIndex(init, before[i]) < |init|
    {
      FirstIndexPrefix(init, [x], before[i]);
    }
    if x !in before {
      FirstIndexLast(init, x);
      forall i, j | 0 <= i < j < |keys|
        ensures FirstIndex(xs, keys[i]) < FirstIndex(xs, keys[j])
      {
        assert keys[i] == before[i];
        if j < |before| {
          assert keys[j] == before[j];
        } else {
          assert keys[j] == x;
        }
      }
    }
  }

  /** Precedence among keys is the order of first occurrence. */
  lemma TallyKeysPrecede<T>(xs: seq<T>, a: T, b: T)
    requires Precedes(a, b, TallyOf(xs).keys)
    ensures a in xs && b in xs && FirstIndex(xs, a) < FirstIndex(xs, b)
  {
    TallyKeysOrder(xs);
    var keys := TallyOf(xs).keys;
    var i, j :| 0 <= i < j < |keys| && keys[i] == a && keys[j] == b;
  }

  // ---------------------------------------------------------------------
  // most_common

  /** The `(key, count)` pairs of a dict, in key order (`d.items()`). */
  function Items<T>(t: Tally<T>): (r: seq<(T, nat)>)
    requires Valid(t)
    ensures |r| == |t.keys|
    ensures forall i :: 0 <= i < |r| ==> r[i] == (t.keys[i], t.count[t.keys[i]])
  {
    seq(|t.keys|, i requires 0 <= i < |t.keys| => (t.keys[i], t.count[t.keys[i]]))
  }

  /** Counts never increase from left to right. */
  ghost predicate SortedDesc<T>(s: seq<(T, nat)>) {
    forall i, j :: 0 <= i < j < |s| ==> s[i].1 >= s[j].1
  }

  /** Inserts `x` after every element whose count is at least its own. */
  function InsertDesc<T>(x: (T, nat), s: seq<(T, nat)>): (r: seq<(T, nat)>)
    ensures |r| == |s| + 1
  {
    if s == [] then [x]
    else if s[0].1 >= x.1 then [s[0]] + InsertDesc(x, s[1..])
    else [x] + s
  }

  /** `sorted(items, key=count, reverse=True)`: a stable descending sort,
      built by inserting the items one at a time in their original order. */
  function SortDesc<T>(s: seq<(T, nat)>): (r: seq<(T, nat)>)
    ensures |r| == |s|
  {
    if s == [] then []
    else InsertDesc(s[|s| - 1], SortDesc(s[..|s| - 1]))
  }

  /** Insertion adds exactly one element and loses none. */
  lemma {:induction false} InsertDescPerm<T>(x: (T, nat), s: seq<(T, nat)>)
    ensures multiset(InsertDesc(x, s)) == multiset(s) + multiset{x}
  {
    if s != [] && s[0].1 >= x.1 {
      InsertDescPerm(x, s[1..]);
      assert InsertDesc(x, s) == [s[0]] + InsertDesc(x, s[1..]);
      assert s == [s[0]] + s[1..];
    }
  }

  /** The sort is a permutation. */
  lemma {:induction false} SortDescPerm<T>(s: seq<(T, nat)>)
    ensures multiset(SortDesc(s)) == multiset(s)
  {
    if s != [] {
      var init, last := s[..|s| - 1], s[|s| - 1];
      SortDescPerm(init);
      InsertDescPerm(last, SortDesc(init));
      assert SortDesc(s) == InsertDesc(last, SortDesc(init));
      assert s == init + [last];
      assert multiset(s) == multiset(init) + multiset{last};
    }
  }

  lemma {:induction false} InsertDescSorted<T>(x: (T, nat), s: seq<(T, nat)>)
    requires SortedDesc(s)
    ensures SortedDesc(InsertDesc(x, s))
  {
    if s != [] && s[0].1 >= x.1 {
      InsertDescSorted(x, s[1..]);
      InsertDescPerm(x, s[1..]);
      var r := InsertDesc(x, s);
      forall i | 0 < i < |r|
        ensures r[0].1 >= r[i].1
      {
        assert r[i] in multiset(InsertDesc(x, s[1..]));
        assert r[i] in multiset(s[1..]) || r[i] == x;
      }
    }
  }

  lemma {:induction false} SortDescSorted<T>(s: seq<(T, nat)>)
    ensures SortedDesc(SortDesc(s))
  {
    if s != [] {
      SortDescSorted(s[..|s| - 1]);
      InsertDescSorted(s[|s| - 1], SortDesc(s[..|s| - 1]));
    }
  }

  /** The elements of count `c`, in order. */
  function WithCount<T>(s: seq<(T, nat)>, c: nat): seq<(T, nat)> {
    if s == [] then []
    else (if s[0].1 == c then [s[0]] else []) + WithCount(s[1..], c)
  }

  lemma {:induction false} WithCountConcat<T>(a: seq<(T, nat)>, b: seq<(T, nat)>, c: nat)
    ensures WithCount(a + b, c) == WithCount(a, c) + WithCount(b, c)
  {
    if a == [] {
      assert a + b == b;
    } else {
      var ab := a + b;
      var head := if a[0].1 == c then [a[0]] else [];
      assert ab[0] == a[0] && ab[1..] == a[1..] + b;
      WithCountConcat(a[1..], b, c);
      calc {
        WithCount(ab, c);
        head + WithCount(a[1..] + b, c);
        head + (WithCount(a[1..], c) + WithCount(b, c));
        { assert head + (WithCount(a[1..], c) + WithCount(b, c)) == (head + WithCount(a[1..], c)) + WithCount(b, c); }
        WithCount(a, c) + WithCount(b, c);
      }
    }
  }

  /** In a descending sequence whose head is below `c`, no element has count `c`. */
  lemma {:induction false} NoneWithCount<T>(s: seq<(T, nat)>, c: nat)
    requires SortedDesc(s) && s != [] && s[0].1 < c
    ensures WithCount(s, c) == []
  {
    if |s| > 1 {
      NoneWithCount(s[1..], c);
    }
  }

  /** Stability of one insertion: among the elements of any one count, `x`
      lands after those already present. */
  lemma {:induction false} InsertDescStable<T>(x: (T, nat), s: seq<(T, nat)>, c: nat)
    requires SortedDesc(s)
    ensures WithCount(InsertDesc(x, s), c) == WithCount(s, c) + (if x.1 == c then [x] else [])
  {
    if s == [] {
      assert WithCount([x], c) == (if x.1 == c then [x] else []) + WithCount([], c);
    } else if s[0].1 >= x.1 {
      InsertDescStable(x, s[1..], c);
      assert InsertDesc(x, s)[1..] == InsertDesc(x, s[1..]);
    } else {
      assert (x.1 == c ==> WithCount(s, c) == []) by {
        if x.1 == c {
          NoneWithCount(s, c);
        }
      }
      assert ([x] + s)[1..] == s;
    }
  }

  /** The sort is stable: the elements of any one count keep their order. */
  lemma {:induction false} SortDescStable<T>(s: seq<(T, nat)>, c: nat)
    ensures WithCount(SortDesc(s), c) == WithCount(s, c)
  {
    if s != [] {
      var init := s[..|s| - 1];
      var x := s[|s| - 1];
      SortDescStable(init, c);
      SortDescSorted(init);
      InsertDescStable(x, SortDesc(init), c);
      assert s == init + [x];
      WithCountSnoc(init, x, c);
    }
  }

  lemma WithCountSnoc<T>(init: seq<(T, nat)>, x: (T, nat), c: nat)
    ensures WithCount(init + [x], c) == WithCount(init, c) + (if x.1 == c then [x] else [])
  {
    assert WithCount([x], c) == (if x.1 == c then [x] else []) + WithCount([], c);
    WithCountConcat(init, [x], c);
  }

  /** Every element of count `c` is kept. */
  lemma {:induction false} WithCountMember<T>(s: seq<(T, nat)>, c: nat, q: int)
    requires 0 <= q < |s| && s[q].1 == c
    ensures s[q] in WithCount(s, c)
  {
    if q > 0 {
      WithCountMember(s[1..], c, q - 1);
    }
  }

  /** Nothing is kept that was not there. */
  lemma {:induction false} WithCountSub<T>(s: seq<(T, nat)>, c: nat, x: (T, nat))
    requires x in WithCount(s, c)
    ensures x in s
  {
    if s[0] != x {
      WithCountSub(s[1..], c, x);
    }
  }

  /** Two elements of count `c` keep their order in `WithCount(s, c)`. */
  lemma {:induction false} PrecedesToWithCount<T>(s: seq<(T, nat)>, c: nat, i: int, j: int)
    requires 0 <= i < j < |s| && s[i].1 == c && s[j].1 == c
    ensures Precedes(s[i], s[j], WithCount(s, c))
  {
    var rest := WithCount(s[1..], c);
    var w := WithCount(s, c);
    if i == 0 {
      assert w == [s[0]] + rest;
      WithCountMember(s[1..], c, j - 1);
      var q :| 0 <= q < |rest| && rest[q] == s[j];
      assert w[0] == s[i] && w[q + 1] == s[j];
    } else {
      var head := if s[0].1 == c then [s[0]] else [];
      assert w == head + rest;
      PrecedesToWithCount(s[1..], c, i - 1, j - 1);
      var p, q :| 0 <= p < q < |rest| && rest[p] == s[i] && rest[q] == s[j];
      assert w[|head| + p] == s[i] && w[|head| + q] == s[j];
    }
  }

  /** An order seen in `WithCount(s, c)` is an order of `s`. */
  lemma {:induction false} PrecedesFromWithCount<T>(s: seq<(T, nat)>, c: nat, x: (T, nat), y: (T, nat))
    requires Precedes(x, y, WithCount(s, c))
    ensures Precedes(x, y, s)
  {
    var rest := WithCount(s[1..], c);
    var head := if s[0].1 == c then [s[0]] else [];
    var w := WithCount(s, c);
    assert w == head + rest;
    var p, q :| 0 <= p < q < |w| && w[p] == x && w[q] == y;
    if p < |head| {
      assert x == s[0] && rest[q - 1] == y;
      WithCountSub(s[1..], c, y);
      var k :| 0 <= k < |s[1..]| && s[1..][k] == y;
      assert s[0] == x && s[k + 1] == y;
    } else {
      assert rest[p - |head|] == x && rest[q - |head|] == y;
      PrecedesFromWithCount(s[1..], c, x, y);
      var a, b :| 0 <= a < b < |s[1..]| && s[1..][a] == x && s[1..][b] == y;
      assert s[a + 1] == x && s[b + 1] == y;
    }
  }

  /** Stability, pairwise: two sorted entries with the same count occur in
      that order in the input. */
  lemma SortDescTies<T>(s: seq<(T, nat)>, i: int, j: int)
    requires 0 <= i < j < |SortDesc(s)| && SortDesc(s)[i].1 == SortDesc(s)[j].1
    ensures Precedes(SortDesc(s)[i], SortDesc(s)[j], s)
  {
    var sorted := SortDesc(s);
    var c := sorted[i].1;
    PrecedesToWithCount(sorted, c, i, j);
    SortDescStable(s, c);
    PrecedesFromWithCount(s, c, sorted[i], sorted[j]);
  }

  /** `Counter.most_common(n)`: the first `n` items of the stable descending sort. */
  function MostCommon<T>(t: Tally<T>, n: nat): (r: seq<(T, nat)>)
    requires Valid(t)
  {
    Take(SortDesc(Items(t)), n)
  }

  /** What `most_common(n)` returns: `min(n, #keys)` distinct items of the
      dict with their counts, in descending count order, ties kept in
      insertion order, and no key left out has a larger count than a key
      kept. */
  lemma MostCommonCorrect<T>(t: Tally<T>, n: nat)
    requires Valid(t)
    ensures var r := MostCommon(t, n);
      && |r| == (if n < |t.keys| then n else |t.keys|)
      && SortedDesc(r)
      && (forall i :: 0 <= i < |r| ==> r[i].0 in t.keys && r[i].1 == t.count[r[i].0])
      && (forall i, j :: 0 <= i < j < |r| ==> r[i].0 != r[j].0)
      && (forall k :: k in t.keys && r != [] && (forall i :: 0 <= i < |r| ==> r[i].0 != k)
            ==> t.count[k] <= r[|r| - 1].1)
    ensures forall c: nat :: WithCount(SortDesc(Items(t)), c) == WithCount(Items(t), c)
  {
    var items := Items(t);
    var sorted := SortDesc(items);
    SortDescSorted(items);
    SortDescPerm(items);
    PermutedItems(t, sorted);
    PermutedKeysDistinct(t, sorted);
    PermutedKeysPresent(t, sorted);
    PrefixOfRanking(t, sorted, n);
    forall c: nat
      ensures WithCount(sorted, c) == WithCount(items, c)
    {
      SortDescStable(items, c);
    }
  }

  /** Ties keep insertion order: of two kept keys with the same count, the
      one listed first was inserted first. */
  lemma MostCommonTies<T>(t: Tally<T>, n: nat)
    requires Valid(t)
    ensures var r := MostCommon(t, n);
      forall i, j :: 0 <= i < j < |r| && r[i].1 == r[j].1 ==> Precedes(r[i].0, r[j].0, t.keys)
  {
    var items := Items(t);
    var sorted := SortDesc(items);
    var r := MostCommon(t, n);
    forall i, j | 0 <= i < j < |r| && r[i].1 == r[j].1
      ensures Precedes(r[i].0, r[j].0, t.keys)
    {
      assert r[i] == sorted[i] && r[j] == sorted[j];
      SortDescTies(items, i, j);
      var a, b :| 0 <= a < b < |items| && items[a] == r[i] && items[b] == r[j];
      assert t.keys[a] == r[i].0 && t.keys[b] == r[j].0;
    }
  }

  /** Any reordering of the items pairs keys of the dict with their counts. */
  lemma PermutedItems<T>(t: Tally<T>, sorted: seq<(T, nat)>)
    requires Valid(t)
    requires multiset(sorted) == multiset(Items(t))
    ensures forall i :: 0 <= i < |sorted| ==> sorted[i].0 in t.keys && sorted[i].1 == t.count[sorted[i].0]
  {
    var items := Items(t);
    forall i | 0 <= i < |sorted|
      ensures sorted[i].0 in t.keys && sorted[i].1 == t.count[sorted[i].0]
    {
      assert sorted[i] in multiset(items);
    }
  }

  /** Any reordering of the items lists each key once. */
  lemma PermutedKeysDistinct<T>(t: Tally<T>, sorted: seq<(T, nat)>)
    requires Valid(t)
    requires multiset(sorted) == multiset(Items(t))
    ensures forall i, j :: 0 <= i < j < |sorted| ==> sorted[i].0 != sorted[j].0
  {
    forall i, j | 0 <= i < j < |sorted|
      ensures sorted[i].0 != sorted[j].0
    {
      SortedKeysDistinct(t, sorted, i, j);
    }
  }

  /** Any reordering of the items lists every key. */
  lemma PermutedKeysPresent<T>(t: Tally<T>, sorted: seq<(T, nat)>)
    requires Valid(t)
    requires multiset(sorted) == multiset(Items(t))
    ensures forall k :: k in t.keys ==> exists j :: 0 <= j < |sorted| && sorted[j] == (k, t.count[k])
  {
    var items := Items(t);
    forall k | k in t.keys
      ensures exists j :: 0 <= j < |sorted| && sorted[j] == (k, t.count[k])
    {
      var i :| 0 <= i < |t.keys| && t.keys[i] == k;
      assert items[i] in multiset(sorted);
      var j :| 0 <= j < |sorted| && sorted[j] == items[i];
    }
  }

  /** The first `n` entries of a descending ranking of the items: distinct
      keys with their counts, and every key left out counts no more than the
      last key kept. */
  lemma PrefixOfRanking<T>(t: Tally<T>, sorted: seq<(T, nat)>, n: nat)
    requires Valid(t) && |sorted| == |t.keys| && SortedDesc(sorted)
    requires forall i :: 0 <= i < |sorted| ==> sorted[i].0 in t.keys && sorted[i].1 == t.count[sorted[i].0]
    requires forall i, j :: 0 <= i < j < |sorted| ==> sorted[i].0 != sorted[j].0
    requires forall k :: k in t.keys ==> exists j :: 0 <= j < |sorted| && sorted[j] == (k, t.count[k])
    ensures var r := Take(sorted, n);
      && SortedDesc(r)
      && (forall i :: 0 <= i < |r| ==> r[i].0 in t.keys && r[i].1 == t.count[r[i].0])
      && (forall i, j :: 0 <= i < j < |r| ==> r[i].0 != r[j].0)
      && (forall k :: k in t.keys && r != [] && (forall i :: 0 <= i < |r| ==> r[i].0 != k)
            ==> t.count[k] <= r[|r| - 1].1)
  {
    var r := Take(sorted, n);
    forall k | k in t.keys && r != [] && (forall i :: 0 <= i < |r| ==> r[i].0 != k)
      ensures t.count[k] <= r[|r| - 1].1
    {
      var j :| 0 <= j < |sorted| && sorted[j] == (k, t.count[k]);
      assert j >= |r|;
    }
  }

  /** Distinct keys stay distinct through the sort. */
  lemma SortedKeysDistinct<T>(t: Tally<T>, sorted: seq<(T, nat)>, i: int, j: int)
    requires Valid(t)
    requires multiset(sorted) == multiset(Items(t))
    requires 0 <= i < j < |sorted|
    ensures sorted[i].0 != sorted[j].0
  {
    var items := Items(t);
    assert sorted[i] in multiset(items) && sorted[j] in multiset(items);
    var a :| 0 <= a < |items| && items[a] == sorted[i];
    var b :| 0 <= b < |items| && items[b] == sorted[j];
    if a == b {
      // The same item at two positions of `sorted` would need two copies.
      TwoCopies(sorted, i, j);
      ItemsOnce(t, a);
    }
  }

  /** An element found at two positions occurs at least twice. */
  lemma TwoCopies<U>(s: seq<U>, i: int, j: int)
    requires 0 <= i < j < |s| && s[i] == s[j]
    ensures multiset(s)[s[i]] >= 2
  {
    assert s == s[..j] + [s[j]] + s[j + 1..];
    assert s[..j][i] == s[i];
    assert multiset(s[..j])[s[i]] >= 1;
  }

  /** Each item of a valid dict occurs once in its item list. */
  lemma ItemsOnce<T>(t: Tally<T>, a: int)
    requires Valid(t) && 0 <= a < |t.keys|
    ensures multiset(Items(t))[Items(t)[a]] == 1
  {
    var items := Items(t);
    assert items == items[..a] + [items[a]] + items[a + 1..];
    var rest := items[..a] + items[a + 1..];
    forall k | 0 <= k < |rest| ensures rest[k] != items[a] {
      if k < a {
        assert rest[k] == items[k];
      } else {
        assert rest[k] == items[k + 1];
      }
    }
    assert items[a] !in rest;
    assert items[a] !in multiset(rest);
  }
}
