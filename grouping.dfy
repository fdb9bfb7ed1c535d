// Python's insertion-ordered dictionaries as association lists, the
// `defaultdict(list)` grouping loop built on them, and sums over groups.
// Proved here: grouping puts every element in exactly one group, keeps
// each group in input order, and the group sums add up to the sum of all
// elements, in any order of the groups.
module Grouping {
  import Sorting

  /** The position of the first entry with key `k`, or `|t|` if none. */
  function Find<K(==), V>(t: seq<(K, V)>, k: K): (i: nat)
    ensures i <= |t|
    ensures i < |t| ==> t[i].0 == k
    ensures forall j :: 0 <= j < i ==> t[j].0 != k
  {
    if t == [] then 0
    else if t[0].0 == k then 0
    else 1 + Find(t[1..], k)
  }

  /** `d.get(k, default)`. */
  function Get<K(==), V>(t: seq<(K, V)>, k: K, default: V): V
  {
    var i := Find(t, k);
    if i < |t| then t[i].1 else default
  }

  /** `d[k] = v`: an existing key keeps its place, a new key goes last. */
  function Put<K(==), V>(t: seq<(K, V)>, k: K, v: V): (r: seq<(K, V)>)
    ensures |r| == |t| || |r| == |t| + 1
  {
    var i := Find(t, k);
    if i < |t| then t[i := (k, v)] else t + [(k, v)]
  }

  /** `d[k].append(x)` on a `defaultdict(list)`. */
  function Append<K(==), T>(t: seq<(K, seq<T>)>, k: K, x: T): seq<(K, seq<T>)>
  {
    Put(t, k, Get(t, k, []) + [x])
  }

  /** `for x in xs: d[key(x)].append(x)`, starting from an empty dictionary. */
  function GroupBy<T, K(==)>(xs: seq<T>, key: T -> K): seq<(K, seq<T>)>
  {
    if xs == [] then []
    else Append(GroupBy(xs[..|xs| - 1], key), key(xs[|xs| - 1]), xs[|xs| - 1])
  }

  /** The elements whose key is `k`, in input order. */
  function Select<T, K(==)>(xs: seq<T>, key: T -> K, k: K): seq<T>
  {
    if xs == [] then []
    else Select(xs[..|xs| - 1], key, k) + (if key(xs[|xs| - 1]) == k then [xs[|xs| - 1]] else [])
  }

  predicate DistinctKeys<K(==), V>(t: seq<(K, V)>)
  {
    forall i, j :: 0 <= i < j < |t| ==> t[i].0 != t[j].0
  }

  /** Every group holds exactly the elements with its key, and none is empty. */
  predicate GroupsHold<T(==), K(==)>(t: seq<(K, seq<T>)>, xs: seq<T>, key: T -> K)
  {
    forall j :: 0 <= j < |t| ==> t[j].1 == Select(xs, key, t[j].0) && t[j].1 != []
  }

  /** Every element's key has a group. */
  predicate Covers<T, K(==)>(t: seq<(K, seq<T>)>, xs: seq<T>, key: T -> K)
  {
    forall i :: 0 <= i < |xs| ==> Find(t, key(xs[i])) < |t|
  }

  /** The grouping of `xs` by `key`: distinct keys, each holding exactly its elements. */
  predicate GroupsOf<T(==), K(==)>(t: seq<(K, seq<T>)>, xs: seq<T>, key: T -> K)
  {
    DistinctKeys(t) && GroupsHold(t, xs, key) && Covers(t, xs, key)
  }

  lemma SelectSnoc<T, K>(xs: seq<T>, x: T, key: T -> K, k: K)
    ensures Select(xs + [x], key, k) == Select(xs, key, k) + (if key(x) == k then [x] else [])
  {
    assert (xs + [x])[..|xs|] == xs;
  }

  /** Tables with the same keys in the same places find every key at the same place. */
  lemma {:induction false} FindSameKeys<K, V, W>(t: seq<(K, V)>, r: seq<(K, W)>, k: K)
    requires |t| == |r| && forall j :: 0 <= j < |t| ==> t[j].0 == r[j].0
    ensures Find(t, k) == Find(r, k)
    decreases |t|
  {
    if t != [] && t[0].0 != k {
      FindSameKeys(t[1..], r[1..], k);
    }
  }

  lemma CoversSnoc<T, K>(t: seq<(K, seq<T>)>, r: seq<(K, seq<T>)>, xs: seq<T>, key: T -> K, x: T)
    requires Covers(t, xs, key)
    requires |t| <= |r| && forall j :: 0 <= j < |t| ==> t[j].0 == r[j].0
    requires Find(r, key(x)) < |r|
    ensures Covers(r, xs + [x], key)
  {
    var ys := xs + [x];
    forall m | 0 <= m < |ys|
      ensures Find(r, key(ys[m])) < |r|
    {
      if m < |xs| {
        assert ys[m] == xs[m];
        var f := Find(t, key(xs[m]));
        assert r[f].0 == key(xs[m]);
      }
    }
  }

  lemma AppendExisting<K, T>(t: seq<(K, seq<T>)>, xs: seq<T>, key: T -> K, x: T)
    requires GroupsOf(t, xs, key) && Find(t, key(x)) < |t|
    ensures GroupsOf(Append(t, key(x), x), xs + [x], key)
  {
    var i := Find(t, key(x));
    var r := Append(t, key(x), x);
    assert r == t[i := (key(x), t[i].1 + [x])];
    assert forall j :: 0 <= j < |t| ==> t[j].0 == r[j].0;
    forall j | 0 <= j < |r|
      ensures r[j].1 == Select(xs + [x], key, r[j].0) && r[j].1 != []
    {
      SelectSnoc(xs, x, key, r[j].0);
      if j != i {
        assert t[j].0 != t[i].0;
      }
    }
    FindSameKeys(t, r, key(x));
    CoversSnoc(t, r, xs, key, x);
  }

  lemma AppendNew<K, T>(t: seq<(K, seq<T>)>, xs: seq<T>, key: T -> K, x: T)
    requires GroupsOf(t, xs, key) && Find(t, key(x)) == |t|
    ensures GroupsOf(Append(t, key(x), x), xs + [x], key)
  {
    var r := t + [(key(x), [x])];
    assert Get(t, key(x), []) == [];
    assert [] + [x] == [x];
    assert Put(t, key(x), [x]) == r;
    AppendNewDistinct(t, key(x), [x]);
    AppendNewHolds(t, xs, key, x);
    FindSnocNew(t, key(x), [x]);
    CoversSnoc(t, r, xs, key, x);
  }

  lemma AppendNewDistinct<K, V>(t: seq<(K, V)>, k: K, v: V)
    requires DistinctKeys(t) && Find(t, k) == |t|
    ensures DistinctKeys(t + [(k, v)])
  {
  }

  lemma {:induction false} FindSnocNew<K, V>(t: seq<(K, V)>, k: K, v: V)
    requires Find(t, k) == |t|
    ensures Find(t + [(k, v)], k) == |t|
  {
    var r := t + [(k, v)];
    assert r[|t|].0 == k;
  }

  lemma AppendNewHolds<K, T>(t: seq<(K, seq<T>)>, xs: seq<T>, key: T -> K, x: T)
    requires GroupsOf(t, xs, key) && Find(t, key(x)) == |t|
    ensures GroupsHold(t + [(key(x), [x])], xs + [x], key)
  {
    var r := t + [(key(x), [x])];
    SelectNone(xs, key, key(x), t);
    forall j | 0 <= j < |r|
      ensures r[j].1 == Select(xs + [x], key, r[j].0) && r[j].1 != []
    {
      SelectSnoc(xs, x, key, r[j].0);
      if j < |t| {
        assert r[j] == t[j];
        assert t[j].0 != key(x);
      }
    }
  }

  /** A key that no group has is the key of no element. */
  lemma {:induction false} SelectNone<K, T>(xs: seq<T>, key: T -> K, k: K, t: seq<(K, seq<T>)>)
    requires forall i :: 0 <= i < |xs| ==> Find(t, key(xs[i])) < |t|
    requires Find(t, k) == |t|
    ensures Select(xs, key, k) == []
    decreases |xs|
  {
    if xs != [] {
      SelectNone(xs[..|xs| - 1], key, k, t);
      var f := Find(t, key(xs[|xs| - 1]));
      assert t[f].0 == key(xs[|xs| - 1]);
    }
  }

  /**
   * The grouping loop puts every element in the one group of its key: the
   * keys are distinct and every group holds exactly the elements with its
   * key, in input order.
   */
  lemma {:induction false} GroupBySpec<T, K>(xs: seq<T>, key: T -> K)
    ensures GroupsOf(GroupBy(xs, key), xs, key)
    decreases |xs|
  {
    if xs != [] {
      var front, x := xs[..|xs| - 1], xs[|xs| - 1];
      GroupBySpec(front, key);
      assert xs == front + [x];
      if Find(GroupBy(front, key), key(x)) < |GroupBy(front, key)| {
        AppendExisting(GroupBy(front, key), front, key, x);
      } else {
        AppendNew(GroupBy(front, key), front, key, x);
      }
    }
  }

  // ---------------------------------------------------------------------
  // Sums
  // ---------------------------------------------------------------------

  /** `sum(f(x) for x in xs)`. */
  function Sum<T>(xs: seq<T>, f: T -> real): real
  {
    if xs == [] then 0.0 else Sum(xs[..|xs| - 1], f) + f(xs[|xs| - 1])
  }

  lemma SumSnoc<T>(xs: seq<T>, x: T, f: T -> real)
    ensures Sum(xs + [x], f) == Sum(xs, f) + f(x)
  {
    assert (xs + [x])[..|xs|] == xs;
  }

  /** The sum of the group sums. */
  function Total<K, T>(t: seq<(K, seq<T>)>, f: T -> real): real
  {
    if t == [] then 0.0 else Total(t[..|t| - 1], f) + Sum(t[|t| - 1].1, f)
  }

  /** The number of elements over all groups. */
  function Size<K, T>(t: seq<(K, seq<T>)>): nat
  {
    if t == [] then 0 else Size(t[..|t| - 1]) + |t[|t| - 1].1|
  }

  lemma {:induction false} TotalUpdate<K, T>(t: seq<(K, seq<T>)>, i: nat, k: K, v: seq<T>, f: T -> real)
    requires i < |t|
    ensures Total(t[i := (k, v)], f) == Total(t, f) - Sum(t[i].1, f) + Sum(v, f)
    ensures Size(t[i := (k, v)]) == Size(t) - |t[i].1| + |v|
    decreases |t|
  {
    var r := t[i := (k, v)];
    assert r[..|t| - 1] == if i < |t| - 1 then t[..|t| - 1][i := (k, v)] else t[..|t| - 1];
    if i < |t| - 1 {
      TotalUpdate(t[..|t| - 1], i, k, v, f);
    }
  }

  lemma TotalSnoc<K, T>(t: seq<(K, seq<T>)>, p: (K, seq<T>), f: T -> real)
    ensures Total(t + [p], f) == Total(t, f) + Sum(p.1, f)
    ensures Size(t + [p]) == Size(t) + |p.1|
  {
    assert (t + [p])[..|t|] == t;
  }

  /** Appending an element to a group adds its value to the total. */
  lemma AppendTotal<K, T>(t: seq<(K, seq<T>)>, k: K, x: T, f: T -> real)
    ensures Total(Append(t, k, x), f) == Total(t, f) + f(x)
    ensures Size(Append(t, k, x)) == Size(t) + 1
  {
    var i := Find(t, k);
    var items := Get(t, k, []);
    SumSnoc(items, x, f);
    if i < |t| {
      TotalUpdate(t, i, k, items + [x], f);
    } else {
      TotalSnoc(t, (k, items + [x]), f);
      assert Sum([x], f) == Sum([], f) + f(x) by {
        SumSnoc([], x, f);
      }
    }
  }

  /** The group sums add up to the sum over all elements, and the group sizes to their number. */
  lemma {:induction false} GroupByTotal<T, K>(xs: seq<T>, key: T -> K, f: T -> real)
    ensures Total(GroupBy(xs, key), f) == Sum(xs, f)
    ensures Size(GroupBy(xs, key)) == |xs|
    decreases |xs|
  {
    if xs != [] {
      GroupByTotal(xs[..|xs| - 1], key, f);
      AppendTotal(GroupBy(xs[..|xs| - 1], key), key(xs[|xs| - 1]), xs[|xs| - 1], f);
    }
  }

  /** Inserting a group in a list of groups adds its sum to the total. */
  lemma {:induction false} InsertTotal<K, T>(p: (K, seq<T>), t: seq<(K, seq<T>)>,
                                             le: ((K, seq<T>), (K, seq<T>)) -> bool, f: T -> real)
    ensures Total(Sorting.Insert(p, t, le), f) == Total(t, f) + Sum(p.1, f)
    ensures Size(Sorting.Insert(p, t, le)) == Size(t) + |p.1|
    decreases |t|
  {
    if t == [] {
      assert Sorting.Insert(p, t, le) == [p];
      TotalSnoc([], p, f);
    } else if le(t[|t| - 1], p) {
      assert Sorting.Insert(p, t, le) == t + [p];
      TotalSnoc(t, p, f);
    } else {
      var front, last := t[..|t| - 1], t[|t| - 1];
      InsertUnfold(p, t, le);
      InsertTotal(p, front, le, f);
      TotalSnoc(Sorting.Insert(p, front, le), last, f);
      TotalSnoc(front, last, f);
      assert front + [last] == t;
    }
  }

  lemma InsertUnfold<T>(x: T, t: seq<T>, le: (T, T) -> bool)
    requires t != [] && !le(t[|t| - 1], x)
    ensures Sorting.Insert(x, t, le) == Sorting.Insert(x, t[..|t| - 1], le) + [t[|t| - 1]]
  {
  }

  /** Listing the groups in sorted order changes neither the total nor the size. */
  lemma {:induction false} SortedTotal<K, T>(t: seq<(K, seq<T>)>, le: ((K, seq<T>), (K, seq<T>)) -> bool, f: T -> real)
    ensures Total(Sorting.SortBy(t, le), f) == Total(t, f)
    ensures Size(Sorting.SortBy(t, le)) == Size(t)
    decreases |t|
  {
    if t != [] {
      var front := t[..|t| - 1];
      SortedTotal(front, le, f);
      InsertTotal(t[|t| - 1], Sorting.SortBy(front, le), le, f);
    }
  }

  // ---------------------------------------------------------------------
  // Keys under sorting
  // ---------------------------------------------------------------------

  /** The keys of a list of pairs. */
  ghost function KeySet<K, V>(t: seq<(K, V)>): set<K>
  {
    set i | 0 <= i < |t| :: t[i].0
  }

  lemma {:induction false} InsertKeys<K, V>(p: (K, V), t: seq<(K, V)>, le: ((K, V), (K, V)) -> bool)
    requires DistinctKeys(t) && p.0 !in KeySet(t)
    ensures KeySet(Sorting.Insert(p, t, le)) == KeySet(t) + {p.0}
    ensures DistinctKeys(Sorting.Insert(p, t, le))
    decreases |t|
  {
    if t == [] {
      assert Sorting.Insert(p, t, le) == t + [p];
      SnocDistinct(t, p);
    } else if le(t[|t| - 1], p) {
      SnocDistinct(t, p);
    } else {
      var front, last := t[..|t| - 1], t[|t| - 1];
      assert t == front + [last];
      FrontDistinct(front, last);
      InsertKeys(p, front, le);
      assert last.0 in KeySet(t);
      SnocDistinct(Sorting.Insert(p, front, le), last);
    }
  }

  /** Appending an entry with a new key keeps the keys distinct and adds that key. */
  lemma SnocDistinct<K, V>(t: seq<(K, V)>, x: (K, V))
    requires DistinctKeys(t) && x.0 !in KeySet(t)
    ensures DistinctKeys(t + [x])
    ensures KeySet(t + [x]) == KeySet(t) + {x.0}
  {
    var r := t + [x];
    assert r[|t|].0 in KeySet(r);
    forall k | k in KeySet(t) ensures k in KeySet(r) {
      var i :| 0 <= i < |t| && t[i].0 == k;
      assert r[i].0 == k;
    }
    forall i | 0 <= i < |t| ensures t[i].0 != x.0 {
      assert t[i].0 in KeySet(t);
    }
  }

  /** Dropping the last entry of a table with distinct keys drops exactly its key. */
  lemma FrontDistinct<K, V>(front: seq<(K, V)>, last: (K, V))
    requires DistinctKeys(front + [last])
    ensures DistinctKeys(front) && last.0 !in KeySet(front)
    ensures KeySet(front + [last]) == KeySet(front) + {last.0}
  {
    var t := front + [last];
    forall i | 0 <= i < |front| ensures front[i].0 != last.0 {
      assert t[i] == front[i] && t[|front|] == last;
    }
    assert DistinctKeys(front) by {
      forall i, j | 0 <= i < j < |front| ensures front[i].0 != front[j].0 {
        assert t[i] == front[i] && t[j] == front[j];
      }
    }
    SnocDistinct(front, last);
  }


  /**
   * Sorting a list of pairs with distinct keys keeps the keys, and keeps
   * them distinct: one entry per key, before and after.
   */
  lemma {:induction false} SortByKeys<K, V>(t: seq<(K, V)>, le: ((K, V), (K, V)) -> bool)
    requires DistinctKeys(t)
    ensures KeySet(Sorting.SortBy(t, le)) == KeySet(t)
    ensures DistinctKeys(Sorting.SortBy(t, le))
    decreases |t|
  {
    if t != [] {
      var front, last := t[..|t| - 1], t[|t| - 1];
      assert t == front + [last];
      FrontDistinct(front, last);
      SortByKeys(front, le);
      InsertKeys(last, Sorting.SortBy(front, le), le);
    }
  }
}
