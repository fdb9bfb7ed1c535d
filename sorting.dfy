// Python's built-in `sorted(xs, key=...)`: a stable sort. It is modelled as
// an insertion sort parameterised by a "less than or equal" relation on the
// elements (the relation compares the keys). Proved here: the result is a
// permutation of the input, it is ordered when the relation is a total
// preorder, and elements whose keys tie keep their input order.
module Sorting {

  /** `le` is total and transitive, as a comparison of sort keys is. */
  ghost predicate TotalPreorder<T(!new)>(le: (T, T) -> bool)
  {
    (forall a, b :: le(a, b) || le(b, a)) &&
    (forall a, b, c :: le(a, b) && le(b, c) ==> le(a, c))
  }

  predicate SortedBy<T>(s: seq<T>, le: (T, T) -> bool)
  {
    forall i, j :: 0 <= i < j < |s| ==> le(s[i], s[j])
  }

  /** Inserts `x` after the last element of `t` that is at most `x`. */
  function Insert<T>(x: T, t: seq<T>, le: (T, T) -> bool): (r: seq<T>)
    ensures multiset(r) == multiset(t) + multiset{x}
    decreases |t|
  {
    if t == [] then [x]
    else if le(t[|t| - 1], x) then t + [x]
    else
      var front := t[..|t| - 1];
      assert t == front + [t[|t| - 1]];
      Insert(x, front, le) + [t[|t| - 1]]
  }

  /** `sorted(s, key=...)`, with `le` comparing the keys. */
  function SortBy<T>(s: seq<T>, le: (T, T) -> bool): (r: seq<T>)
    ensures multiset(r) == multiset(s)
    decreases |s|
  {
    if s == [] then []
    else
      var front := s[..|s| - 1];
      assert s == front + [s[|s| - 1]];
      Insert(s[|s| - 1], SortBy(front, le), le)
  }

  lemma {:induction false} InsertSorted<T(!new)>(x: T, t: seq<T>, le: (T, T) -> bool)
    requires TotalPreorder(le) && SortedBy(t, le)
    ensures SortedBy(Insert(x, t, le), le)
    decreases |t|
  {
    if t == [] {
    } else if le(t[|t| - 1], x) {
      var r := t + [x];
      forall i, j | 0 <= i < j < |r|
        ensures le(r[i], r[j])
      {
        if j == |t| && i < |t| - 1 {
          assert le(t[i], t[|t| - 1]);
        }
      }
    } else {
      var front, last := t[..|t| - 1], t[|t| - 1];
      InsertSorted(x, front, le);
      var ins := Insert(x, front, le);
      assert le(x, last);
      forall k | 0 <= k < |ins|
        ensures le(ins[k], last)
      {
        assert ins[k] in multiset(ins);
        if ins[k] != x {
          assert ins[k] in multiset(front);
          var m :| 0 <= m < |front| && front[m] == ins[k];
          assert t[m] == front[m];
        }
      }
    }
  }

  /** The result of `SortBy` is ordered. */
  lemma {:induction false} SortBySorted<T(!new)>(s: seq<T>, le: (T, T) -> bool)
    requires TotalPreorder(le)
    ensures SortedBy(SortBy(s, le), le)
    decreases |s|
  {
    if s != [] {
      SortBySorted(s[..|s| - 1], le);
      InsertSorted(s[|s| - 1], SortBy(s[..|s| - 1], le), le);
    }
  }

  /** An input that is already ordered comes back unchanged. */
  lemma {:induction false} SortByOfSorted<T>(s: seq<T>, le: (T, T) -> bool)
    requires SortedBy(s, le)
    ensures SortBy(s, le) == s
    decreases |s|
  {
    if s != [] {
      var front := s[..|s| - 1];
      assert SortedBy(front, le);
      SortByOfSorted(front, le);
      assert s == front + [s[|s| - 1]];
      if front != [] {
        assert le(front[|front| - 1], s[|s| - 1]);
      }
    }
  }

  /** `a` and `b` have equal sort keys. */
  predicate Tied<T>(le: (T, T) -> bool, a: T, b: T)
  {
    le(a, b) && le(b, a)
  }

  /** The elements of `s` whose key ties with `x`, in the order of `s`. */
  function Ties<T>(s: seq<T>, le: (T, T) -> bool, x: T): seq<T>
    decreases |s|
  {
    if s == [] then []
    else Ties(s[..|s| - 1], le, x) + (if Tied(le, s[|s| - 1], x) then [s[|s| - 1]] else [])
  }

  lemma {:induction false} InsertTies<T(!new)>(y: T, t: seq<T>, le: (T, T) -> bool, x: T)
    requires TotalPreorder(le) && SortedBy(t, le)
    ensures Ties(Insert(y, t, le), le, x)
         == Ties(t, le, x) + (if Tied(le, y, x) then [y] else [])
    decreases |t|
  {
    if t == [] {
    } else if le(t[|t| - 1], y) {
      assert (t + [y])[..|t|] == t;
    } else {
      var front, last := t[..|t| - 1], t[|t| - 1];
      assert SortedBy(front, le);
      InsertTies(y, front, le, x);
      var ins := Insert(y, front, le);
      assert (ins + [last])[..|ins|] == ins;
      // Two elements tied with `x` are tied with each other, and `last`
      // is strictly above `y`, so at most one of them is tied with `x`.
      assert Tied(le, y, x) && Tied(le, last, x) ==> le(last, y);
    }
  }

  /** Stability: elements with tied keys keep their input order. */
  lemma {:induction false} SortByStable<T(!new)>(s: seq<T>, le: (T, T) -> bool, x: T)
    requires TotalPreorder(le)
    ensures Ties(SortBy(s, le), le, x) == Ties(s, le, x)
    decreases |s|
  {
    if s != [] {
      var front := s[..|s| - 1];
      SortByStable(front, le, x);
      SortBySorted(front, le);
      InsertTies(s[|s| - 1], SortBy(front, le), le, x);
    }
  }

  /** Python's `str` ordering: lexicographic by code point. */
  predicate LexLe(a: string, b: string)
    decreases |a|
  {
    a == [] || (b != [] && (a[0] < b[0] || (a[0] == b[0] && LexLe(a[1..], b[1..]))))
  }

  lemma {:induction false} LexLeTotal(a: string, b: string)
    ensures LexLe(a, b) || LexLe(b, a)
    decreases |a|
  {
    if a != [] && b != [] && a[0] == b[0] {
      LexLeTotal(a[1..], b[1..]);
    }
  }

  lemma {:induction false} LexLeTrans(a: string, b: string, c: string)
    requires LexLe(a, b) && LexLe(b, c)
    ensures LexLe(a, c)
    decreases |a|
  {
    if a != [] && a[0] == b[0] && b[0] == c[0] {
      LexLeTrans(a[1..], b[1..], c[1..]);
    }
  }

  lemma {:induction false} LexLeAntisymmetric(a: string, b: string)
    requires LexLe(a, b) && LexLe(b, a)
    ensures a == b
    decreases |a|
  {
    if a != [] {
      LexLeAntisymmetric(a[1..], b[1..]);
      assert a == [a[0]] + a[1..] && b == [b[0]] + b[1..];
    }
  }

  /** Comparing elements by a string key is a total preorder. */
  lemma StringKeyPreorder<T(!new)>(key: T -> string)
    ensures TotalPreorder((p: T, q: T) => LexLe(key(p), key(q)))
  {
    forall p: T, q: T {
      LexLeTotal(key(p), key(q));
    }
    forall p: T, q: T, o: T | LexLe(key(p), key(q)) && LexLe(key(q), key(o)) {
      LexLeTrans(key(p), key(q), key(o));
    }
  }

  /** Comparing elements by an integer key is a total preorder. */
  lemma IntKeyPreorder<T(!new)>(key: T -> int)
    ensures TotalPreorder((p: T, q: T) => key(p) <= key(q))
  {
  }

  /** Comparing elements by a real key is a total preorder. */
  lemma RealKeyPreorder<T(!new)>(key: T -> real)
    ensures TotalPreorder((p: T, q: T) => key(p) <= key(q))
  {
  }
}
