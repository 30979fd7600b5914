/**
 * The stable comparison sort behind JavaScript's `Array.prototype.sort`
 * (stable since ES2019) and Python's `sorted`, modelled as insertion sort
 * over a strict weak order `lt` ("a sorts strictly before b").
 */
module Sorting {
  import opened Seqs
  import opened Strings

  /** lt is irreflexive, transitive, and its incomparability is transitive. */
  ghost predicate StrictWeakOrder<T(!new)>(lt: (T, T) -> bool)
  {
    (forall a :: !lt(a, a))
    && (forall a, b, c :: lt(a, b) && lt(b, c) ==> lt(a, c))
    && (forall a, b, c :: !lt(a, b) && !lt(b, c) ==> !lt(a, c))
  }

  /** Neither sorts before the other: a comparator returning 0. */
  predicate Equiv<T>(lt: (T, T) -> bool, a: T, b: T)
  {
    !lt(a, b) && !lt(b, a)
  }

  /** No element sorts strictly before an earlier one. */
  predicate Sorted<T>(s: seq<T>, lt: (T, T) -> bool)
  {
    forall i, j :: 0 <= i < j < |s| ==> !lt(s[j], s[i])
  }

  /** Inserts x before the first element that does not sort strictly before x. */
  function Insert<T>(x: T, s: seq<T>, lt: (T, T) -> bool): (r: seq<T>)
    ensures |r| == |s| + 1
    ensures multiset(r) == multiset(s) + multiset{x}
  {
    if s == [] then [x]
    else
      assert s == [s[0]] + s[1..];
      if lt(s[0], x) then [s[0]] + Insert(x, s[1..], lt) else [x] + s
  }

  /** The stable sort of s under lt. */
  function Sort<T>(s: seq<T>, lt: (T, T) -> bool): (r: seq<T>)
    ensures |r| == |s|
    ensures multiset(r) == multiset(s)
  {
    if s == [] then []
    else
      assert s == [s[0]] + s[1..];
      Insert(s[0], Sort(s[1..], lt), lt)
  }

  lemma {:induction false} InsertSorted<T(!new)>(x: T, s: seq<T>, lt: (T, T) -> bool)
    requires StrictWeakOrder(lt)
    requires Sorted(s, lt)
    ensures Sorted(Insert(x, s, lt), lt)
  {
    if s != [] {
      if lt(s[0], x) {
        InsertSorted(x, s[1..], lt);
        var t := Insert(x, s[1..], lt);
        forall y | y in t
          ensures !lt(y, s[0])
        {
          assert y in multiset(t);
          if y != x {
            var k :| 0 <= k < |s[1..]| && s[1..][k] == y;
            assert s[k + 1] == y;
          }
        }
        assert forall j :: 0 <= j < |t| ==> t[j] in t;
      } else {
        forall j | 0 < j < |s| ensures !lt(s[j], x) {
          assert !lt(s[j], s[0]);
        }
        assert forall j :: 0 < j <= |s| ==> ([x] + s)[j] == s[j - 1];
      }
    }
  }

  /** The sort is ordered. */
  lemma {:induction false} SortSorted<T(!new)>(s: seq<T>, lt: (T, T) -> bool)
    requires StrictWeakOrder(lt)
    ensures Sorted(Sort(s, lt), lt)
  {
    if s != [] {
      SortSorted(s[1..], lt);
      InsertSorted(s[0], Sort(s[1..], lt), lt);
    }
  }

  /** Something sorting strictly before a member of z's class is not in it. */
  lemma BeforeClassIsOutside<T(!new)>(y: T, x: T, z: T, lt: (T, T) -> bool)
    requires StrictWeakOrder(lt)
    requires lt(y, x) && Equiv(lt, x, z)
    ensures !Equiv(lt, y, z)
  {
    assert !lt(y, z) && !lt(z, x) ==> !lt(y, x);
  }

  /** Inserting x adds x to the equivalence class it belongs to, in front. */
  lemma {:induction false} FilterInsert<T(!new)>(x: T, t: seq<T>, z: T, lt: (T, T) -> bool)
    requires StrictWeakOrder(lt)
    ensures Filter(Insert(x, t, lt), y => Equiv(lt, y, z))
         == (if Equiv(lt, x, z) then [x] else []) + Filter(t, y => Equiv(lt, y, z))
  {
    var e := y => Equiv(lt, y, z);
    var head := if e(x) then [x] else [];
    if t == [] {
      assert Filter([x], e) == head + Filter([], e);
    } else if lt(t[0], x) {
      var rest := Insert(x, t[1..], lt);
      FilterInsert(x, t[1..], z, lt);
      if e(x) {
        BeforeClassIsOutside(t[0], x, z, lt);
      }
      assert ([t[0]] + rest)[1..] == rest;
      assert Filter([t[0]] + rest, e) == (if e(t[0]) then [t[0]] else []) + Filter(rest, e);
      assert Filter(t, e) == (if e(t[0]) then [t[0]] else []) + Filter(t[1..], e);
    } else {
      assert ([x] + t)[1..] == t;
      assert Filter([x] + t, e) == head + Filter(t, e);
    }
  }

  /** Stability: within every class of equivalent elements the sort keeps the
      input order (the class read off the output equals the one read off the input). */
  lemma {:induction false} SortStable<T(!new)>(s: seq<T>, z: T, lt: (T, T) -> bool)
    requires StrictWeakOrder(lt)
    ensures Filter(Sort(s, lt), y => Equiv(lt, y, z)) == Filter(s, y => Equiv(lt, y, z))
  {
    if s != [] {
      SortStable(s[1..], z, lt);
      FilterInsert(s[0], Sort(s[1..], lt), z, lt);
    }
  }

  lemma {:induction false} InsertSumOf<T>(x: T, t: seq<T>, lt: (T, T) -> bool, f: T -> int)
    ensures SumOf(Insert(x, t, lt), f) == f(x) + SumOf(t, f)
  {
    if t != [] && lt(t[0], x) {
      InsertSumOf(x, t[1..], lt, f);
      assert Insert(x, t, lt)[1..] == Insert(x, t[1..], lt);
    } else if t != [] {
      assert ([x] + t)[1..] == t;
    }
  }

  /** Sorting does not change a sum over the elements. */
  lemma {:induction false} SortSumOf<T>(s: seq<T>, lt: (T, T) -> bool, f: T -> int)
    ensures SumOf(Sort(s, lt), f) == SumOf(s, f)
  {
    if s != [] {
      SortSumOf(s[1..], lt, f);
      InsertSumOf(s[0], Sort(s[1..], lt), lt, f);
    }
  }

  /** No two positions of s carry the same key. */
  predicate DistinctBy<T, K(==)>(s: seq<T>, key: T -> K)
  {
    forall i, j :: 0 <= i < j < |s| ==> key(s[i]) != key(s[j])
  }

  lemma {:induction false} InsertKeepsDistinct<T, K>(x: T, t: seq<T>, lt: (T, T) -> bool, key: T -> K)
    requires DistinctBy(t, key)
    requires forall y :: y in t ==> key(y) != key(x)
    ensures DistinctBy(Insert(x, t, lt), key)
  {
    if t != [] && lt(t[0], x) {
      var rest := Insert(x, t[1..], lt);
      InsertKeepsDistinct(x, t[1..], lt, key);
      forall y | y in rest ensures key(y) != key(t[0]) {
        assert y in multiset(rest);
        if y != x {
          var k :| 0 <= k < |t[1..]| && t[1..][k] == y;
          assert t[k + 1] == y;
        }
      }
      assert forall j :: 0 < j < |rest| + 1 ==> ([t[0]] + rest)[j] == rest[j - 1];
    } else if t != [] {
      assert forall j :: 0 < j < |t| + 1 ==> ([x] + t)[j] == t[j - 1];
    }
  }

  /** Sorting never makes two keys equal that were distinct. */
  lemma {:induction false} SortKeepsDistinct<T, K>(s: seq<T>, lt: (T, T) -> bool, key: T -> K)
    requires DistinctBy(s, key)
    ensures DistinctBy(Sort(s, lt), key)
  {
    if s != [] {
      var t := Sort(s[1..], lt);
      SortKeepsDistinct(s[1..], lt, key);
      forall y | y in t ensures key(y) != key(s[0]) {
        assert y in multiset(t);
        var k :| 0 <= k < |s[1..]| && s[1..][k] == y;
        assert s[k + 1] == y;
      }
      InsertKeepsDistinct(s[0], t, lt, key);
    }
  }

  /** Ordering by an integer key, largest first (`(a, b) => key(b) - key(a)`),
      is a strict weak order. */
  lemma KeyDescIsStrictWeak<T(!new)>(lt: (T, T) -> bool, key: T -> int)
    requires forall a, b :: lt(a, b) == (key(a) > key(b))
    ensures StrictWeakOrder(lt)
  {
  }

  /** Ordering by an integer key, smallest first (`(a, b) => key(a) - key(b)`),
      is a strict weak order. */
  lemma KeyAscIsStrictWeak<T(!new)>(lt: (T, T) -> bool, key: T -> int)
    requires forall a, b :: lt(a, b) == (key(a) < key(b))
    ensures StrictWeakOrder(lt)
  {
  }

  /** Character-code order on strings (the default `sort()`) is a strict weak order. */
  lemma StrLtIsStrictWeak()
    ensures StrictWeakOrder(StrLt)
  {
    forall a ensures !StrLt(a, a) {
      StrLtIrreflexive(a);
    }
    forall a, b, c | StrLt(a, b) && StrLt(b, c) ensures StrLt(a, c) {
      StrLtTransitive(a, b, c);
    }
    forall a, b, c | !StrLt(a, b) && !StrLt(b, c) ensures !StrLt(a, c) {
      StrLtTotal(a, b);
      StrLtTotal(b, c);
      if StrLt(a, c) {
        StrLtTotal(a, c);
        if a == b {
        } else {
          StrLtTransitive(b, a, c);
        }
      }
    }
  }

  /** Ordering by a string key, greatest first (`(a, b) => key(b).localeCompare(key(a))`
      on ASCII keys), is a strict weak order. */
  lemma StrKeyDescIsStrictWeak<T(!new)>(lt: (T, T) -> bool, key: T -> string)
    requires forall a, b :: lt(a, b) == StrLt(key(b), key(a))
    ensures StrictWeakOrder(lt)
  {
    StrLtIsStrictWeak();
    forall a: T, b: T, c: T | !lt(a, b) && !lt(b, c)
      ensures !lt(a, c)
    {
      assert !StrLt(key(c), key(b)) && !StrLt(key(b), key(a));
    }
  }
}
