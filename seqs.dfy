/** Sequence helpers: the Array.prototype.filter / reduce / flat shapes used throughout. */
module Seqs {
  import opened Wrappers

  /** `xs.filter(p)`: the elements satisfying p, in order. */
  function Filter<T>(xs: seq<T>, p: T -> bool): (r: seq<T>)
    ensures |r| <= |xs|
  {
    if xs == [] then []
    else (if p(xs[0]) then [xs[0]] else []) + Filter(xs[1..], p)
  }

  /** Filter keeps the selected elements in their order: its i-th element
      is xs[idx[i]] for strictly increasing positions idx, which are exactly
      the positions of the elements satisfying p. */
  lemma {:induction false} FilterIndices<T>(xs: seq<T>, p: T -> bool) returns (idx: seq<nat>)
    ensures |idx| == |Filter(xs, p)|
    ensures forall i :: 0 <= i < |idx| ==> idx[i] < |xs| && Filter(xs, p)[i] == xs[idx[i]]
    ensures forall i, j :: 0 <= i < j < |idx| ==> idx[i] < idx[j]
    ensures forall k :: 0 <= k < |xs| ==> (p(xs[k]) <==> k in idx)
  {
    if xs == [] {
      idx := [];
    } else {
      var tail := xs[1..];
      var rest := FilterIndices(tail, p);
      assert forall k :: 0 <= k < |tail| ==> tail[k] == xs[k + 1];
      var shifted := ShiftIndices(xs, p, Filter(tail, p), rest);
      idx := HeadIndex(xs, p, shifted);
    }
  }

  /** Adds the head's position when the head is kept. */
  lemma HeadIndex<T>(xs: seq<T>, p: T -> bool, shifted: seq<nat>) returns (idx: seq<nat>)
    requires xs != []
    requires |shifted| == |Filter(xs[1..], p)|
    requires forall i :: 0 <= i < |shifted| ==> 0 < shifted[i] < |xs| && Filter(xs[1..], p)[i] == xs[shifted[i]]
    requires forall i, j :: 0 <= i < j < |shifted| ==> shifted[i] < shifted[j]
    requires forall k :: 0 < k < |xs| ==> (p(xs[k]) <==> k in shifted)
    ensures |idx| == |Filter(xs, p)|
    ensures forall i :: 0 <= i < |idx| ==> idx[i] < |xs| && Filter(xs, p)[i] == xs[idx[i]]
    ensures forall i, j :: 0 <= i < j < |idx| ==> idx[i] < idx[j]
    ensures forall k :: 0 <= k < |xs| ==> (p(xs[k]) <==> k in idx)
  {
    var r := Filter(xs[1..], p);
    if p(xs[0]) {
      assert Filter(xs, p) == [xs[0]] + r;
      idx := ConsIndex(xs, p, r, shifted);
    } else {
      idx := shifted;
      assert Filter(xs, p) == r;
    }
  }

  lemma ConsIndex<T>(xs: seq<T>, p: T -> bool, r: seq<T>, shifted: seq<nat>) returns (idx: seq<nat>)
    requires xs != [] && p(xs[0])
    requires |shifted| == |r|
    requires forall i :: 0 <= i < |shifted| ==> 0 < shifted[i] < |xs| && r[i] == xs[shifted[i]]
    requires forall i, j :: 0 <= i < j < |shifted| ==> shifted[i] < shifted[j]
    requires forall k :: 0 < k < |xs| ==> (p(xs[k]) <==> k in shifted)
    ensures |idx| == |[xs[0]] + r|
    ensures forall i :: 0 <= i < |idx| ==> idx[i] < |xs| && ([xs[0]] + r)[i] == xs[idx[i]]
    ensures forall i, j :: 0 <= i < j < |idx| ==> idx[i] < idx[j]
    ensures forall k :: 0 <= k < |xs| ==> (p(xs[k]) <==> k in idx)
  {
    idx := [0] + shifted;
    forall i | 0 < i < |idx| ensures idx[i] == shifted[i - 1] && ([xs[0]] + r)[i] == r[i - 1] {
    }
  }

  /** The positions of a selection from the tail, as positions in xs. */
  lemma ShiftIndices<T>(xs: seq<T>, p: T -> bool, r: seq<T>, rest: seq<nat>) returns (shifted: seq<nat>)
    requires xs != []
    requires |rest| == |r|
    requires forall i :: 0 <= i < |rest| ==> rest[i] < |xs| - 1 && r[i] == xs[rest[i] + 1]
    requires forall i, j :: 0 <= i < j < |rest| ==> rest[i] < rest[j]
    requires forall k :: 0 < k < |xs| ==> (p(xs[k]) <==> k - 1 in rest)
    ensures |shifted| == |rest|
    ensures forall i :: 0 <= i < |shifted| ==> 0 < shifted[i] < |xs| && r[i] == xs[shifted[i]]
    ensures forall i, j :: 0 <= i < j < |shifted| ==> shifted[i] < shifted[j]
    ensures forall k :: 0 < k < |xs| ==> (p(xs[k]) <==> k in shifted)
  {
    shifted := seq(|rest|, i requires 0 <= i < |rest| => rest[i] + 1);
    assert forall i :: 0 <= i < |shifted| ==> shifted[i] == rest[i] + 1;
    forall i | 0 <= i < |shifted| ensures 0 < shifted[i] < |xs| && r[i] == xs[shifted[i]] {
      assert shifted[i] == rest[i] + 1;
    }
    forall i, j | 0 <= i < j < |shifted| ensures shifted[i] < shifted[j] {
      assert rest[i] < rest[j];
    }
    forall k | 0 < k < |xs| ensures k - 1 in rest <==> k in shifted {
      if k - 1 in rest {
        var i :| 0 <= i < |rest| && rest[i] == k - 1;
        assert shifted[i] == k;
      }
      if k in shifted {
        var i :| 0 <= i < |shifted| && shifted[i] == k;
        assert rest[i] == k - 1;
      }
    }
  }

  /** The position of the first occurrence of y. */
  function FirstIndexOf<T(==)>(xs: seq<T>, y: T): (k: nat)
    requires y in xs
    ensures k < |xs| && xs[k] == y && y !in xs[..k]
  {
    if xs[0] == y then 0
    else
      assert xs == [xs[0]] + xs[1..];
      var k := FirstIndexOf(xs[1..], y);
      assert xs[..k + 1] == [xs[0]] + xs[1..][..k];
      k + 1
  }

  /** A first occurrence is the only position with that property. */
  lemma FirstIndexOfUnique<T>(xs: seq<T>, y: T, k: nat)
    requires k < |xs| && xs[k] == y && y !in xs[..k]
    ensures FirstIndexOf(xs, y) == k
  {
  }

  /** The filter holds exactly the elements satisfying p. */
  lemma {:induction false} FilterMembers<T>(xs: seq<T>, p: T -> bool)
    ensures forall x :: x in Filter(xs, p) <==> x in xs && p(x)
  {
    if xs != [] {
      FilterMembers(xs[1..], p);
      assert xs == [xs[0]] + xs[1..];
    }
  }

  lemma {:induction false} FilterAppend<T>(xs: seq<T>, ys: seq<T>, p: T -> bool)
    ensures Filter(xs + ys, p) == Filter(xs, p) + Filter(ys, p)
  {
    if xs == [] {
      assert xs + ys == ys;
    } else {
      var h := if p(xs[0]) then [xs[0]] else [];
      calc {
        Filter(xs + ys, p);
        { assert (xs + ys)[0] == xs[0]; assert (xs + ys)[1..] == xs[1..] + ys; }
        h + Filter(xs[1..] + ys, p);
        { FilterAppend(xs[1..], ys, p); }
        h + (Filter(xs[1..], p) + Filter(ys, p));
      }
    }
  }

  lemma {:induction false} FilterAll<T>(xs: seq<T>, p: T -> bool)
    requires forall i :: 0 <= i < |xs| ==> p(xs[i])
    ensures Filter(xs, p) == xs
  {
    if xs != [] {
      FilterAll(xs[1..], p);
    }
  }

  lemma {:induction false} FilterNone<T>(xs: seq<T>, p: T -> bool)
    requires forall i :: 0 <= i < |xs| ==> !p(xs[i])
    ensures Filter(xs, p) == []
  {
    if xs != [] {
      FilterNone(xs[1..], p);
    }
  }

  /** Filtering by q after p is filtering by q, when q implies p. */
  lemma {:induction false} FilterFilter<T>(xs: seq<T>, p: T -> bool, q: T -> bool)
    requires forall x :: q(x) ==> p(x)
    ensures Filter(Filter(xs, p), q) == Filter(xs, q)
  {
    if xs != [] {
      FilterFilter(xs[1..], p, q);
      var h := if p(xs[0]) then [xs[0]] else [];
      FilterAppend(h, Filter(xs[1..], p), q);
      assert Filter(h, q) == (if q(xs[0]) then [xs[0]] else []) by {
        if p(xs[0]) { assert h[1..] == []; }
      }
    }
  }

  /** Two sequences that agree under a filter agree under any stricter one. */
  lemma FilterRefine<T>(xs: seq<T>, ys: seq<T>, p: T -> bool, q: T -> bool)
    requires forall x :: q(x) ==> p(x)
    requires Filter(xs, p) == Filter(ys, p)
    ensures Filter(xs, q) == Filter(ys, q)
  {
    FilterFilter(xs, p, q);
    FilterFilter(ys, p, q);
  }

  /** A prefix the predicate rejects throughout vanishes from the filter. */
  lemma FilterDropPrefix<T>(a: seq<T>, b: seq<T>, p: T -> bool)
    requires forall i :: 0 <= i < |a| ==> !p(a[i])
    ensures Filter(a + b, p) == Filter(b, p)
  {
    FilterAppend(a, b, p);
    FilterNone(a, p);
    assert [] + Filter(b, p) == Filter(b, p);
  }

  /** A prefix the predicate accepts throughout survives the filter whole. */
  lemma FilterKeepPrefix<T>(a: seq<T>, b: seq<T>, p: T -> bool)
    requires forall i :: 0 <= i < |a| ==> p(a[i])
    ensures Filter(a + b, p) == a + Filter(b, p)
  {
    FilterAppend(a, b, p);
    FilterAll(a, p);
  }

  /** Filtering `d + inner + d + rest`, where p rejects all of d and keeps all of inner. */
  lemma FilterDropEnds<T>(d: seq<T>, inner: seq<T>, rest: seq<T>, p: T -> bool)
    requires forall i :: 0 <= i < |d| ==> !p(d[i])
    requires forall i :: 0 <= i < |inner| ==> p(inner[i])
    ensures Filter(d + inner + d + rest, p) == inner + Filter(rest, p)
  {
    calc {
      Filter(d + inner + d + rest, p);
      { Assoc4(d, inner, d, rest); }
      Filter(d + (inner + d + rest), p);
      { FilterDropPrefix(d, inner + d + rest, p); }
      Filter(inner + d + rest, p);
      { AppendAssoc(inner, d, rest); }
      Filter(inner + (d + rest), p);
      { FilterKeepPrefix(inner, d + rest, p); }
      inner + Filter(d + rest, p);
      { FilterDropPrefix(d, rest, p); }
      inner + Filter(rest, p);
    }
  }

  /** Number of elements satisfying p: `xs.filter(p).length`. */
  function CountIf<T>(xs: seq<T>, p: T -> bool): (n: nat)
    ensures n <= |xs|
    ensures n == |Filter(xs, p)|
  {
    if xs == [] then 0 else (if p(xs[0]) then 1 else 0) + CountIf(xs[1..], p)
  }

  /** A count under a weaker predicate is never smaller. */
  lemma {:induction false} CountIfMono<T>(xs: seq<T>, p: T -> bool, q: T -> bool)
    requires forall x :: x in xs && p(x) ==> q(x)
    ensures CountIf(xs, p) <= CountIf(xs, q)
  {
    if xs != [] {
      CountIfMono(xs[1..], p, q);
    }
  }

  /** Counting over a filtered sequence never finds more than over the whole. */
  lemma {:induction false} CountIfOfFilter<T>(xs: seq<T>, p: T -> bool, q: T -> bool)
    ensures CountIf(Filter(xs, p), q) <= CountIf(xs, q)
  {
    if xs != [] {
      CountIfOfFilter(xs[1..], p, q);
      var h := if p(xs[0]) then [xs[0]] else [];
      CountIfAppend(h, Filter(xs[1..], p), q);
    }
  }

  lemma {:induction false} CountIfAppend<T>(xs: seq<T>, ys: seq<T>, p: T -> bool)
    ensures CountIf(xs + ys, p) == CountIf(xs, p) + CountIf(ys, p)
  {
    if xs == [] {
      assert xs + ys == ys;
    } else {
      assert (xs + ys)[1..] == xs[1..] + ys;
      CountIfAppend(xs[1..], ys, p);
    }
  }

  /** A prefix holds no more of any value than the whole. */
  lemma PrefixMultiset<T>(s: seq<T>, n: nat)
    requires n <= |s|
    ensures multiset(s[..n]) <= multiset(s)
  {
    assert s == s[..n] + s[n..];
    assert multiset(s) == multiset(s[..n]) + multiset(s[n..]);
  }

  lemma AppendAssoc<T>(a: seq<T>, b: seq<T>, c: seq<T>)
    ensures (a + b) + c == a + (b + c)
  {
  }

  lemma Assoc4<T>(a: seq<T>, b: seq<T>, c: seq<T>, d: seq<T>)
    ensures a + b + c + d == a + (b + c + d)
  {
  }

  lemma Assoc5<T>(a: seq<T>, b: seq<T>, c: seq<T>, d: seq<T>, e: seq<T>)
    ensures a + b + c + d + e == a + (b + c + d + e)
  {
  }

  /** Sum of integers. */
  function Sum(xs: seq<int>): int
  {
    if xs == [] then 0 else xs[0] + Sum(xs[1..])
  }

  lemma {:induction false} SumAppend(xs: seq<int>, ys: seq<int>)
    ensures Sum(xs + ys) == Sum(xs) + Sum(ys)
  {
    if xs == [] {
      assert xs + ys == ys;
    } else {
      assert (xs + ys)[1..] == xs[1..] + ys;
      SumAppend(xs[1..], ys);
    }
  }

  /** The sum of f over the elements. */
  function SumOf<T>(xs: seq<T>, f: T -> int): int
  {
    if xs == [] then 0 else f(xs[0]) + SumOf(xs[1..], f)
  }

  /** `xs.map(f)`, built by pushing f of each element in turn. */
  function Map<T, U>(xs: seq<T>, f: T -> U): (r: seq<U>)
    ensures |r| == |xs|
  {
    if xs == [] then [] else Map(xs[..|xs| - 1], f) + [f(xs[|xs| - 1])]
  }

  lemma {:induction false} MapAt<T, U>(xs: seq<T>, f: T -> U)
    ensures forall k :: 0 <= k < |xs| ==> Map(xs, f)[k] == f(xs[k])
  {
    if xs != [] {
      MapAt(xs[..|xs| - 1], f);
    }
  }

  /** Mapping a concatenation maps each part. */
  lemma {:induction false} MapAppend<T, U>(xs: seq<T>, ys: seq<T>, f: T -> U)
    ensures Map(xs + ys, f) == Map(xs, f) + Map(ys, f)
  {
    if ys != [] {
      var zs := xs + ys;
      assert zs[..|zs| - 1] == xs + ys[..|ys| - 1];
      MapAppend(xs, ys[..|ys| - 1], f);
    } else {
      assert xs + ys == xs;
    }
  }

  /** `xs.filter(p).map(f)`, built by pushing f of each element satisfying p. */
  function FilterMap<T(!new), U>(xs: seq<T>, p: T -> bool, f: T --> U): seq<U>
    requires forall x :: p(x) ==> f.requires(x)
  {
    if xs == [] then []
    else FilterMap(xs[..|xs| - 1], p, f) + (if p(xs[|xs| - 1]) then [f(xs[|xs| - 1])] else [])
  }

  /** The results are exactly f of the elements satisfying p. */
  lemma {:induction false} FilterMapMembers<T(!new), U>(xs: seq<T>, p: T -> bool, f: T --> U)
    requires forall x :: p(x) ==> f.requires(x)
    ensures forall y :: y in FilterMap(xs, p, f) <==> exists k :: 0 <= k < |xs| && p(xs[k]) && y == f(xs[k])
  {
    if xs != [] {
      var n := |xs| - 1;
      FilterMapMembers(xs[..n], p, f);
      forall y ensures y in FilterMap(xs, p, f) <==> exists k :: 0 <= k < |xs| && p(xs[k]) && y == f(xs[k]) {
        if y in FilterMap(xs[..n], p, f) {
          var k :| 0 <= k < n && p(xs[..n][k]) && y == f(xs[..n][k]);
          assert xs[k] == xs[..n][k];
        }
        if exists k :: 0 <= k < |xs| && p(xs[k]) && y == f(xs[k]) {
          var k :| 0 <= k < |xs| && p(xs[k]) && y == f(xs[k]);
          if k < n {
            assert xs[..n][k] == xs[k];
          }
        }
      }
    }
  }

  /** Concatenation of a sequence of sequences (`flat()`). */
  function Flatten<T>(xss: seq<seq<T>>): seq<T>
  {
    if xss == [] then [] else xss[0] + Flatten(xss[1..])
  }

  lemma {:induction false} FlattenAppend<T>(xss: seq<seq<T>>, yss: seq<seq<T>>)
    ensures Flatten(xss + yss) == Flatten(xss) + Flatten(yss)
  {
    if xss == [] {
      assert xss + yss == yss;
    } else {
      assert (xss + yss)[1..] == xss[1..] + yss;
      FlattenAppend(xss[1..], yss);
    }
  }

  /** Counting over a concatenation of sequences adds the per-sequence counts. */
  lemma {:induction false} CountIfFlatten<T>(xss: seq<seq<T>>, p: T -> bool)
    ensures CountIf(Flatten(xss), p) == SumOf(xss, xs => CountIf(xs, p))
  {
    if xss != [] {
      CountIfAppend(xss[0], Flatten(xss[1..]), p);
      CountIfFlatten(xss[1..], p);
    }
  }

  /** Flattening after one more sequence appends it. */
  lemma FlattenSnoc<T>(xss: seq<seq<T>>, ys: seq<T>)
    ensures Flatten(xss + [ys]) == Flatten(xss) + ys
  {
    FlattenAppend(xss, [ys]);
    assert Flatten([ys]) == ys + Flatten([ys][1..]);
  }

  /** Number of occurrences of x. */
  function Occurrences<T(==)>(xs: seq<T>, x: T): nat
  {
    if xs == [] then 0 else (if xs[0] == x then 1 else 0) + Occurrences(xs[1..], x)
  }

  lemma {:induction false} OccurrencesAppend<T>(xs: seq<T>, ys: seq<T>, x: T)
    ensures Occurrences(xs + ys, x) == Occurrences(xs, x) + Occurrences(ys, x)
  {
    if xs == [] {
      assert xs + ys == ys;
    } else {
      assert (xs + ys)[1..] == xs[1..] + ys;
      OccurrencesAppend(xs[1..], ys, x);
    }
  }

  /** The last n elements (`xs.slice(-n)` for n > 0). */
  function LastN<T>(xs: seq<T>, n: nat): (r: seq<T>)
    ensures |r| == if |xs| < n then |xs| else n
    ensures r == xs[|xs| - |r|..]
  {
    if |xs| <= n then xs else xs[|xs| - n..]
  }

  /** Reversal (`reverse()` on a copy). */
  function Reverse<T>(xs: seq<T>): (r: seq<T>)
    ensures |r| == |xs|
    ensures forall i :: 0 <= i < |xs| ==> r[i] == xs[|xs| - 1 - i]
  {
    if xs == [] then [] else Reverse(xs[1..]) + [xs[0]]
  }

  /** The first n elements (`xs.slice(0, n)`). */
  function FirstN<T>(xs: seq<T>, n: nat): (r: seq<T>)
    ensures |r| == if |xs| < n then |xs| else n
    ensures r == xs[..|r|]
  {
    if |xs| <= n then xs else xs[..n]
  }

  /** The present values, in order: `xs.forEach(x => { if (x) out.push(x) })`. */
  function Somes<T>(xs: seq<Option<T>>): (r: seq<T>)
    ensures |r| <= |xs|
  {
    if xs == [] then []
    else Somes(xs[..|xs| - 1]) + (if xs[|xs| - 1].Some? then [xs[|xs| - 1].value] else [])
  }

  /** The values kept are exactly those present. */
  lemma {:induction false} SomesMembers<T>(xs: seq<Option<T>>)
    ensures forall y :: y in Somes(xs) <==> Some(y) in xs
    ensures Somes(xs) == [] <==> forall k :: 0 <= k < |xs| ==> xs[k].None?
  {
    if xs != [] {
      var n := |xs| - 1;
      SomesMembers(xs[..n]);
      assert xs == xs[..n] + [xs[n]];
      assert forall y :: Some(y) in xs <==> Some(y) in xs[..n] || Some(y) == xs[n];
      assert forall k :: 0 <= k < n ==> xs[..n][k] == xs[k];
    }
  }

  /** The values kept after mapping are exactly the present results of the elements. */
  lemma SomesOfMap<T, U>(xs: seq<T>, f: T -> Option<U>)
    ensures forall y :: y in Somes(Map(xs, f)) <==> exists k :: 0 <= k < |xs| && f(xs[k]) == Some(y)
  {
    var ys := Map(xs, f);
    MapAt(xs, f);
    SomesMembers(ys);
    forall y ensures y in Somes(ys) <==> exists k :: 0 <= k < |xs| && f(xs[k]) == Some(y) {
      if Some(y) in ys {
        var k :| 0 <= k < |ys| && ys[k] == Some(y);
        assert f(xs[k]) == Some(y);
      }
      if exists k :: 0 <= k < |xs| && f(xs[k]) == Some(y) {
        var k :| 0 <= k < |xs| && f(xs[k]) == Some(y);
        assert ys[k] == Some(y);
      }
    }
  }

  /** Filtering while mapping is mapping the filtered elements. */
  lemma {:induction false} FilterMapIsMapOfFilter<T(!new), U>(xs: seq<T>, p: T -> bool, f: T -> U)
    ensures FilterMap(xs, p, f) == Map(Filter(xs, p), f)
  {
    if xs != [] {
      var n := |xs| - 1;
      FilterMapIsMapOfFilter(xs[..n], p, f);
      assert xs == xs[..n] + [xs[n]];
      FilterAppend(xs[..n], [xs[n]], p);
      MapAppend(Filter(xs[..n], p), Filter([xs[n]], p), f);
    }
  }
}
