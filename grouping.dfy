/**
 * Grouping by key into a JavaScript object used as a dictionary
 * (`if (!m[k]) m[k] = …; m[k].push(x)`), with the groups read back in
 * first-appearance order, the order `Object.values` gives for keys that are
 * not array indices.
 */
module Grouping {
  import opened Wrappers
  import opened Seqs

  /** One dictionary entry: the key and the elements filed under it, in order. */
  datatype Group<K, T> = Group(key: K, members: seq<T>)

  /** The position of the first entry whose key (read by keyOf) is k. */
  function Find<G, K(==)>(gs: seq<G>, k: K, keyOf: G -> K): (r: Option<nat>)
    ensures r.Some? ==> r.value < |gs| && keyOf(gs[r.value]) == k
    ensures r.Some? ==> forall j :: 0 <= j < r.value ==> keyOf(gs[j]) != k
    ensures r.None? ==> forall j :: 0 <= j < |gs| ==> keyOf(gs[j]) != k
  {
    if gs == [] then None
    else if keyOf(gs[0]) == k then Some(0)
    else match Find(gs[1..], k, keyOf)
      case None => None
      case Some(j) => Some(j + 1)
  }

  /** Two entry lists with the same keys position by position find k at the same place. */
  lemma {:induction false} FindSameKeys<G, H, K>(a: seq<G>, b: seq<H>, k: K, ka: G -> K, kb: H -> K)
    requires |a| == |b|
    requires forall j :: 0 <= j < |a| ==> ka(a[j]) == kb(b[j])
    ensures Find(a, k, ka) == Find(b, k, kb)
  {
    if a != [] {
      FindSameKeys(a[1..], b[1..], k, ka, kb);
    }
  }

  /** The key of an entry. */
  function KeyOf<K, T>(): Group<K, T> -> K
  {
    (g: Group<K, T>) => g.key
  }

  /** Files x under its key: appended to an existing entry, or a new entry at the end. */
  function AddTo<K(==), T>(gs: seq<Group<K, T>>, x: T, key: T -> K): seq<Group<K, T>>
  {
    match Find(gs, key(x), KeyOf())
    case None => gs + [Group(key(x), [x])]
    case Some(j) => gs[j := Group(key(x), gs[j].members + [x])]
  }

  /** The dictionary after filing every element of xs, in order. */
  function GroupBy<K(==), T>(xs: seq<T>, key: T -> K): seq<Group<K, T>>
  {
    if xs == [] then [] else AddTo(GroupBy(xs[..|xs| - 1], key), xs[|xs| - 1], key)
  }

  /** The elements with key k. */
  function HasKey<K(==), T>(key: T -> K, k: K): T -> bool
  {
    (x: T) => key(x) == k
  }

  /** No key appears twice. */
  predicate DistinctKeys<K(==), T>(gs: seq<Group<K, T>>)
  {
    forall i, j :: 0 <= i < j < |gs| ==> gs[i].key != gs[j].key
  }

  /** Every entry holds exactly the elements of xs with its key, in their order. */
  ghost predicate Partitions<K, T>(gs: seq<Group<K, T>>, xs: seq<T>, key: T -> K)
  {
    forall g :: 0 <= g < |gs| ==> gs[g].members == Filter(xs, HasKey(key, gs[g].key))
  }

  /** Every element's key has an entry. */
  ghost predicate Covers<K, T>(gs: seq<Group<K, T>>, xs: seq<T>, key: T -> K)
  {
    forall i :: 0 <= i < |xs| ==> Find(gs, key(xs[i]), KeyOf()).Some?
  }

  lemma FilterSnoc<T>(xs: seq<T>, x: T, p: T -> bool)
    ensures Filter(xs + [x], p) == Filter(xs, p) + (if p(x) then [x] else [])
  {
    FilterAppend(xs, [x], p);
    assert [x][1..] == [];
  }

  /** The dictionary has distinct keys, covers every element, and files each
      element under its own key and nowhere else. */
  lemma {:induction false} GroupBySpec<K, T>(xs: seq<T>, key: T -> K)
    ensures DistinctKeys(GroupBy(xs, key))
    ensures Partitions(GroupBy(xs, key), xs, key)
    ensures Covers(GroupBy(xs, key), xs, key)
  {
    if xs != [] {
      var init := xs[..|xs| - 1];
      var x := xs[|xs| - 1];
      assert xs == init + [x];
      GroupBySpec(init, key);
      AddToSpec(GroupBy(init, key), init, x, key);
    }
  }

  lemma AddToSpec<K, T>(gs: seq<Group<K, T>>, xs: seq<T>, x: T, key: T -> K)
    requires DistinctKeys(gs) && Partitions(gs, xs, key) && Covers(gs, xs, key)
    ensures DistinctKeys(AddTo(gs, x, key))
    ensures Partitions(AddTo(gs, x, key), xs + [x], key)
    ensures Covers(AddTo(gs, x, key), xs + [x], key)
  {
    forall g | 0 <= g < |gs| {
      FilterSnoc(xs, x, HasKey(key, gs[g].key));
    }
    FilterSnoc(xs, x, HasKey(key, key(x)));
    match Find(gs, key(x), KeyOf()) {
      case None => AddToNew(gs, xs, x, key);
      case Some(j) => AddToExisting(gs, xs, x, key, j);
    }
  }

  /** Filing an element whose key is new appends a one-element entry. */
  lemma AddToNew<K, T>(gs: seq<Group<K, T>>, xs: seq<T>, x: T, key: T -> K)
    requires DistinctKeys(gs) && Partitions(gs, xs, key) && Covers(gs, xs, key)
    requires Find(gs, key(x), KeyOf()).None?
    requires forall g :: 0 <= g < |gs| ==>
      Filter(xs + [x], HasKey(key, gs[g].key)) == Filter(xs, HasKey(key, gs[g].key))
    requires Filter(xs + [x], HasKey(key, key(x))) == Filter(xs, HasKey(key, key(x))) + [x]
    ensures DistinctKeys(AddTo(gs, x, key))
    ensures Partitions(AddTo(gs, x, key), xs + [x], key)
    ensures Covers(AddTo(gs, x, key), xs + [x], key)
  {
    var hs := AddTo(gs, x, key);
    var ys := xs + [x];
    assert hs == gs + [Group(key(x), [x])];
    assert forall i :: 0 <= i < |xs| ==> !HasKey(key, key(x))(xs[i]);
    FilterNone(xs, HasKey(key, key(x)));
    forall i | 0 <= i < |ys| ensures Find(hs, key(ys[i]), KeyOf()).Some? {
      if i < |xs| {
        var j := Find(gs, key(xs[i]), KeyOf()).value;
        assert hs[j] == gs[j];
      } else {
        assert hs[|gs|].key == key(ys[i]);
      }
    }
  }

  /** Filing an element under an existing key appends it to that entry. */
  lemma AddToExisting<K, T>(gs: seq<Group<K, T>>, xs: seq<T>, x: T, key: T -> K, j: nat)
    requires DistinctKeys(gs) && Partitions(gs, xs, key) && Covers(gs, xs, key)
    requires Find(gs, key(x), KeyOf()) == Some(j)
    requires forall g :: 0 <= g < |gs| ==>
      Filter(xs + [x], HasKey(key, gs[g].key)) == Filter(xs, HasKey(key, gs[g].key))
        + (if key(x) == gs[g].key then [x] else [])
    ensures DistinctKeys(AddTo(gs, x, key))
    ensures Partitions(AddTo(gs, x, key), xs + [x], key)
    ensures Covers(AddTo(gs, x, key), xs + [x], key)
  {
    var hs := AddTo(gs, x, key);
    var ys := xs + [x];
    assert hs == gs[j := Group(key(x), gs[j].members + [x])];
    assert forall g :: 0 <= g < |hs| ==> hs[g].key == gs[g].key;
    forall i | 0 <= i < |ys| ensures Find(hs, key(ys[i]), KeyOf()).Some? {
      if i < |xs| {
        var m := Find(gs, key(xs[i]), KeyOf()).value;
        assert hs[m].key == gs[m].key;
      } else {
        assert hs[j].key == key(ys[i]);
      }
    }
  }

  /** The members of all entries together are as many as the elements filed. */
  function TotalMembers<K, T>(gs: seq<Group<K, T>>): nat
  {
    if gs == [] then 0 else TotalMembers(gs[..|gs| - 1]) + |gs[|gs| - 1].members|
  }

  lemma {:induction false} TotalMembersUpdate<K, T>(gs: seq<Group<K, T>>, j: nat, g: Group<K, T>)
    requires j < |gs|
    ensures TotalMembers(gs[j := g]) == TotalMembers(gs) - |gs[j].members| + |g.members|
  {
    var n := |gs| - 1;
    if j < n {
      assert gs[j := g][..n] == gs[..n][j := g];
      TotalMembersUpdate(gs[..n], j, g);
    } else {
      assert gs[j := g][..n] == gs[..n];
    }
  }

  /** Every element lands in exactly one entry, so the entry sizes add up to |xs|. */
  lemma {:induction false} GroupByTotal<K, T>(xs: seq<T>, key: T -> K)
    ensures TotalMembers(GroupBy(xs, key)) == |xs|
  {
    if xs != [] {
      var init := xs[..|xs| - 1];
      var x := xs[|xs| - 1];
      var gs := GroupBy(init, key);
      GroupByTotal(init, key);
      match Find(gs, key(x), KeyOf()) {
        case None =>
          assert (gs + [Group(key(x), [x])])[..|gs|] == gs;
        case Some(j) =>
          TotalMembersUpdate(gs, j, Group(key(x), gs[j].members + [x]));
      }
    }
  }

  /** Every entry is non-empty. */
  lemma {:induction false} GroupsNonEmpty<K, T>(xs: seq<T>, key: T -> K)
    ensures forall g :: 0 <= g < |GroupBy(xs, key)| ==> |GroupBy(xs, key)[g].members| > 0
  {
    if xs != [] {
      GroupsNonEmpty(xs[..|xs| - 1], key);
    }
  }

  /** Every element of a later entry comes after some element of each earlier
      entry: entries are in order of their keys' first appearance. */
  ghost predicate FirstSeenOrder<K, T>(gs: seq<Group<K, T>>, xs: seq<T>, key: T -> K)
  {
    forall g, h, i :: 0 <= g < h < |gs| && 0 <= i < |xs| && key(xs[i]) == gs[h].key ==>
      exists k :: 0 <= k < i && key(xs[k]) == gs[g].key
  }

  /** The entries come in order of first appearance. */
  lemma {:induction false} GroupByOrder<K, T>(xs: seq<T>, key: T -> K)
    ensures FirstSeenOrder(GroupBy(xs, key), xs, key)
  {
    if xs != [] {
      var n := |xs| - 1;
      assert xs == xs[..n] + [xs[n]];
      GroupByOrder(xs[..n], key);
      GroupBySpec(xs[..n], key);
      GroupsNonEmpty(xs[..n], key);
      OrderStep(GroupBy(xs[..n], key), xs[..n], xs[n], key);
    }
  }

  lemma OrderStep<K, T>(gs: seq<Group<K, T>>, xs: seq<T>, x: T, key: T -> K)
    requires Partitions(gs, xs, key) && Covers(gs, xs, key) && FirstSeenOrder(gs, xs, key)
    requires forall g :: 0 <= g < |gs| ==> |gs[g].members| > 0
    ensures FirstSeenOrder(AddTo(gs, x, key), xs + [x], key)
  {
    var hs := AddTo(gs, x, key);
    var ys := xs + [x];
    var n := |xs|;
    assert |hs| >= |gs|;
    assert forall g :: 0 <= g < |hs| ==> hs[g].key == (if g < |gs| then gs[g].key else key(x));
    forall g, h, i | 0 <= g < h < |hs| && 0 <= i < |ys| && key(ys[i]) == hs[h].key
      ensures exists k :: 0 <= k < i && key(ys[k]) == hs[g].key
    {
      if i < n {
        assert ys[i] == xs[i];
        assert Find(gs, key(xs[i]), KeyOf()).Some?;
        assert h < |gs|;
        var k :| 0 <= k < i && key(xs[k]) == gs[g].key;
        assert ys[k] == xs[k];
      } else {
        var k := MemberIndex(xs, key, gs[g].key, gs[g].members);
        assert ys[k] == xs[k];
      }
    }
  }

  /** A non-empty entry's key belongs to some element. */
  lemma MemberIndex<K, T>(xs: seq<T>, key: T -> K, k: K, members: seq<T>) returns (i: nat)
    requires members == Filter(xs, HasKey(key, k)) && members != []
    ensures i < |xs| && key(xs[i]) == k
  {
    FilterMembers(xs, HasKey(key, k));
    assert members[0] in xs;
    i :| 0 <= i < |xs| && xs[i] == members[0];
  }
}
