/**
 * src/data/blogPosts.js: the article index and its queries — the list of
 * categories, the featured articles, the articles of a category, lookup by
 * id and the newest articles. Titles, descriptions, tags and reading times
 * are not read by any query and are left out of the record.
 */
module BlogPosts {
  import opened Wrappers
  import opened Seqs
  import opened Sorting

  /** The fields of a post that the queries read. */
  datatype Post = Post(id: string, date: string, category: string, featured: bool)

  /** `blogPosts`. */
  const Posts: seq<Post> := [
    Post("why-you-lose", "2025-12-19", "初心者向け", true),
    Post("monthly-50k-roadmap", "2025-12-21", "戦略", true),
    Post("what-pros-avoid", "2025-12-26", "上級者向け", false),
    Post("ai-vs-human", "2025-12-23", "データ分析", true),
    Post("bankruptcy-prevention", "2025-12-28", "リスク管理", false),
    Post("beginner-basics", "2025-12-15", "初心者向け", false),
    Post("betting-strategy", "2025-12-16", "戦略", false),
    Post("player-data-analysis", "2025-12-17", "データ分析", false),
    Post("motor-performance", "2025-12-18", "データ分析", false),
    Post("weekly-report-1210", "2025-12-18", "実績レポート", false),
    Post("weekly-report-1210-1214", "2025-12-22", "実績レポート", true),
    Post("rough-race-signals", "2025-12-22", "初心者向け", true),
    Post("exhibition-run-guide", "2025-12-22", "データ分析", false),
    Post("stadium-strategy-guide", "2025-12-22", "戦略", true)]

  // ---------------------------------------------------------------- categories

  /** `[...new Set(xs)]`: each value once, where it first appears. */
  function Unique(xs: seq<string>): (r: seq<string>)
  {
    if xs == [] then []
    else
      var u := Unique(xs[..|xs| - 1]);
      if xs[|xs| - 1] in u then u else u + [xs[|xs| - 1]]
  }

  function CategoryOf(post: Post): string
  {
    post.category
  }

  /** `categories`, over any post list. */
  function Categories(posts: seq<Post>): seq<string>
  {
    Unique(Map(posts, CategoryOf))
  }

  /** Unique keeps every value once, nothing else, in the order of first
      appearance. */
  lemma {:induction false} UniqueSpec(xs: seq<string>)
    ensures forall i, j :: 0 <= i < j < |Unique(xs)| ==> Unique(xs)[i] != Unique(xs)[j]
    ensures forall y :: y in Unique(xs) <==> y in xs
    ensures forall i, j :: 0 <= i < j < |Unique(xs)| ==>
      FirstIndexOf(xs, Unique(xs)[i]) < FirstIndexOf(xs, Unique(xs)[j])
  {
    if xs != [] {
      var init := xs[..|xs| - 1];
      var x := xs[|xs| - 1];
      var u := Unique(init);
      UniqueSpec(init);
      assert xs == init + [x];
      forall y | y in init ensures FirstIndexOf(xs, y) == FirstIndexOf(init, y) {
        var k := FirstIndexOf(init, y);
        assert xs[..k] == init[..k];
        FirstIndexOfUnique(xs, y, k);
      }
      if x !in u {
        assert x !in xs[..|xs| - 1];
        FirstIndexOfUnique(xs, x, |xs| - 1);
        var r := u + [x];
        forall i, j | 0 <= i < j < |r| ensures FirstIndexOf(xs, r[i]) < FirstIndexOf(xs, r[j]) {
          assert r[i] == u[i] && r[i] in init;
          if j < |u| {
            assert r[j] == u[j];
          }
        }
      }
    }
  }

  /** `categories` lists each category of a post once, no other value, in
      the order in which the categories first appear in the post list. */
  lemma CategoriesSpec(posts: seq<Post>)
    ensures forall i, j :: 0 <= i < j < |Categories(posts)| ==> Categories(posts)[i] != Categories(posts)[j]
    ensures forall c :: c in Categories(posts) <==> exists k :: 0 <= k < |posts| && posts[k].category == c
    ensures forall c :: c in Categories(posts) ==> c in Map(posts, CategoryOf)
    ensures var cs := Map(posts, CategoryOf);
      forall i, j :: 0 <= i < j < |Categories(posts)| ==>
        FirstIndexOf(cs, Categories(posts)[i]) < FirstIndexOf(cs, Categories(posts)[j])
  {
    var cs := Map(posts, CategoryOf);
    UniqueSpec(cs);
    MapAt(posts, CategoryOf);
    forall c ensures c in cs <==> exists k :: 0 <= k < |posts| && posts[k].category == c {
      if c in cs {
        var k :| 0 <= k < |cs| && cs[k] == c;
      }
    }
  }

  // ---------------------------------------------------------------- filters

  function IsFeatured(post: Post): bool
  {
    post.featured
  }

  /** `getFeaturedPosts()`. */
  function FeaturedPosts(posts: seq<Post>): seq<Post>
  {
    Filter(posts, IsFeatured)
  }

  function InCategory(category: string): Post -> bool
  {
    (post: Post) => post.category == category
  }

  /** `getPostsByCategory(category)`. */
  function PostsByCategory(posts: seq<Post>, category: string): seq<Post>
  {
    Filter(posts, InCategory(category))
  }

  /** The filtered list, in the original order: the i-th result is the post
      at position idx[i], the positions increase, and they are exactly the
      positions of the posts p selects. */
  predicate SelectsInOrder(posts: seq<Post>, p: Post -> bool, r: seq<Post>, idx: seq<nat>)
  {
    |idx| == |r|
    && (forall i :: 0 <= i < |idx| ==> idx[i] < |posts| && r[i] == posts[idx[i]])
    && (forall i, j :: 0 <= i < j < |idx| ==> idx[i] < idx[j])
    && (forall k :: 0 <= k < |posts| ==> (p(posts[k]) <==> k in idx))
  }

  /** `getFeaturedPosts` returns the featured posts, all of them, in order. */
  lemma FeaturedPostsSpec(posts: seq<Post>) returns (idx: seq<nat>)
    ensures SelectsInOrder(posts, IsFeatured, FeaturedPosts(posts), idx)
    ensures forall i :: 0 <= i < |FeaturedPosts(posts)| ==> FeaturedPosts(posts)[i].featured
  {
    idx := FilterIndices(posts, IsFeatured);
  }

  /** `getPostsByCategory(c)` returns the posts of category c, all of them, in order. */
  lemma PostsByCategorySpec(posts: seq<Post>, category: string) returns (idx: seq<nat>)
    ensures SelectsInOrder(posts, InCategory(category), PostsByCategory(posts, category), idx)
    ensures forall i :: 0 <= i < |PostsByCategory(posts, category)| ==>
      PostsByCategory(posts, category)[i].category == category
  {
    idx := FilterIndices(posts, InCategory(category));
  }

  /** Every category of `categories` has at least one post. */
  lemma CategoriesAreUsed(posts: seq<Post>, c: string)
    requires c in Categories(posts)
    ensures PostsByCategory(posts, c) != []
  {
    CategoriesSpec(posts);
    var k :| 0 <= k < |posts| && posts[k].category == c;
    FilterMembers(posts, InCategory(c));
    assert posts[k] in PostsByCategory(posts, c);
  }

  // ---------------------------------------------------------------- lookup

  /** `getPostById(id)`: `find`, with `undefined` as None. */
  function PostById(posts: seq<Post>, id: string): Option<Post>
  {
    if posts == [] then None
    else if posts[0].id == id then Some(posts[0])
    else PostById(posts[1..], id)
  }

  /** The lookup is None exactly when no post has the id; otherwise it is the
      first post with the id. */
  lemma {:induction false} PostByIdSpec(posts: seq<Post>, id: string) returns (k: nat)
    ensures PostById(posts, id).None? <==> forall j :: 0 <= j < |posts| ==> posts[j].id != id
    ensures PostById(posts, id).Some? ==>
      k < |posts| && posts[k] == PostById(posts, id).value && posts[k].id == id
      && forall j :: 0 <= j < k ==> posts[j].id != id
  {
    k := 0;
    if posts != [] && posts[0].id != id {
      var k' := PostByIdSpec(posts[1..], id);
      assert forall j :: 0 < j < |posts| ==> posts[j] == posts[1..][j - 1];
      k := k' + 1;
    }
  }

  // ---------------------------------------------------------------- newest

  /** `new Date(post.date)` in milliseconds for the posts' ISO dates. */
  type DateValue = string -> int

  /** `(a, b) => new Date(b.date) - new Date(a.date)`: the later date first. */
  function NewerFirst(time: DateValue): (Post, Post) -> bool
  {
    (a: Post, b: Post) => time(a.date) > time(b.date)
  }

  /** `limit` of `getLatestPosts(limit = 5)`. */
  const DefaultLimit: int := 5

  /** `slice(0, limit)`: a negative limit counts from the end. */
  function SliceEnd(n: nat, limit: int): (e: nat)
    ensures e <= n
  {
    if limit < 0 then (if n + limit < 0 then 0 else n + limit)
    else if limit < n then limit
    else n
  }

  /** `getLatestPosts(limit)`, over a copy of the post list. */
  function LatestPosts(posts: seq<Post>, time: DateValue, limit: int): seq<Post>
  {
    var sorted := Sort(posts, NewerFirst(time));
    sorted[..SliceEnd(|sorted|, limit)]
  }

  /** The newest posts: at most `limit` of them (all when there are fewer),
      each a post of the list, newest first, and no post left out is newer
      than one returned. */
  lemma LatestPostsNewest(posts: seq<Post>, time: DateValue, limit: int)
    ensures limit >= 0 ==> |LatestPosts(posts, time, limit)| == if limit < |posts| then limit else |posts|
    ensures multiset(LatestPosts(posts, time, limit)) <= multiset(posts)
    ensures var r := LatestPosts(posts, time, limit);
      forall i, j :: 0 <= i < j < |r| ==> time(r[i].date) >= time(r[j].date)
    ensures var s := Sort(posts, NewerFirst(time));
      var r := LatestPosts(posts, time, limit);
      r == s[..|r|] && multiset(s) == multiset(posts)
      && forall i, j :: 0 <= i < |r| <= j < |s| ==> time(r[i].date) >= time(s[j].date)
  {
    LatestPostsPrefix(posts, time, limit);
    LatestPostsOrdered(posts, time, limit);
  }

  /** The newest posts are a prefix of the sorted copy, of the size `slice` gives. */
  lemma LatestPostsPrefix(posts: seq<Post>, time: DateValue, limit: int)
    ensures var s := Sort(posts, NewerFirst(time));
      var r := LatestPosts(posts, time, limit);
      |r| == SliceEnd(|posts|, limit) && r == s[..|r|]
      && multiset(s) == multiset(posts) && multiset(r) <= multiset(posts)
  {
    var s := Sort(posts, NewerFirst(time));
    var e := SliceEnd(|s|, limit);
    assert LatestPosts(posts, time, limit) == s[..e];
    PrefixMultiset(s, e);
  }

  /** The newest posts come newest first, and none is older than a post left out. */
  lemma LatestPostsOrdered(posts: seq<Post>, time: DateValue, limit: int)
    ensures var s := Sort(posts, NewerFirst(time));
      var r := LatestPosts(posts, time, limit);
      (forall i, j :: 0 <= i < j < |r| ==> time(r[i].date) >= time(r[j].date))
      && forall i, j :: 0 <= i < |r| <= j < |s| ==> time(r[i].date) >= time(s[j].date)
  {
    var s := Sort(posts, NewerFirst(time));
    var r := s[..SliceEnd(|s|, limit)];
    SortNewestFirst(posts, time, s);
    forall i, j | 0 <= i < j < |r| ensures time(r[i].date) >= time(r[j].date) {
      assert r[i] == s[i] && r[j] == s[j];
    }
    forall i, j | 0 <= i < |r| <= j < |s| ensures time(r[i].date) >= time(s[j].date) {
      assert r[i] == s[i];
    }
  }

  /** The sorted copy lists the posts newest first. */
  lemma SortNewestFirst(posts: seq<Post>, time: DateValue, s: seq<Post>)
    requires s == Sort(posts, NewerFirst(time))
    ensures forall i, j :: 0 <= i < j < |s| ==> time(s[i].date) >= time(s[j].date)
  {
    var lt := NewerFirst(time);
    KeyDescIsStrictWeak(lt, (p: Post) => time(p.date));
    SortSorted(posts, lt);
    forall i, j | 0 <= i < j < |s| ensures time(s[i].date) >= time(s[j].date) {
      assert !lt(s[j], s[i]);
    }
  }

  /** Posts of the same date keep their order in the list. */
  lemma LatestPostsStable(posts: seq<Post>, time: DateValue, z: Post)
    ensures Filter(Sort(posts, NewerFirst(time)), y => Equiv(NewerFirst(time), y, z))
      == Filter(posts, y => Equiv(NewerFirst(time), y, z))
  {
    KeyDescIsStrictWeak(NewerFirst(time), (p: Post) => time(p.date));
    SortStable(posts, z, NewerFirst(time));
  }
}
