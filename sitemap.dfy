/**
 * scripts/generate-sitemap.js: the page list of `sitemap.xml` — the static
 * pages, one page per blog article, one page per recent prediction day —
 * and its XML text. The directory listings, the `fs.existsSync` answers,
 * each file's `lastmod` and the date parser are inputs.
 */
module Sitemap {
  import opened Wrappers
  import opened Strings
  import opened Seqs
  import opened Sorting

  /** `SITE_URL`. */
  const SiteUrl: string := "https://boat-ai.jp"

  /** One `<url>` entry. */
  datatype Page = Page(loc: string, lastmod: string, changefreq: string, priority: string)

  // ---------------------------------------------------------------- static pages

  /** `staticPages`, each last modified `today` (the run's ISO date). */
  function StaticPages(today: string): (r: seq<Page>)
    ensures |r| == 11
    ensures forall k :: 0 <= k < |r| ==> r[k].lastmod == today
  {
    [Page("/", today, "daily", "1.0"),
     Page("/accuracy", today, "daily", "0.9"),
     Page("/hit-races", today, "daily", "0.9"),
     Page("/about", today, "monthly", "0.8"),
     Page("/faq", today, "monthly", "0.8"),
     Page("/how-to-use", today, "monthly", "0.9"),
     Page("/privacy", today, "yearly", "0.3"),
     Page("/terms", today, "yearly", "0.3"),
     Page("/contact", today, "monthly", "0.5"),
     Page("/blog", today, "weekly", "0.7"),
     Page("/races", today, "daily", "0.9")]
  }

  /** The static pages have distinct locations, and the home page is the only
      one with the top priority. */
  lemma StaticPagesSpec(today: string)
    ensures forall i, j :: 0 <= i < j < |StaticPages(today)| ==> StaticPages(today)[i].loc != StaticPages(today)[j].loc
    ensures forall k :: 0 <= k < |StaticPages(today)| ==> (StaticPages(today)[k].priority == "1.0" <==> k == 0)
  {
    var s := StaticPages(today);
    forall i, j | 0 <= i < j < |s| ensures s[i].loc != s[j].loc {
      if |s[i].loc| == |s[j].loc| {
        assert s[i].loc[1] != s[j].loc[1] || s[i].loc[2] != s[j].loc[2];
      }
    }
  }

  // ---------------------------------------------------------------- the first occurrence

  /** `s.replace(p, '')` with a string pattern: the first occurrence of p is removed. */
  function RemoveFirst(s: string, p: string): string
    requires p != []
    decreases |s|
  {
    if StartsWith(s, p) then s[|p|..]
    else if s == [] then []
    else [s[0]] + RemoveFirst(s[1..], p)
  }

  /** p occurs at position k. */
  predicate OccursAt(s: string, p: string, k: int)
  {
    0 <= k && k + |p| <= |s| && s[k..k + |p|] == p
  }

  /** With a first occurrence at k, exactly the characters k .. k + |p| - 1 go. */
  lemma {:induction false} RemoveFirstAt(s: string, p: string, k: nat)
    requires p != []
    requires OccursAt(s, p, k)
    requires forall j :: 0 <= j < k ==> !OccursAt(s, p, j)
    ensures RemoveFirst(s, p) == s[..k] + s[k + |p|..]
    decreases k
  {
    if k > 0 {
      assert !OccursAt(s, p, 0);
      assert s[1..][k - 1..k - 1 + |p|] == s[k..k + |p|];
      forall j | 0 <= j < k - 1 ensures !OccursAt(s[1..], p, j) {
        assert !OccursAt(s, p, j + 1);
        assert s[1..][j..j + |p|] == s[j + 1..j + 1 + |p|];
      }
      RemoveFirstAt(s[1..], p, k - 1);
      assert s[..k] == [s[0]] + s[1..][..k - 1];
    }
  }

  /** Without an occurrence, nothing is removed. */
  lemma {:induction false} RemoveFirstAbsent(s: string, p: string)
    requires p != []
    requires forall j :: 0 <= j <= |s| ==> !OccursAt(s, p, j)
    ensures RemoveFirst(s, p) == s
    decreases |s|
  {
    if s != [] {
      assert !OccursAt(s, p, 0);
      forall j | 0 <= j <= |s| - 1 ensures !OccursAt(s[1..], p, j) {
        assert !OccursAt(s, p, j + 1);
        if j + |p| <= |s| - 1 {
          assert s[1..][j..j + |p|] == s[j + 1..j + 1 + |p|];
        }
      }
      RemoveFirstAbsent(s[1..], p);
      assert s == [s[0]] + s[1..];
    }
  }

  // ---------------------------------------------------------------- blog pages

  /** A file of the blog directory with the date its front matter (or its
      modification time) gives. */
  datatype BlogFile = BlogFile(name: string, lastmod: string)

  /** `file.endsWith('.md')`. */
  predicate IsMarkdown(f: BlogFile)
  {
    EndsWith(f.name, ".md")
  }

  /** `file.replace('.md', '')`. */
  function Slug(name: string): string
  {
    RemoveFirst(name, ".md")
  }

  /** Weekly reports rank below the other articles. */
  function BlogPriority(slug: string): string
  {
    if StartsWith(slug, "weekly-report-") then "0.5" else "0.6"
  }

  /** The page of one article. */
  function BlogPage(f: BlogFile): Page
  {
    Page("/blog/" + Slug(f.name), f.lastmod, "monthly", BlogPriority(Slug(f.name)))
  }

  /** `getBlogPosts()`: nothing without the directory, else the pages of its
      markdown files in listing order. */
  function BlogPages(dirExists: bool, files: seq<BlogFile>): seq<Page>
  {
    if dirExists then FilterMap(files, IsMarkdown, BlogPage) else []
  }

  /** The `files.forEach` of `getBlogPosts`. */
  method GetBlogPosts(dirExists: bool, files: seq<BlogFile>) returns (blogPosts: seq<Page>)
    ensures blogPosts == BlogPages(dirExists, files)
  {
    blogPosts := [];
    if !dirExists {
      return;
    }
    for i := 0 to |files|
      invariant blogPosts == FilterMap(files[..i], IsMarkdown, BlogPage)
    {
      assert files[..i + 1][..i] == files[..i];
      var file := files[i];
      if !EndsWith(file.name, ".md") {
        continue;
      }
      var slug := RemoveFirst(file.name, ".md");
      var priority := if StartsWith(slug, "weekly-report-") then "0.5" else "0.6";
      blogPosts := blogPosts + [Page("/blog/" + slug, file.lastmod, "monthly", priority)];
    }
    assert files[..|files|] == files;
  }

  lemma StartsWithAfterPrefix(a: string, s: string, p: string)
    ensures StartsWith(a + s, a + p) <==> StartsWith(s, p)
  {
    if StartsWith(s, p) {
      assert (a + s)[..|a + p|] == a + s[..|p|];
    }
    if StartsWith(a + s, a + p) {
      assert s[..|p|] == (a + s)[..|a + p|][|a|..];
    }
  }

  /** The page of an article is monthly, lies under `/blog/`, and has
      priority 0.5 exactly when its location starts with
      `/blog/weekly-report-`, 0.6 otherwise. */
  lemma BlogPageSpec(f: BlogFile)
    ensures var pg := BlogPage(f);
      pg.changefreq == "monthly" && StartsWith(pg.loc, "/blog/")
      && (pg.priority == "0.5" <==> StartsWith(pg.loc, "/blog/weekly-report-"))
      && (pg.priority == "0.5" || pg.priority == "0.6")
  {
    var slug := Slug(f.name);
    assert "/blog/weekly-report-" == "/blog/" + "weekly-report-";
    StartsWithAfterPrefix("/blog/", slug, "weekly-report-");
    StartsWithAfterPrefix("/blog/", slug, []);
    assert "/blog/" + [] == "/blog/";
  }

  /** The blog pages are the pages of the markdown files; every one is
      monthly, has priority 0.5 exactly when its location starts with
      `/blog/weekly-report-` and 0.6 otherwise. */
  lemma BlogPagesSpec(dirExists: bool, files: seq<BlogFile>)
    ensures forall pg :: pg in BlogPages(dirExists, files) <==>
      dirExists && exists k :: 0 <= k < |files| && IsMarkdown(files[k]) && pg == BlogPage(files[k])
    ensures forall pg :: pg in BlogPages(dirExists, files) ==>
      pg.changefreq == "monthly" && StartsWith(pg.loc, "/blog/")
      && (pg.priority == "0.5" <==> StartsWith(pg.loc, "/blog/weekly-report-"))
      && (pg.priority == "0.5" || pg.priority == "0.6")
  {
    if dirExists {
      FilterMapMembers(files, IsMarkdown, BlogPage);
      forall pg | pg in BlogPages(dirExists, files)
        ensures pg.changefreq == "monthly" && StartsWith(pg.loc, "/blog/")
          && (pg.priority == "0.5" <==> StartsWith(pg.loc, "/blog/weekly-report-"))
          && (pg.priority == "0.5" || pg.priority == "0.6")
      {
        var k :| 0 <= k < |files| && IsMarkdown(files[k]) && pg == BlogPage(files[k]);
        BlogPageSpec(files[k]);
      }
    }
  }

  /** For a name whose only `.md` is its suffix, the slug is the name
      without it. */
  lemma SlugStripsSuffix(name: string)
    requires EndsWith(name, ".md")
    requires forall j :: 0 <= j < |name| - 3 ==> !OccursAt(name, ".md", j)
    ensures Slug(name) == name[..|name| - 3]
  {
    RemoveFirstAt(name, ".md", |name| - 3);
    assert name[|name| - 3 + 3..] == [];
  }

  // ---------------------------------------------------------------- race pages

  /** A file of the predictions directory with its modification date. */
  datatype RaceFile = RaceFile(name: string, mtime: string)

  predicate DigitsAt(s: string, i: nat, n: nat)
    requires i + n <= |s|
  {
    forall j :: i <= j < i + n ==> IsDigit(s[j])
  }

  /** `/^\d{4}-\d{2}-\d{2}\.json$/`. */
  predicate IsDateJson(name: string)
  {
    |name| == 15 && DigitsAt(name, 0, 4) && name[4] == '-' && DigitsAt(name, 5, 2)
    && name[7] == '-' && DigitsAt(name, 8, 2) && name[10..] == ".json"
  }

  /** `file.replace('.json', '')`. */
  function DateStr(name: string): string
  {
    RemoveFirst(name, ".json")
  }

  /** `new Date(dateStr)` in milliseconds since the epoch; None for an invalid date. */
  type DateParser = string -> Option<int>

  /** `(now - fileDate) / (1000 * 60 * 60 * 24) <= 30`: an invalid date gives
      NaN, which is not at most 30. */
  predicate WithinDays(now: int, fileDate: Option<int>)
  {
    fileDate.Some? && (now - fileDate.value) as real / (1000 * 60 * 60 * 24) as real <= 30.0
  }

  function InWindow(now: int, parse: DateParser): RaceFile -> bool
  {
    (f: RaceFile) => IsDateJson(f.name) && WithinDays(now, parse(DateStr(f.name)))
  }

  /** The page of one prediction day. */
  function RacePage(f: RaceFile): Page
  {
    Page("/races/" + DateStr(f.name), f.mtime, "weekly", "0.7")
  }

  /** `(a, b) => b.loc.localeCompare(a.loc)`: the greater location first. */
  function LocDesc(): (Page, Page) -> bool
  {
    (a: Page, b: Page) => StrLt(b.loc, a.loc)
  }

  /** `getRacePages()`: nothing without the directory, else the pages of the
      date files of the last 30 days, the newest first. */
  function RacePages(dirExists: bool, files: seq<RaceFile>, now: int, parse: DateParser): seq<Page>
  {
    if dirExists then Sort(Selected(files, now, parse), LocDesc()) else []
  }

  /** The `files.forEach` of `getRacePages` and its sort. */
  method GetRacePages(dirExists: bool, files: seq<RaceFile>, now: int, parse: DateParser)
    returns (racePages: seq<Page>)
    ensures racePages == RacePages(dirExists, files, now, parse)
  {
    racePages := [];
    if !dirExists {
      return;
    }
    for i := 0 to |files|
      invariant racePages == Selected(files[..i], now, parse)
    {
      assert files[..i + 1][..i] == files[..i];
      var file := files[i];
      assert InWindow(now, parse)(file) == (IsDateJson(file.name) && WithinDays(now, parse(DateStr(file.name))));
      if !IsDateJson(file.name) {
        continue;
      }
      var dateStr := RemoveFirst(file.name, ".json");
      var fileDate := parse(dateStr);
      if WithinDays(now, fileDate) {
        racePages := racePages + [Page("/races/" + dateStr, file.mtime, "weekly", "0.7")];
      }
    }
    assert files[..|files|] == files;
    racePages := Sort(racePages, LocDesc());
  }

  /** The date of a date file is its first ten characters. */
  lemma DateStrOfDateJson(name: string)
    requires IsDateJson(name)
    ensures DateStr(name) == name[..10]
  {
    forall j | 0 <= j < 10 ensures !OccursAt(name, ".json", j) {
      assert IsDigit(name[j]) || name[j] == '-';
    }
    assert name[10..10 + 5] == ".json";
    RemoveFirstAt(name, ".json", 10);
    assert name[15..] == [];
  }

  /** The pages of the date files within 30 days, in listing order. */
  function Selected(files: seq<RaceFile>, now: int, parse: DateParser): seq<Page>
  {
    FilterMap(files, InWindow(now, parse), RacePage)
  }

  /** The selected pages are those of the date files whose date is valid and
      at most 30 days old; each is weekly with priority 0.7 and its location
      is `/races/` followed by the file's date. */
  lemma SelectedSpec(files: seq<RaceFile>, now: int, parse: DateParser)
    ensures forall pg :: pg in Selected(files, now, parse) <==>
      exists k :: 0 <= k < |files| && IsDateJson(files[k].name)
        && WithinDays(now, parse(files[k].name[..10])) && pg == RacePage(files[k])
    ensures forall pg :: pg in Selected(files, now, parse) ==>
      pg.changefreq == "weekly" && pg.priority == "0.7"
      && exists f :: f in files && IsDateJson(f.name) && pg.loc == "/races/" + f.name[..10]
  {
    FilterMapMembers(files, InWindow(now, parse), RacePage);
    forall k | 0 <= k < |files| && IsDateJson(files[k].name) {
      DateStrOfDateJson(files[k].name);
    }
    forall pg | pg in Selected(files, now, parse)
      ensures exists f :: f in files && IsDateJson(f.name) && pg.loc == "/races/" + f.name[..10]
    {
      var k :| 0 <= k < |files| && InWindow(now, parse)(files[k]) && pg == RacePage(files[k]);
      assert files[k] in files;
    }
  }

  /** The sort puts the greatest location first and neither adds nor drops a page. */
  lemma SortedByLoc(sel: seq<Page>)
    ensures multiset(Sort(sel, LocDesc())) == multiset(sel)
    ensures forall pg :: pg in Sort(sel, LocDesc()) <==> pg in sel
    ensures var r := Sort(sel, LocDesc());
      forall i, j :: 0 <= i < j < |r| ==> !StrLt(r[i].loc, r[j].loc)
  {
    var r := Sort(sel, LocDesc());
    forall pg ensures pg in r <==> pg in sel {
      assert pg in r <==> pg in multiset(r);
    }
    StrKeyDescIsStrictWeak(LocDesc(), (pg: Page) => pg.loc);
    SortSorted(sel, LocDesc());
    forall i, j | 0 <= i < j < |r| ensures !StrLt(r[i].loc, r[j].loc) {
      assert !LocDesc()(r[j], r[i]);
    }
  }

  /** The race pages are exactly the pages of the date files whose date is
      valid and at most 30 days old, each once per such file, newest
      location first; every one is weekly with priority 0.7 and its location
      is `/races/` followed by the file's date. */
  lemma RacePagesSpec(dirExists: bool, files: seq<RaceFile>, now: int, parse: DateParser)
    ensures dirExists ==> multiset(RacePages(dirExists, files, now, parse)) == multiset(Selected(files, now, parse))
    ensures forall pg :: pg in RacePages(dirExists, files, now, parse) <==>
      (dirExists &&
        exists k :: 0 <= k < |files| && IsDateJson(files[k].name)
          && WithinDays(now, parse(files[k].name[..10])) && pg == RacePage(files[k]))
    ensures var r := RacePages(dirExists, files, now, parse);
      forall i, j :: 0 <= i < j < |r| ==> !StrLt(r[i].loc, r[j].loc)
    ensures forall pg :: pg in RacePages(dirExists, files, now, parse) ==>
      pg.changefreq == "weekly" && pg.priority == "0.7"
      && exists f :: f in files && IsDateJson(f.name) && pg.loc == "/races/" + f.name[..10]
  {
    if dirExists {
      SelectedSpec(files, now, parse);
      SortedByLoc(Selected(files, now, parse));
    }
  }

  // ---------------------------------------------------------------- the XML

  /** A line of the file. */
  function Line(s: string): string
  {
    s + "\n"
  }

  const XmlDeclaration: string := "<?xml version=\"1.0\"" + " encoding=\"UTF-8\"?>"
  const UrlsetOpen: string := "<urlset xmlns=\"" + "http://www.sitemaps.org" + "/schemas/sitemap/0.9" + "\">"

  /** The XML declaration and the opening `<urlset>`, one line each. */
  const XmlHead: string := Line(XmlDeclaration) + Line(UrlsetOpen)

  /** The closing line. */
  const XmlTail: string := Line("</urlset>")

  /** The six lines of one page. */
  function UrlEntry(pg: Page): string
  {
    Line("  <url>")
    + Line("    <loc>" + SiteUrl + pg.loc + "</loc>")
    + Line("    <lastmod>" + pg.lastmod + "</lastmod>")
    + Line("    <changefreq>" + pg.changefreq + "</changefreq>")
    + Line("    <priority>" + pg.priority + "</priority>")
    + Line("  </url>")
  }

  /** The entries of the pages, in order. */
  function UrlEntries(pages: seq<Page>): string
  {
    Flatten(Map(pages, UrlEntry))
  }

  /** `generateSitemap()`'s text for a page list. */
  function SitemapXml(pages: seq<Page>): string
  {
    XmlHead + UrlEntries(pages) + XmlTail
  }

  /** `allPages`: the static pages, then the articles, then the prediction days. */
  function AllPages(today: string, blogPosts: seq<Page>, racePages: seq<Page>): seq<Page>
  {
    StaticPages(today) + blogPosts + racePages
  }

  /** The six `+=` of one page of the `allPages.forEach`. */
  method AppendEntry(xml: string, page: Page) returns (xml': string)
    ensures xml' == xml + UrlEntry(page)
  {
    xml' := xml + Line("  <url>");
    xml' := xml' + Line("    <loc>" + SiteUrl + page.loc + "</loc>");
    xml' := xml' + Line("    <lastmod>" + page.lastmod + "</lastmod>");
    xml' := xml' + Line("    <changefreq>" + page.changefreq + "</changefreq>");
    xml' := xml' + Line("    <priority>" + page.priority + "</priority>");
    xml' := xml' + Line("  </url>");
  }

  lemma UrlEntriesPrefix(pages: seq<Page>, i: nat)
    requires i < |pages|
    ensures UrlEntries(pages[..i + 1]) == UrlEntries(pages[..i]) + UrlEntry(pages[i])
  {
    assert pages[..i + 1][..i] == pages[..i];
    assert Map(pages[..i + 1], UrlEntry) == Map(pages[..i], UrlEntry) + [UrlEntry(pages[i])];
    FlattenSnoc(Map(pages[..i], UrlEntry), UrlEntry(pages[i]));
  }

  /** The `allPages.forEach` of `generateSitemap()`: one entry per page, in order. */
  method AppendEntries(xml: string, allPages: seq<Page>) returns (xml': string)
    ensures xml' == xml + UrlEntries(allPages)
  {
    xml' := xml;
    for i := 0 to |allPages|
      invariant xml' == xml + UrlEntries(allPages[..i])
    {
      UrlEntriesPrefix(allPages, i);
      AppendAssoc(xml, UrlEntries(allPages[..i]), UrlEntry(allPages[i]));
      xml' := AppendEntry(xml', allPages[i]);
    }
    assert allPages[..|allPages|] == allPages;
  }

  /** The text of `generateSitemap()` for `allPages`, built line by line with `+=`. */
  method Serialize(allPages: seq<Page>) returns (xml: string)
    ensures xml == SitemapXml(allPages)
  {
    xml := Line(XmlDeclaration);
    xml := xml + Line(UrlsetOpen);
    assert xml == XmlHead;
    xml := AppendEntries(xml, allPages);
    xml := xml + Line("</urlset>");
  }

  /** `generateSitemap()`. */
  method GenerateSitemap(today: string, blogDirExists: bool, blogFiles: seq<BlogFile>,
                         raceDirExists: bool, raceFiles: seq<RaceFile>, now: int, parse: DateParser)
    returns (xml: string)
    ensures xml == SitemapXml(AllPages(today, BlogPages(blogDirExists, blogFiles),
                                       RacePages(raceDirExists, raceFiles, now, parse)))
  {
    var blogPosts := GetBlogPosts(blogDirExists, blogFiles);
    var racePages := GetRacePages(raceDirExists, raceFiles, now, parse);
    xml := Serialize(AllPages(today, blogPosts, racePages));
  }

  lemma UrlEntriesAppend(a: seq<Page>, b: seq<Page>)
    ensures UrlEntries(a + b) == UrlEntries(a) + UrlEntries(b)
  {
    MapAppend(a, b, UrlEntry);
    FlattenAppend(Map(a, UrlEntry), Map(b, UrlEntry));
  }

  /** The file lists the static pages, then the articles, then the
      prediction days, each page as one entry. */
  lemma SitemapOrder(today: string, blogPosts: seq<Page>, racePages: seq<Page>)
    ensures SitemapXml(AllPages(today, blogPosts, racePages))
      == XmlHead + UrlEntries(StaticPages(today)) + UrlEntries(blogPosts) + UrlEntries(racePages) + XmlTail
  {
    UrlEntriesAppend(StaticPages(today) + blogPosts, racePages);
    UrlEntriesAppend(StaticPages(today), blogPosts);
  }

  /** No field of the page breaks a line. */
  predicate SingleLine(pg: Page)
  {
    '\n' !in pg.loc && '\n' !in pg.lastmod && '\n' !in pg.changefreq && '\n' !in pg.priority
  }

  lemma {:induction false} OccurrencesAbsent<T>(xs: seq<T>, x: T)
    requires x !in xs
    ensures Occurrences(xs, x) == 0
  {
    if xs != [] {
      assert xs[1..] == xs[1..];
      OccurrencesAbsent(xs[1..], x);
    }
  }

  lemma LineBreaks(s: string)
    requires '\n' !in s
    ensures Occurrences(Line(s), '\n') == 1
  {
    OccurrencesAppend(s, "\n", '\n');
    OccurrencesAbsent(s, '\n');
  }

  /** An entry is six lines. */
  lemma UrlEntryLines(pg: Page)
    requires SingleLine(pg)
    ensures Occurrences(UrlEntry(pg), '\n') == 6
  {
    var l1 := "  <url>";
    var l2 := "    <loc>" + SiteUrl + pg.loc + "</loc>";
    var l3 := "    <lastmod>" + pg.lastmod + "</lastmod>";
    var l4 := "    <changefreq>" + pg.changefreq + "</changefreq>";
    var l5 := "    <priority>" + pg.priority + "</priority>";
    var l6 := "  </url>";
    assert '\n' !in l2 && '\n' !in l3 && '\n' !in l4 && '\n' !in l5;
    LineBreaks(l1); LineBreaks(l2); LineBreaks(l3);
    LineBreaks(l4); LineBreaks(l5); LineBreaks(l6);
    OccurrencesAppend(Line(l1), Line(l2), '\n');
    OccurrencesAppend(Line(l1) + Line(l2), Line(l3), '\n');
    OccurrencesAppend(Line(l1) + Line(l2) + Line(l3), Line(l4), '\n');
    OccurrencesAppend(Line(l1) + Line(l2) + Line(l3) + Line(l4), Line(l5), '\n');
    OccurrencesAppend(Line(l1) + Line(l2) + Line(l3) + Line(l4) + Line(l5), Line(l6), '\n');
  }

  lemma {:induction false} UrlEntriesLines(pages: seq<Page>)
    requires forall k :: 0 <= k < |pages| ==> SingleLine(pages[k])
    ensures Occurrences(UrlEntries(pages), '\n') == 6 * |pages|
  {
    if pages != [] {
      var init := pages[..|pages| - 1];
      assert pages == init + [pages[|pages| - 1]];
      UrlEntriesLines(init);
      UrlEntryLines(pages[|pages| - 1]);
      assert Map(pages, UrlEntry) == Map(init, UrlEntry) + [UrlEntry(pages[|pages| - 1])];
      FlattenSnoc(Map(init, UrlEntry), UrlEntry(pages[|pages| - 1]));
      OccurrencesAppend(UrlEntries(init), UrlEntry(pages[|pages| - 1]), '\n');
    }
  }

  /** One entry per page: with single-line fields the file has two opening
      lines, six lines per page and one closing line. */
  lemma SitemapLines(pages: seq<Page>)
    requires forall k :: 0 <= k < |pages| ==> SingleLine(pages[k])
    ensures Occurrences(SitemapXml(pages), '\n') == 3 + 6 * |pages|
  {
    assert '\n' !in XmlDeclaration && '\n' !in UrlsetOpen;
    LineBreaks(XmlDeclaration); LineBreaks(UrlsetOpen); LineBreaks("</urlset>");
    OccurrencesAppend(Line(XmlDeclaration), Line(UrlsetOpen), '\n');
    UrlEntriesLines(pages);
    OccurrencesAppend(XmlHead, UrlEntries(pages), '\n');
    OccurrencesAppend(XmlHead + UrlEntries(pages), XmlTail, '\n');
  }
}
