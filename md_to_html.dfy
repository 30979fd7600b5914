/**
 * convert_md_to_html.py: `markdown_to_html`, a line-by-line transducer with two
 * list flags and a cursor that swallows whole table blocks, and
 * `process_inline_formatting`, four regular-expression substitutions.
 */
module MdToHtml {
  import opened Wrappers
  import opened Strings
  import opened Seqs
  import opened MdLines
  import opened MdInline

  // ---------------------------------------------------------------- inline spans

  /** `<a href="\2">\1</a>` */
  const LinkHtml := [Lit("<a href=\""), Group(2), Lit("\">"), Group(1), Lit("</a>")]
  /** `<a href="\1">\1</a>` */
  const UrlHtml := [Lit("<a href=\""), Group(1), Lit("\">"), Group(1), Lit("</a>")]
  /** `<strong>\1</strong>` */
  const StrongHtml := [Lit("<strong>"), Group(1), Lit("</strong>")]
  /** `<code>\1</code>` */
  const CodeHtml := [Lit("<code>"), Group(1), Lit("</code>")]

  /** `process_inline_formatting`: links, then bare URLs, then bold, then code,
      each pass working on the previous pass's output. */
  function ProcessInline(text: string): string
  {
    Sub(Re(Code), CodeHtml, Sub(Re(Bold), StrongHtml, Sub(Re(Url), UrlHtml, Sub(Re(Link), LinkHtml, text))))
  }

  /** Text with no `[`, `:`, `*` or backtick passes through unchanged. */
  lemma PlainTextUnchanged(text: string)
    requires '[' !in text && ':' !in text && '*' !in text && '`' !in text
    ensures ProcessInline(text) == text
  {
    CodeFixed(text);
    BoldFixed(text);
    UrlFixed(text);
    LinkFixed(text);
  }

  /** Each pass leaves alone text without its pattern's first character. */
  lemma CodeFixed(text: string)
    requires '`' !in text
    ensures Sub(Re(Code), CodeHtml, text) == text
  {
    SubWithoutAnchor(Code, CodeHtml, text);
  }

  lemma BoldFixed(text: string)
    requires '*' !in text
    ensures Sub(Re(Bold), StrongHtml, text) == text
  {
    SubWithoutAnchor(Bold, StrongHtml, text);
  }

  lemma UrlFixed(text: string)
    requires ':' !in text
    ensures Sub(Re(Url), UrlHtml, text) == text
  {
    SubWithoutAnchor(Url, UrlHtml, text);
  }

  lemma LinkFixed(text: string)
    requires '[' !in text
    ensures Sub(Re(Link), LinkHtml, text) == text
  {
    SubWithoutAnchor(Link, LinkHtml, text);
  }

  /** The bare-URL pass is not guarded against URLs that the link pass already
      placed in an `href`: a link `[l](u)` with an http(s) target comes out with
      its anchor element wrapped in a second one. */
  lemma LinkTargetWrappedAgain(l: string, u: string)
    requires IsLabel(l) && IsTarget(u)
    requires StartsWith(u, "https://") && |u| > 8
    requires forall c :: c in l ==> !IsPySpace(c) && c != '*' && c != '`'
    requires forall c :: c in u ==> !IsPySpace(c) && c != '*' && c != '`'
    ensures var x := u + "\">" + l + "</a>";
            ProcessInline(LinkText(l, u)) == "<a href=\"" + ("<a href=\"" + x + "\">" + x + "</a>")
  {
    var x := u + "\">" + l + "</a>";
    var w := "<a href=\"" + x + "\">" + x + "</a>";
    NoStarNoTick(l, u);
    CodeFixed("<a href=\"" + w);
    BoldFixed("<a href=\"" + w);
    UrlPassOnHref(l, u);
    LinkPassOnLink(l, u);
  }

  /** The URL pass on the link pass's output. */
  lemma UrlPassOnHref(l: string, u: string)
    requires StartsWith(u, "https://") && |u| > 8
    requires forall c :: c in l ==> !IsPySpace(c)
    requires forall c :: c in u ==> !IsPySpace(c)
    ensures var x := u + "\">" + l + "</a>";
            Sub(Re(Url), UrlHtml, "<a href=\"" + x) == "<a href=\"" + ("<a href=\"" + x + "\">" + x + "</a>")
  {
    UrlPassSkipsHref(u + "\">" + l + "</a>");
    UrlWhole(l, u);
  }

  /** The URL pass on the link pass's `href` value and label. */
  lemma UrlWhole(l: string, u: string)
    requires StartsWith(u, "https://") && |u| > 8
    requires forall c :: c in l ==> !IsPySpace(c)
    requires forall c :: c in u ==> !IsPySpace(c)
    ensures var x := u + "\">" + l + "</a>";
            Sub(Re(Url), UrlHtml, x) == "<a href=\"" + x + "\">" + x + "</a>"
  {
    var x := u + "\">" + l + "</a>";
    assert forall c :: c in x ==> c in l || c in u || c in "\"></a";
    assert x[..|u|] == u;
    UrlPassWhole(x, u);
  }

  /** No bold or code delimiter appears in the twice-wrapped anchor. */
  lemma NoStarNoTick(l: string, u: string)
    requires forall c :: c in l ==> c != '*' && c != '`'
    requires forall c :: c in u ==> c != '*' && c != '`'
    ensures var x := u + "\">" + l + "</a>";
            var s := "<a href=\"" + ("<a href=\"" + x + "\">" + x + "</a>");
            '*' !in s && '`' !in s
  {
    var x := u + "\">" + l + "</a>";
    assert forall c :: c in x ==> c in l || c in u || c in "\"></a";
    var s := "<a href=\"" + ("<a href=\"" + x + "\">" + x + "</a>");
    assert forall c :: c in s ==> c in x || c in "<a href=\"></a";
  }

  /** The link pass turns a whole link into its anchor element. */
  lemma LinkPassOnLink(l: string, u: string)
    requires IsLabel(l) && IsTarget(u)
    ensures Sub(Re(Link), LinkHtml, LinkText(l, u)) == "<a href=\"" + (u + "\">" + l + "</a>")
  {
    LinkPassExpands(l, u);
    Regroup(Sub(Re(Link), LinkHtml, LinkText(l, u)), "<a href=\"", u, "\">", l, "</a>");
  }

  lemma Regroup(r: string, a: string, b: string, c: string, d: string, e: string)
    requires r == a + b + c + d + e
    ensures r == a + (b + c + d + e)
  {
    Assoc5(a, b, c, d, e);
  }

  lemma LinkPassExpands(l: string, u: string)
    requires IsLabel(l) && IsTarget(u)
    ensures Sub(Re(Link), LinkHtml, LinkText(l, u)) == "<a href=\"" + u + "\">" + l + "</a>"
  {
    var s := LinkText(l, u);
    assert StartsWith(s, s);
    LinkAtComplete(s, l, u);
    SubStepMatch(Re(Link), LinkHtml, s);
    assert s[|s|..] == [];
    ExpandFive(LinkHtml, [s, l, u]);
  }

  /** No URL starts inside the `<a href="` prefix. */
  lemma UrlPassSkipsHref(x: string)
    ensures Sub(Re(Url), UrlHtml, "<a href=\"" + x) == "<a href=\"" + Sub(Re(Url), UrlHtml, x)
  {
    NoUrlInHref(x);
    SubSkipPrefix(Re(Url), UrlHtml, "<a href=\"", x);
  }

  lemma NoUrlInHref(x: string)
    ensures forall k :: 0 <= k < 9 ==> Re(Url)(("<a href=\"" + x)[k..]).None?
  {
    var pre := "<a href=\"";
    var a := pre + x;
    forall k | 0 <= k < 9 ensures Re(Url)(a[k..]).None? {
      var t := a[k..];
      assert t[0] == pre[k];
      assert k == 3 ==> t[1] == 'r';
      UrlStartsWithHt(t);
    }
  }

  /** A space-free string starting with an http(s) URL is wrapped whole. */
  lemma UrlPassWhole(x: string, u: string)
    requires StartsWith(u, "https://") && |u| > 8 && |u| <= |x| && x[..|u|] == u
    requires forall c :: c in x ==> !IsPySpace(c)
    ensures Sub(Re(Url), UrlHtml, x) == "<a href=\"" + x + "\">" + x + "</a>"
  {
    NoSpaceIsOneUrl(x, u);
    SubStepMatch(Re(Url), UrlHtml, x);
    assert x[|x|..] == [];
    ExpandFive(UrlHtml, [x, x]);
  }

  /** `<a href="` g `">` g' `</a>` from a five-piece anchor template. */
  lemma ExpandFive(t: seq<Piece>, g: seq<string>)
    requires t == LinkHtml || t == UrlHtml
    requires |g| >= 3 || (t == UrlHtml && |g| == 2)
    ensures t == LinkHtml ==> Expand(t, g) == "<a href=\"" + g[2] + "\">" + g[1] + "</a>"
    ensures t == UrlHtml ==> Expand(t, g) == "<a href=\"" + g[1] + "\">" + g[1] + "</a>"
  {
    var t4 := t[1..][1..][1..][1..];
    assert t4[1..] == [];
    assert Expand(t4, g) == "</a>";
    assert Expand(t[1..][1..][1..], g) == g[1] + "</a>";
    assert Expand(t[1..][1..], g) == "\">" + g[1] + "</a>";
  }

  /** A space-free string starting with an http(s) scheme is matched whole. */
  lemma NoSpaceIsOneUrl(x: string, u: string)
    requires StartsWith(u, "https://") && |u| > 8 && |u| <= |x| && x[..|u|] == u
    requires forall c :: c in x ==> !IsPySpace(c)
    ensures MatchAt(Url, x) == Some(Match(|x|, [x, x]))
  {
    UrlAtSpec(x);
    assert x[..8] == u[..8];
    assert x[8] == u[8] && u[8] in x;
    assert forall i :: 0 <= i < |x| ==> x[i] in x;
    TakeWhileAll(x, c => !IsPySpace(c));
  }

  // ---------------------------------------------------------------- the line transducer

  /** The two list flags, `in_list` (bullets) and `in_ordered_list`. */
  datatype Flags = Flags(inList: bool, inOrdered: bool)

  const NoList := Flags(false, false)

  /** The lists are never open at the same time. */
  predicate Exclusive(f: Flags)
  {
    !(f.inList && f.inOrdered)
  }

  /** Closing whatever list is open: `</ul>` first, then `</ol>`. */
  function Close(f: Flags): seq<string>
  {
    (if f.inList then ["</ul>"] else []) + (if f.inOrdered then ["</ol>"] else [])
  }

  const TableOpen := "<table border=\"1\" " + "style=\"border-collapse: collapse; " + "width: 100%; margin: 10px 0;\">"
  const ThOpen := "<th style=\"padding: 8px; " + "background-color: #f0f0f0;\">"
  const TdOpen := "<td style=\"padding: 8px;\">"

  function HeadingHtml(level: nat, text: string, fmt: string -> string): string
  {
    "<h" + NatToString(level) + ">" + fmt(text) + "</h" + NatToString(level) + ">"
  }

  /** One element per cell, `open` + inline-formatted cell + `close`. */
  function CellsHtml(cells: seq<string>, open: string, close: string, fmt: string -> string): (r: seq<string>)
    ensures |r| == |cells|
  {
    if cells == [] then []
    else CellsHtml(cells[..|cells| - 1], open, close, fmt) + [open + fmt(cells[|cells| - 1]) + close]
  }

  /** A table row: nothing when it has no cells, else `<tr>`, the cells, `</tr>`. */
  function RowHtml(cells: seq<string>, open: string, close: string, fmt: string -> string): seq<string>
  {
    if cells == [] then [] else ["<tr>"] + CellsHtml(cells, open, close, fmt) + ["</tr>"]
  }

  /** A data row: the stripped line starts with `|` and the line has no `---`. */
  predicate IsDataRow(line: string)
  {
    IsTableRow(line) && !Contains(line, "---")
  }

  /** Where the run of data rows starting at j ends. */
  function DataEnd(lines: seq<string>, j: nat): (k: nat)
    requires j <= |lines|
    ensures j <= k <= |lines|
    ensures forall m :: j <= m < k ==> IsDataRow(lines[m])
    ensures k == |lines| || !IsDataRow(lines[k])
    decreases |lines| - j
  {
    if j < |lines| && IsDataRow(lines[j]) then DataEnd(lines, j + 1) else j
  }

  /** The `<td>` rows of the data rows from j on. */
  function DataRows(lines: seq<string>, j: nat, fmt: string -> string): seq<string>
    requires j <= |lines|
    decreases |lines| - j
  {
    if j < |lines| && IsDataRow(lines[j]) then RowHtml(Cells(lines[j]), TdOpen, "</td>", fmt) + DataRows(lines, j + 1, fmt)
    else []
  }

  /** Skips at most one delimiter line after the header row. */
  function AfterDelimiter(lines: seq<string>, j: nat): (k: nat)
    requires j <= |lines|
    ensures k == j || (j < |lines| && k == j + 1 && IsDelimiter(lines[j]))
    ensures k <= |lines|
  {
    if j < |lines| && IsDelimiter(lines[j]) then j + 1 else j
  }

  /** A line that starts a table block. */
  predicate StartsTable(line: string)
  {
    Classify(line).Other? && IsTableRow(line)
  }

  /** The output and the new flags for one line of the given kind that does not start a table. */
  function KindHtml(kind: LineKind, line: string, f: Flags, fmt: string -> string): (seq<string>, Flags)
  {
    match kind
    case Blank => (Close(f) + ["<br>"], NoList)
    case Heading(k, t) => ([HeadingHtml(k, t, fmt)], f)
    case Rule => (["<hr>"], f)
    case Ordered(_, t) =>
      ((if f.inOrdered then [] else (if f.inList then ["</ul>"] else []) + ["<ol>"])
         + ["<li>" + fmt(t) + "</li>"],
       Flags(if f.inOrdered then f.inList else false, true))
    case Bullet(t) =>
      ((if f.inList then [] else (if f.inOrdered then ["</ol>"] else []) + ["<ul>"])
         + ["<li>" + fmt(t) + "</li>"],
       Flags(true, if f.inList then f.inOrdered else false))
    case Other => (Close(f) + ["<p>" + fmt(line) + "</p>"], NoList)
  }

  /** No line opens a second list while one is open. */
  lemma KindExclusive(kind: LineKind, line: string, f: Flags, fmt: string -> string)
    requires Exclusive(f)
    ensures Exclusive(KindHtml(kind, line, f, fmt).1)
  {
  }

  function LineHtml(line: string, f: Flags, fmt: string -> string): (seq<string>, Flags)
  {
    KindHtml(Classify(line), line, f, fmt)
  }

  /** The table block starting at line i: the header row, then the data rows. */
  function TableHtml(lines: seq<string>, i: nat, fmt: string -> string): seq<string>
    requires i < |lines|
  {
    [TableOpen, "<tbody>"] + RowHtml(Cells(lines[i]), ThOpen, "</th>", fmt)
      + DataRows(lines, AfterDelimiter(lines, i + 1), fmt) + ["</tbody>", "</table>"]
  }

  /** The output lines for lines[i..], entered with flags f. */
  function Render(lines: seq<string>, i: nat, f: Flags, fmt: string -> string): seq<string>
    requires i <= |lines|
    decreases |lines| - i
  {
    if i == |lines| then Close(f)
    else if StartsTable(lines[i]) then
      Close(f) + TableHtml(lines, i, fmt) + Render(lines, DataEnd(lines, AfterDelimiter(lines, i + 1)), NoList, fmt)
    else
      LineHtml(lines[i], f, fmt).0 + Render(lines, i + 1, LineHtml(lines[i], f, fmt).1, fmt)
  }

  /** Render on a line that does not start a table. */
  lemma RenderLine(lines: seq<string>, i: nat, f: Flags, fmt: string -> string)
    requires i < |lines| && !StartsTable(lines[i])
    ensures Render(lines, i, f, fmt) == LineHtml(lines[i], f, fmt).0 + Render(lines, i + 1, LineHtml(lines[i], f, fmt).1, fmt)
  {
  }

  /** Render on a line that starts a table. */
  lemma RenderTable(lines: seq<string>, i: nat, f: Flags, fmt: string -> string)
    requires i < |lines| && StartsTable(lines[i])
    ensures Render(lines, i, f, fmt)
         == Close(f) + TableHtml(lines, i, fmt) + Render(lines, DataEnd(lines, AfterDelimiter(lines, i + 1)), NoList, fmt)
  {
  }

  // ---------------------------------------------------------------- the method

  /** Appends one table row: `<tr>`, the cells, `</tr>`. */
  method AppendRow(html: seq<string>, cells: seq<string>, open: string, close: string, fmt: string -> string)
    returns (r: seq<string>)
    ensures r == html + RowHtml(cells, open, close, fmt)
  {
    r := html;
    if cells != [] {
      r := AppendCells(r + ["<tr>"], cells, open, close, fmt);
      r := r + ["</tr>"];
    }
  }

  /** Appends the cells of a row, one by one. */
  method AppendCells(html: seq<string>, cells: seq<string>, open: string, close: string, fmt: string -> string)
    returns (r: seq<string>)
    ensures r == html + CellsHtml(cells, open, close, fmt)
  {
    r := html;
    for k := 0 to |cells|
      invariant r == html + CellsHtml(cells[..k], open, close, fmt)
    {
      assert cells[..k + 1][..k] == cells[..k];
      r := r + [open + fmt(cells[k]) + close];
    }
    assert cells[..|cells|] == cells;
  }

  /** One pass of the loop body for a line that does not start a table. */
  method EmitLine(html: seq<string>, line: string, kind: LineKind, f: Flags, fmt: string -> string)
    returns (out: seq<string>, g: Flags)
    ensures out == html + KindHtml(kind, line, f, fmt).0 && g == KindHtml(kind, line, f, fmt).1
  {
    var inList, inOrdered := f.inList, f.inOrdered;
    out := html;
    match kind {
      case Blank =>
        if inList { out := out + ["</ul>"]; inList := false; }
        if inOrdered { out := out + ["</ol>"]; inOrdered := false; }
        out := out + ["<br>"];
      case Heading(level, text) =>
        out := out + [HeadingHtml(level, text, fmt)];
      case Rule =>
        out := out + ["<hr>"];
      case Ordered(_, text) =>
        if !inOrdered {
          if inList { out := out + ["</ul>"]; inList := false; }
          out := out + ["<ol>"];
          inOrdered := true;
        }
        out := out + ["<li>" + fmt(text) + "</li>"];
      case Bullet(text) =>
        if !inList {
          if inOrdered { out := out + ["</ol>"]; inOrdered := false; }
          out := out + ["<ul>"];
          inList := true;
        }
        out := out + ["<li>" + fmt(text) + "</li>"];
      case Other =>
        if inList { out := out + ["</ul>"]; inList := false; }
        if inOrdered { out := out + ["</ol>"]; inOrdered := false; }
        out := out + ["<p>" + fmt(line) + "</p>"];
    }
    g := Flags(inList, inOrdered);
  }

  /** The data-row loop of the table branch: appends the rows from j on and
      returns the index of the first line after them. */
  method AppendDataRows(html: seq<string>, lines: seq<string>, j: nat, fmt: string -> string)
    returns (out: seq<string>, next: nat)
    requires j <= |lines|
    ensures next == DataEnd(lines, j)
    ensures out == html + DataRows(lines, j, fmt)
  {
    out := html;
    next := j;
    while next < |lines| && IsDataRow(lines[next])
      invariant j <= next <= |lines|
      invariant DataEnd(lines, next) == DataEnd(lines, j)
      invariant out + DataRows(lines, next, fmt) == html + DataRows(lines, j, fmt)
      decreases |lines| - next
    {
      var row := RowHtml(Cells(lines[next]), TdOpen, "</td>", fmt);
      assert DataRows(lines, next, fmt) == row + DataRows(lines, next + 1, fmt);
      AppendAssoc(out, row, DataRows(lines, next + 1, fmt));
      out := AppendRow(out, Cells(lines[next]), TdOpen, "</td>", fmt);
      next := next + 1;
    }
    assert DataRows(lines, next, fmt) == [];
  }

  /** The table branch of the loop body: header row, optional delimiter, data rows. */
  method EmitTable(html: seq<string>, lines: seq<string>, i: nat, f: Flags, fmt: string -> string)
    returns (out: seq<string>, next: nat)
    requires i < |lines|
    ensures next == DataEnd(lines, AfterDelimiter(lines, i + 1))
    ensures out == html + Close(f) + TableHtml(lines, i, fmt)
  {
    out := html;
    if f.inList { out := out + ["</ul>"]; }
    if f.inOrdered { out := out + ["</ol>"]; }
    var closed := out;
    assert closed == html + Close(f);
    out := out + [TableOpen, "<tbody>"];
    var header := RowHtml(Cells(lines[i]), ThOpen, "</th>", fmt);
    out := AppendRow(out, Cells(lines[i]), ThOpen, "</th>", fmt);
    var j := i + 1;
    if j < |lines| && IsDelimiter(lines[j]) {
      j := j + 1;
    }
    assert j == AfterDelimiter(lines, i + 1);
    out, next := AppendDataRows(out, lines, j, fmt);
    out := out + ["</tbody>", "</table>"];
    var rows := DataRows(lines, j, fmt);
    assert out == closed + [TableOpen, "<tbody>"] + header + rows + ["</tbody>", "</table>"];
    assert TableHtml(lines, i, fmt) == [TableOpen, "<tbody>"] + header + rows + ["</tbody>", "</table>"];
    Assoc5(closed, [TableOpen, "<tbody>"], header, rows, ["</tbody>", "</table>"]);
  }

  /** One iteration of the loop of `markdown_to_html`: a table block or one line. */
  method Step(html: seq<string>, lines: seq<string>, i: nat, f: Flags, fmt: string -> string)
    returns (out: seq<string>, next: nat, g: Flags)
    requires i < |lines| && Exclusive(f)
    ensures i < next <= |lines| && Exclusive(g)
    ensures out + Render(lines, next, g, fmt) == html + Render(lines, i, f, fmt)
  {
    var line := lines[i];
    var kind := Classify(line);
    assert LineHtml(line, f, fmt) == KindHtml(kind, line, f, fmt);
    if kind.Other? && IsTableRow(line) {
      out, next := EmitTable(html, lines, i, f, fmt);
      g := NoList;
      RenderTable(lines, i, f, fmt);
      AppendAssoc(html, Close(f), TableHtml(lines, i, fmt));
      AppendAssoc(html, Close(f) + TableHtml(lines, i, fmt), Render(lines, next, NoList, fmt));
    } else {
      out, g := EmitLine(html, line, kind, f, fmt);
      KindExclusive(kind, line, f, fmt);
      next := i + 1;
      RenderLine(lines, i, f, fmt);
      AppendAssoc(html, LineHtml(line, f, fmt).0, Render(lines, i + 1, g, fmt));
    }
  }

  /** The loop of `markdown_to_html`, with the inline formatter as a parameter. */
  method Transduce(lines: seq<string>, fmt: string -> string) returns (html: seq<string>)
    ensures html == Render(lines, 0, NoList, fmt)
  {
    html := [];
    var f := NoList;
    var i := 0;
    while i < |lines|
      invariant 0 <= i <= |lines| && Exclusive(f)
      invariant html + Render(lines, i, f, fmt) == Render(lines, 0, NoList, fmt)
      decreases |lines| - i
    {
      html, i, f := Step(html, lines, i, f, fmt);
    }
    html := html + Close(f);
  }

  /** `markdown_to_html`: split into lines, transduce, join with newlines. */
  method MarkdownToHtml(mdText: string) returns (result: string)
    ensures result == Join(Render(Split(mdText, '\n'), 0, NoList, ProcessInline), "\n")
  {
    var html := Transduce(Split(mdText, '\n'), ProcessInline);
    result := Join(html, "\n");
  }
}
