/**
 * What the transducer of convert_md_to_html.py guarantees about its lists:
 * at most one list is open, every `<ul>`/`<ol>` it opens it also closes, and
 * blank lines, headings and rules treat the open list as the source does.
 */
module MdToHtmlProps {
  import opened Wrappers
  import opened Strings
  import opened Seqs
  import opened MdLines
  import opened MdToHtml

  /** `<ul>`, `</ul>`, `<ol>`, `</ol>`. */
  predicate IsListTag(x: string)
  {
    x == "<ul>" || x == "</ul>" || x == "<ol>" || x == "</ol>"
  }

  /** An element that starts with a tag other than a list tag. */
  predicate Plain(x: string)
  {
    |x| >= 3 && x[0] == '<'
    && (x[1] in "tlhpb" || (x[1] == '/' && x[2] == 't'))
  }

  lemma PlainIsNoListTag(x: string)
    requires Plain(x)
    ensures !IsListTag(x)
  {
  }

  /** The fixed table elements are plain. */
  lemma TableTagsPlain()
    ensures Plain(ThOpen) && Plain(TdOpen) && Plain(TableOpen)
    ensures Plain("<tbody>") && Plain("</tbody>") && Plain("</table>")
  {
  }

  lemma PlainExtend(a: string, b: string)
    requires Plain(a)
    ensures Plain(a + b)
  {
    assert (a + b)[..3] == a[..3];
    assert (a + b)[1] == a[1] && (a + b)[2] == a[2];
  }

  /** A list tag occurs nowhere in a sequence of plain elements. */
  lemma {:induction false} NoTagInPlain(xs: seq<string>, tag: string)
    requires IsListTag(tag)
    requires forall k :: 0 <= k < |xs| ==> Plain(xs[k])
    ensures Occurrences(xs, tag) == 0
  {
    if xs != [] {
      PlainIsNoListTag(xs[0]);
      NoTagInPlain(xs[1..], tag);
    }
  }

  lemma {:induction false} CellsPlain(cells: seq<string>, open: string, close: string, fmt: string -> string)
    requires Plain(open)
    ensures forall k :: 0 <= k < |CellsHtml(cells, open, close, fmt)| ==> Plain(CellsHtml(cells, open, close, fmt)[k])
  {
    if cells != [] {
      var n := |cells| - 1;
      CellsPlain(cells[..n], open, close, fmt);
      AppendAssoc(open, fmt(cells[n]), close);
      PlainExtend(open, fmt(cells[n]) + close);
    }
  }

  lemma RowPlain(cells: seq<string>, open: string, close: string, fmt: string -> string)
    requires Plain(open)
    ensures forall k :: 0 <= k < |RowHtml(cells, open, close, fmt)| ==> Plain(RowHtml(cells, open, close, fmt)[k])
  {
    CellsPlain(cells, open, close, fmt);
    var c := CellsHtml(cells, open, close, fmt);
    if cells != [] {
      assert RowHtml(cells, open, close, fmt) == ["<tr>"] + c + ["</tr>"];
      assert forall k :: 0 < k <= |c| ==> (["<tr>"] + c + ["</tr>"])[k] == c[k - 1];
    }
  }

  lemma {:induction false} DataRowsPlain(lines: seq<string>, j: nat, fmt: string -> string)
    requires j <= |lines|
    ensures forall k :: 0 <= k < |DataRows(lines, j, fmt)| ==> Plain(DataRows(lines, j, fmt)[k])
    decreases |lines| - j
  {
    if j < |lines| && IsDataRow(lines[j]) {
      TableTagsPlain();
      RowPlain(Cells(lines[j]), TdOpen, "</td>", fmt);
      DataRowsPlain(lines, j + 1, fmt);
      AllPlainAppend(RowHtml(Cells(lines[j]), TdOpen, "</td>", fmt), DataRows(lines, j + 1, fmt));
    }
  }

  predicate AllPlain(xs: seq<string>)
  {
    forall k :: 0 <= k < |xs| ==> Plain(xs[k])
  }

  lemma AllPlainAppend(a: seq<string>, b: seq<string>)
    requires AllPlain(a) && AllPlain(b)
    ensures AllPlain(a + b)
  {
    assert forall k :: |a| <= k < |a| + |b| ==> (a + b)[k] == b[k - |a|];
  }

  /** Cell k of a row becomes `open` + the formatted cell + `close`. */
  lemma {:induction false} CellsHtmlSpec(cells: seq<string>, open: string, close: string, fmt: string -> string)
    ensures forall k :: 0 <= k < |cells| ==> CellsHtml(cells, open, close, fmt)[k] == open + fmt(cells[k]) + close
  {
    if cells != [] {
      var n := |cells| - 1;
      CellsHtmlSpec(cells[..n], open, close, fmt);
      assert forall k :: 0 <= k < n ==> cells[..n][k] == cells[k];
    }
  }

  /** A table block holds no list tag. */
  lemma TableHasNoListTag(lines: seq<string>, i: nat, fmt: string -> string, tag: string)
    requires i < |lines| && IsListTag(tag)
    ensures Occurrences(TableHtml(lines, i, fmt), tag) == 0
  {
    var header := RowHtml(Cells(lines[i]), ThOpen, "</th>", fmt);
    var rows := DataRows(lines, AfterDelimiter(lines, i + 1), fmt);
    TableTagsPlain();
    RowPlain(Cells(lines[i]), ThOpen, "</th>", fmt);
    DataRowsPlain(lines, AfterDelimiter(lines, i + 1), fmt);
    NoTagInPlain(header, tag);
    NoTagInPlain(rows, tag);
    NoTagInPlain([TableOpen, "<tbody>"], tag);
    NoTagInPlain(["</tbody>", "</table>"], tag);
    OccurrencesAppend([TableOpen, "<tbody>"] + header + rows, ["</tbody>", "</table>"], tag);
    OccurrencesAppend([TableOpen, "<tbody>"] + header, rows, tag);
    OccurrencesAppend([TableOpen, "<tbody>"], header, tag);
  }

  function Bit(b: bool): nat
  {
    if b then 1 else 0
  }

  /** The opening and closing counts of `open`/`close` in xs account for the
      flag moving from a to b: net closes equal the flag's drop. */
  predicate Balances(xs: seq<string>, open: string, close: string, a: bool, b: bool)
  {
    Occurrences(xs, open) + Bit(a) == Occurrences(xs, close) + Bit(b)
  }

  /** Both list kinds balance when the flags move from f to g. */
  predicate BothBalance(xs: seq<string>, f: Flags, g: Flags)
  {
    Balances(xs, "<ul>", "</ul>", f.inList, g.inList)
    && Balances(xs, "<ol>", "</ol>", f.inOrdered, g.inOrdered)
  }

  lemma BothAppend(a: seq<string>, b: seq<string>, f: Flags, g: Flags, h: Flags)
    requires BothBalance(a, f, g) && BothBalance(b, g, h)
    ensures BothBalance(a + b, f, h)
  {
    OccurrencesAppend(a, b, "<ul>");
    OccurrencesAppend(a, b, "</ul>");
    OccurrencesAppend(a, b, "<ol>");
    OccurrencesAppend(a, b, "</ol>");
  }

  lemma PlainBalance(xs: seq<string>, f: Flags)
    requires forall k :: 0 <= k < |xs| ==> Plain(xs[k])
    ensures BothBalance(xs, f, f)
  {
    NoTagInPlain(xs, "<ul>");
    NoTagInPlain(xs, "</ul>");
    NoTagInPlain(xs, "<ol>");
    NoTagInPlain(xs, "</ol>");
  }

  lemma EmptyBalance(f: Flags)
    ensures BothBalance([], f, f)
  {
  }

  lemma SingleOcc(x: string, tag: string)
    ensures Occurrences([x], tag) == if x == tag then 1 else 0
  {
    assert [x][1..] == [];
  }

  lemma TagBalance(x: string, f: Flags)
    requires IsListTag(x)
    ensures x == "</ul>" ==> BothBalance([x], Flags(true, f.inOrdered), Flags(false, f.inOrdered))
    ensures x == "<ul>" ==> BothBalance([x], Flags(false, f.inOrdered), Flags(true, f.inOrdered))
    ensures x == "</ol>" ==> BothBalance([x], Flags(f.inList, true), Flags(f.inList, false))
    ensures x == "<ol>" ==> BothBalance([x], Flags(f.inList, false), Flags(f.inList, true))
  {
    SingleOcc(x, "<ul>");
    SingleOcc(x, "</ul>");
    SingleOcc(x, "<ol>");
    SingleOcc(x, "</ol>");
  }

  /** Closing the open lists brings the flags down to none. */
  lemma CloseBalance(f: Flags)
    ensures BothBalance(Close(f), f, NoList)
  {
    var mid := Flags(false, f.inOrdered);
    var a := if f.inList then ["</ul>"] else [];
    var b := if f.inOrdered then ["</ol>"] else [];
    if f.inList { TagBalance("</ul>", f); } else { EmptyBalance(f); }
    if f.inOrdered { TagBalance("</ol>", mid); } else { EmptyBalance(mid); }
    BothAppend(a, b, f, mid, NoList);
  }

  lemma ItemPlain(t: string)
    ensures Plain("<li>" + t + "</li>")
  {
    AppendAssoc("<li>", t, "</li>");
    PlainExtend("<li>", t + "</li>");
  }

  /** One line that starts no table: the output balances the flag change,
      and the new flags are exclusive again. */
  lemma KindBalances(kind: LineKind, line: string, f: Flags, fmt: string -> string)
    requires Exclusive(f)
    ensures BothBalance(KindHtml(kind, line, f, fmt).0, f, KindHtml(kind, line, f, fmt).1)
  {
    match kind
    case Blank =>
      CloseBalance(f);
      PlainBalance(["<br>"], NoList);
      BothAppend(Close(f), ["<br>"], f, NoList, NoList);
    case Heading(k, t) =>
      var h := HeadingHtml(k, t, fmt);
      assert h[0] == '<' && h[1] == 'h' && |h| >= 3;
      PlainBalance([h], f);
    case Rule =>
      PlainBalance(["<hr>"], f);
    case Ordered(_, t) =>
      ItemPlain(fmt(t));
      OrderedBalance("<li>" + fmt(t) + "</li>", f);
    case Bullet(t) =>
      ItemPlain(fmt(t));
      BulletBalance("<li>" + fmt(t) + "</li>", f);
    case Other =>
      var p := "<p>" + fmt(line) + "</p>";
      AppendAssoc("<p>", fmt(line), "</p>");
      PlainExtend("<p>", fmt(line) + "</p>");
      CloseBalance(f);
      PlainBalance([p], NoList);
      BothAppend(Close(f), [p], f, NoList, NoList);
  }

  lemma OrderedBalance(item: string, f: Flags)
    requires Exclusive(f) && Plain(item)
    ensures var g := Flags(if f.inOrdered then f.inList else false, true);
      BothBalance((if f.inOrdered then [] else (if f.inList then ["</ul>"] else []) + ["<ol>"]) + [item], f, g)
  {
    var g := Flags(if f.inOrdered then f.inList else false, true);
    PlainBalance([item], g);
    if f.inOrdered {
      EmptyBalance(f);
      BothAppend([], [item], f, g, g);
    } else {
      var mid := Flags(false, false);
      var a := if f.inList then ["</ul>"] else [];
      if f.inList { TagBalance("</ul>", f); } else { EmptyBalance(f); }
      TagBalance("<ol>", mid);
      BothAppend(a, ["<ol>"], f, mid, g);
      BothAppend(a + ["<ol>"], [item], f, g, g);
    }
  }

  lemma BulletBalance(item: string, f: Flags)
    requires Exclusive(f) && Plain(item)
    ensures var g := Flags(true, if f.inList then f.inOrdered else false);
      BothBalance((if f.inList then [] else (if f.inOrdered then ["</ol>"] else []) + ["<ul>"]) + [item], f, g)
  {
    var g := Flags(true, if f.inList then f.inOrdered else false);
    PlainBalance([item], g);
    if f.inList {
      EmptyBalance(f);
      BothAppend([], [item], f, g, g);
    } else {
      var mid := Flags(false, false);
      var a := if f.inOrdered then ["</ol>"] else [];
      if f.inOrdered { TagBalance("</ol>", f); } else { EmptyBalance(f); }
      TagBalance("<ul>", mid);
      BothAppend(a, ["<ul>"], f, mid, g);
      BothAppend(a + ["<ul>"], [item], f, g, g);
    }
  }

  /** The table block balances with the flags already closed. */
  lemma TableBalance(lines: seq<string>, i: nat, fmt: string -> string)
    requires i < |lines|
    ensures BothBalance(TableHtml(lines, i, fmt), NoList, NoList)
  {
    TableHasNoListTag(lines, i, fmt, "<ul>");
    TableHasNoListTag(lines, i, fmt, "</ul>");
    TableHasNoListTag(lines, i, fmt, "<ol>");
    TableHasNoListTag(lines, i, fmt, "</ol>");
  }

  /** Every `<ul>` and `<ol>` the transducer opens from line i on is closed, and
      the lists open on entry are closed as well. */
  lemma {:induction false} RenderBalances(lines: seq<string>, i: nat, f: Flags, fmt: string -> string)
    requires i <= |lines| && Exclusive(f)
    ensures BothBalance(Render(lines, i, f, fmt), f, NoList)
    decreases |lines| - i
  {
    if i == |lines| {
      CloseBalance(f);
    } else if StartsTable(lines[i]) {
      RenderTable(lines, i, f, fmt);
      var next := DataEnd(lines, AfterDelimiter(lines, i + 1));
      RenderBalances(lines, next, NoList, fmt);
      CloseBalance(f);
      TableBalance(lines, i, fmt);
      BothAppend(Close(f), TableHtml(lines, i, fmt), f, NoList, NoList);
      BothAppend(Close(f) + TableHtml(lines, i, fmt), Render(lines, next, NoList, fmt), f, NoList, NoList);
    } else {
      RenderLine(lines, i, f, fmt);
      var (o, g) := LineHtml(lines[i], f, fmt);
      KindBalances(Classify(lines[i]), lines[i], f, fmt);
      KindExclusive(Classify(lines[i]), lines[i], f, fmt);
      RenderBalances(lines, i + 1, g, fmt);
      BothAppend(o, Render(lines, i + 1, g, fmt), f, g, NoList);
    }
  }

  /** The whole output has as many `</ul>` as `<ul>` and as many `</ol>` as `<ol>`. */
  lemma ListsBalanced(lines: seq<string>, fmt: string -> string)
    ensures var out := Render(lines, 0, NoList, fmt);
      Occurrences(out, "<ul>") == Occurrences(out, "</ul>")
      && Occurrences(out, "<ol>") == Occurrences(out, "</ol>")
  {
    RenderBalances(lines, 0, NoList, fmt);
  }

  // ---------------------------------------------------------------- single lines

  /** A whitespace-only line closes the open lists and emits one `<br>`. */
  lemma BlankLine(line: string, f: Flags, fmt: string -> string)
    requires IsBlank(line)
    ensures !StartsTable(line)
    ensures LineHtml(line, f, fmt) == (Close(f) + ["<br>"], NoList)
  {
  }

  /** A `k`-level heading prefix gives an `<hk>` element of the stripped rest,
      inside whatever list is open. */
  lemma HeadingLine(line: string, k: nat, f: Flags, fmt: string -> string)
    requires 1 <= k <= 4 && StartsWith(line, Hashes(k))
    ensures !StartsTable(line)
    ensures LineHtml(line, f, fmt) == ([HeadingHtml(k, PyStrip(line[k + 1..]), fmt)], f)
  {
    assert line[0] == Hashes(k)[0] == '#';
    StripKeepsHead(line);
    HeadingOfSpec(line);
    var r := HeadingOf(line);
    HeadingLevelUnique(line, r.value.0, k);
  }

  /** A line that strips to `---` gives `<hr>`, inside whatever list is open. */
  lemma RuleLine(line: string, f: Flags, fmt: string -> string)
    requires PyStrip(line) == "---"
    ensures !StartsTable(line)
    ensures LineHtml(line, f, fmt) == (["<hr>"], f)
  {
    if line != [] && !IsPySpace(line[0]) {
      StripKeepsHead(line);
      assert line[0] == '-';
    }
    NoHashNoHeading(line);
  }

  /** An ordered item gives `<li>` of group 2, opening an `<ol>` (after closing
      an open `<ul>`) when none is open. */
  lemma OrderedLine(line: string, n: string, t: string, f: Flags, fmt: string -> string)
    requires OrderedMatch(line) == Some((n, t))
    ensures !StartsTable(line)
    ensures LineHtml(line, f, fmt)
      == ((if f.inOrdered then [] else (if f.inList then ["</ul>"] else []) + ["<ol>"]) + ["<li>" + fmt(t) + "</li>"],
          Flags(f.inOrdered && f.inList, true))
  {
    OrderedStartsWithDigit(line);
    StripKeepsHead(line);
    NoHashNoHeading(line);
    assert PyStrip(line) != "---" by {
      assert PyStrip(line)[0] == line[0];
    }
    assert Classify(line) == Ordered(n, t);
  }

  /** A `- ` item gives `<li>` of the stripped rest, opening a `<ul>` (after
      closing an open `<ol>`) when none is open. */
  lemma BulletLine(line: string, f: Flags, fmt: string -> string)
    requires StartsWith(line, "- ")
    ensures !StartsTable(line)
    ensures LineHtml(line, f, fmt)
      == ((if f.inList then [] else (if f.inOrdered then ["</ol>"] else []) + ["<ul>"]) + ["<li>" + fmt(PyStrip(line[2..])) + "</li>"],
          Flags(true, f.inList && f.inOrdered))
  {
    assert line[0] == '-' && line[1] == ' ';
    StripKeepsHead(line);
    var r := PyStrip(line);
    assert |r| >= 2 ==> r[1] == ' ';
    NoHashNoHeading(line);
    BulletIsNotOrdered(line);
  }
}
