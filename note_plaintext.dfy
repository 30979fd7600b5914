/**
 * convert_to_note_format.py: `markdown_to_note_plaintext`, a per-line rewriter
 * into plain text for the note editor, and `remove_markdown_formatting`,
 * three regular-expression substitutions.
 */
module NotePlaintext {
  import opened Wrappers
  import opened Strings
  import opened Seqs
  import opened MdLines
  import opened MdInline

  // ---------------------------------------------------------------- inline markup

  /** `\1` */
  const InnerText := [Group(1)]

  /** `remove_markdown_formatting`: links become `l (u)`, then the `**` of bold
      spans and the backticks of code spans are dropped. */
  function RemoveFormatting(text: string): string
  {
    Sub(Re(Code), InnerText, Sub(Re(Bold), InnerText, Sub(Re(Link), LinkAsText, text)))
  }

  lemma CodeGone(text: string)
    requires '`' !in text
    ensures Sub(Re(Code), InnerText, text) == text
  {
    SubWithoutAnchor(Code, InnerText, text);
  }

  lemma BoldGone(text: string)
    requires '*' !in text
    ensures Sub(Re(Bold), InnerText, text) == text
  {
    SubWithoutAnchor(Bold, InnerText, text);
  }

  lemma LinkGone(text: string)
    requires '[' !in text
    ensures Sub(Re(Link), LinkAsText, text) == text
  {
    SubWithoutAnchor(Link, LinkAsText, text);
  }

  /** Text without `[`, `*` or backticks is left as it is. */
  lemma PlainTextKept(text: string)
    requires '[' !in text && '*' !in text && '`' !in text
    ensures RemoveFormatting(text) == text
  {
    CodeGone(text);
    BoldGone(text);
    LinkGone(text);
  }

  /** A whole link `[l](u)` becomes `l (u)`. */
  lemma LinkBecomesText(l: string, u: string)
    requires IsLabel(l) && IsTarget(u)
    requires forall c :: c in l ==> c != '*' && c != '`'
    requires forall c :: c in u ==> c != '*' && c != '`'
    ensures RemoveFormatting(LinkText(l, u)) == l + " (" + u + ")"
  {
    LinkTextHasNoSpanMarks(l, u);
    CodeGone(l + " (" + u + ")");
    BoldGone(l + " (" + u + ")");
    LinkPassAsText(l, u);
  }

  lemma LinkTextHasNoSpanMarks(l: string, u: string)
    requires forall c :: c in l ==> c != '*' && c != '`'
    requires forall c :: c in u ==> c != '*' && c != '`'
    ensures '*' !in l + " (" + u + ")" && '`' !in l + " (" + u + ")"
  {
    var r := l + " (" + u + ")";
    assert forall c :: c in r ==> c in l || c in u || c in " ()";
  }

  lemma LinkPassAsText(l: string, u: string)
    requires IsLabel(l) && IsTarget(u)
    ensures Sub(Re(Link), LinkAsText, LinkText(l, u)) == l + " (" + u + ")"
  {
    var s := LinkText(l, u);
    assert StartsWith(s, s);
    LinkAtComplete(s, l, u);
    SubStepMatch(Re(Link), LinkAsText, s);
    assert s[|s|..] == [];
    ExpandLinkAsText([s, l, u]);
  }

  /** A whole bold span `**t**` loses its markers. */
  lemma BoldBecomesText(t: string)
    requires t != [] && '*' !in t && '[' !in t && '`' !in t
    ensures RemoveFormatting("**" + t + "**") == t
  {
    var s := "**" + t + "**";
    assert forall c :: c in s ==> c in t || c == '*';
    LinkGone(s);
    BoldPass(t);
    CodeGone(t);
  }

  lemma BoldPass(t: string)
    requires t != [] && '*' !in t
    ensures Sub(Re(Bold), InnerText, "**" + t + "**") == t
  {
    var d := "**";
    var s := d + t + d;
    assert StartsWith(s, d + t + d) by { assert s[..|s|] == s; }
    SpanAtComplete(d, '*', s, t);
    var m := Match(2 * |d| + |t|, [s, t]);
    assert m.len == |s|;
    assert Re(Bold)(s) == MatchAt(Bold, s) == Some(m);
    SubStepMatch(Re(Bold), InnerText, s);
    assert s[m.len..] == [];
    assert Sub(Re(Bold), InnerText, []) == "";
    ExpandGroupOne([s, t]);
    assert Sub(Re(Bold), InnerText, s) == t + "";
  }

  /** The characters kept by every pass: all but brackets, `*`, backticks and spaces. */
  predicate Kept(c: char)
  {
    c !in "[]*` "
  }

  /** The link pass only deletes brackets and inserts a space, and the span
      passes only delete their delimiters: every other character survives, in order. */
  lemma FormattingKeepsText(text: string)
    ensures Filter(RemoveFormatting(text), Kept) == Filter(text, Kept)
  {
    var a := Sub(Re(Link), LinkAsText, text);
    var b := Sub(Re(Bold), InnerText, a);
    LinkPassKeeps(text);
    BoldPassKeeps(a);
    CodePassKeeps(b);
  }

  lemma LinkPassKeeps(text: string)
    ensures Filter(Sub(Re(Link), LinkAsText, text), Kept) == Filter(text, Kept)
  {
    LinkToTextKeepsText(text);
    FilterRefine(Sub(Re(Link), LinkAsText, text), text, c => c !in "[] ", Kept);
  }

  lemma BoldPassKeeps(text: string)
    ensures Filter(Sub(Re(Bold), InnerText, text), Kept) == Filter(text, Kept)
  {
    SpanRemovalKeepsText("**", '*', text);
    FilterRefine(Sub(Re(Bold), InnerText, text), text, c => c != '*', Kept);
  }

  lemma CodePassKeeps(text: string)
    ensures Filter(Sub(Re(Code), InnerText, text), Kept) == Filter(text, Kept)
  {
    SpanRemovalKeepsText("`", '`', text);
    FilterRefine(Sub(Re(Code), InnerText, text), text, c => c != '`', Kept);
  }

  // ---------------------------------------------------------------- lines

  /** The separator that replaces a `---` rule: 39 heavy horizontal lines. */
  const Separator := Repeat('━', 39)

  /** The output lines for one input line, testing in the source's order;
      fmt is the inline rewrite. */
  function LineOut(line: string, fmt: string -> string): seq<string>
  {
    if IsBlank(line) then [""]
    else if HeadingOf(line).Some? then [fmt(HeadingOf(line).value.1), ""]
    else if PyStrip(line) == "---" then ["", Separator, ""]
    else if StartsWith(line, "- ") then ["・" + fmt(PyStrip(line[2..]))]
    else if OrderedMatch(line).Some? then
      [OrderedMatch(line).value.0 + ". " + fmt(OrderedMatch(line).value.1)]
    else if StartsWith(PyStrip(line), "|") && !Contains(line, "---") then []
    else if IsDelimiter(line) then []
    else [fmt(line)]
  }

  /** The output lines for a sequence of input lines. */
  function Convert(lines: seq<string>, fmt: string -> string): seq<string>
  {
    if lines == [] then [] else Convert(lines[..|lines| - 1], fmt) + LineOut(lines[|lines| - 1], fmt)
  }

  /** No state is carried between lines: converting a concatenation converts
      each part on its own. */
  lemma {:induction false} ConvertAppend(a: seq<string>, b: seq<string>, fmt: string -> string)
    ensures Convert(a + b, fmt) == Convert(a, fmt) + Convert(b, fmt)
    decreases |b|
  {
    if b == [] {
      assert a + b == a;
    } else {
      var n := |b| - 1;
      assert (a + b)[..|a + b| - 1] == a + b[..n];
      ConvertAppend(a, b[..n], fmt);
      AppendAssoc(Convert(a, fmt), Convert(b[..n], fmt), LineOut(b[n], fmt));
    }
  }

  lemma ConvertOne(line: string, fmt: string -> string)
    ensures Convert([line], fmt) == LineOut(line, fmt)
  {
    assert [line][..0] == [];
  }

  /** One pass of the loop of `markdown_to_note_plaintext`: the lines a
      single input line appends. */
  method AppendLineOut(output: seq<string>, line: string, fmt: string -> string) returns (r: seq<string>)
    ensures r == output + LineOut(line, fmt)
  {
    r := output;
    if IsBlank(line) {
      r := r + [""];
    } else if HeadingOf(line).Some? {
      r := r + [fmt(HeadingOf(line).value.1)];
      r := r + [""];
    } else if PyStrip(line) == "---" {
      r := r + [""];
      r := r + [Separator];
      r := r + [""];
    } else if StartsWith(line, "- ") {
      r := r + ["・" + fmt(PyStrip(line[2..]))];
    } else if OrderedMatch(line).Some? {
      var (num, text) := OrderedMatch(line).value;
      r := r + [num + ". " + fmt(text)];
    } else if StartsWith(PyStrip(line), "|") && !Contains(line, "---") {
    } else if IsDelimiter(line) {
    } else {
      r := r + [fmt(line)];
    }
  }

  /** The loop of `markdown_to_note_plaintext`, with the inline rewrite as a parameter. */
  method ConvertLines(lines: seq<string>, fmt: string -> string) returns (output: seq<string>)
    ensures output == Convert(lines, fmt)
  {
    output := [];
    for i := 0 to |lines|
      invariant output == Convert(lines[..i], fmt)
    {
      assert lines[..i + 1][..i] == lines[..i];
      output := AppendLineOut(output, lines[i], fmt);
    }
    assert lines[..|lines|] == lines;
  }

  /** `markdown_to_note_plaintext`. */
  method MarkdownToNotePlaintext(mdText: string) returns (result: string)
    ensures result == Join(Convert(Split(mdText, '\n'), RemoveFormatting), "\n")
  {
    var output := ConvertLines(Split(mdText, '\n'), RemoveFormatting);
    result := Join(output, "\n");
  }

  // ---------------------------------------------------------------- line kinds

  /** A whitespace-only line becomes exactly one empty line. */
  lemma BlankBecomesEmpty(line: string, fmt: string -> string)
    requires IsBlank(line)
    ensures LineOut(line, fmt) == [""]
  {
  }

  /** A heading becomes its rewritten stripped text and one empty line. */
  lemma HeadingBecomesText(line: string, k: nat, fmt: string -> string)
    requires 1 <= k <= 4 && StartsWith(line, Hashes(k))
    ensures LineOut(line, fmt) == [fmt(PyStrip(line[k + 1..])), ""]
  {
    assert line[0] == Hashes(k)[0] == '#';
    StripKeepsHead(line);
    HeadingOfSpec(line);
    HeadingLevelUnique(line, HeadingOf(line).value.0, k);
  }

  /** A rule becomes an empty line, the separator and an empty line. */
  lemma RuleBecomesSeparator(line: string, fmt: string -> string)
    requires PyStrip(line) == "---"
    ensures LineOut(line, fmt) == ["", Separator, ""]
  {
    if line != [] && !IsPySpace(line[0]) {
      StripKeepsHead(line);
      assert line[0] == '-';
    }
    NoHashNoHeading(line);
  }

  /** `- x` becomes `・` and the rewritten stripped x. */
  lemma BulletBecomesDot(line: string, fmt: string -> string)
    requires StartsWith(line, "- ")
    ensures LineOut(line, fmt) == ["・" + fmt(PyStrip(line[2..]))]
  {
    assert line[0] == '-' && line[1] == ' ';
    StripKeepsHead(line);
    var r := PyStrip(line);
    assert |r| >= 2 ==> r[1] == ' ';
    NoHashNoHeading(line);
  }

  /** `N. x` keeps the literal digits N, followed by one space. */
  lemma OrderedKeepsNumber(line: string, n: string, t: string, fmt: string -> string)
    requires OrderedMatch(line) == Some((n, t))
    ensures LineOut(line, fmt) == [n + ". " + fmt(t)]
  {
    OrderedStartsWithDigit(line);
    StripKeepsHead(line);
    NoHashNoHeading(line);
    assert PyStrip(line) != "---" by {
      assert PyStrip(line)[0] == line[0];
    }
    assert !StartsWith(line, "- ");
  }

  /** A table row (a stripped line starting with `|`, without `---`, or a
      delimiter row) produces no output. */
  lemma TableRowDropped(line: string, fmt: string -> string)
    requires StartsWith(PyStrip(line), "|")
    requires !Contains(line, "---") || IsDelimiter(line)
    ensures LineOut(line, fmt) == []
  {
    TableRowIsUnmarked(line);
  }
}
