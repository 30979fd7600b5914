/**
 * normalize_markdown.py: the rewrites `normalize_markdown` applies to the file
 * contents, as a pipeline of pure string functions: tabs to four spaces, CRLF
 * and lone CR to LF, trailing whitespace removed from every line, and every run
 * of three or more newlines shortened to two.
 */
module Normalize {
  import opened Strings
  import opened Seqs

  // ---------------------------------------------------------------- the passes

  /** `content.replace('\t', '    ')`. */
  function ExpandTabs(s: string): (r: string)
    ensures '\t' !in r
  {
    if s == [] then [] else (if s[0] == '\t' then "    " else [s[0]]) + ExpandTabs(s[1..])
  }

  /** `content.replace('\r\n', '\n')`: a left-to-right scan replacing each
      non-overlapping CRLF pair. */
  function ReplaceCrLf(s: string): string
  {
    if s == [] then []
    else if |s| >= 2 && s[0] == '\r' && s[1] == '\n' then "\n" + ReplaceCrLf(s[2..])
    else [s[0]] + ReplaceCrLf(s[1..])
  }

  /** `.replace('\r', '\n')`. */
  function ReplaceCr(s: string): (r: string)
    ensures '\r' !in r && |r| == |s|
  {
    if s == [] then [] else [if s[0] == '\r' then '\n' else s[0]] + ReplaceCr(s[1..])
  }

  /** Both line-ending replacements, in the script's order. */
  function UnifyNewlines(s: string): (r: string)
    ensures '\r' !in r
  {
    ReplaceCr(ReplaceCrLf(s))
  }

  /** `[line.rstrip() for line in lines]`. */
  function RStripAll(lines: seq<string>): (r: seq<string>)
    ensures |r| == |lines|
  {
    if lines == [] then [] else [PyRStrip(lines[0])] + RStripAll(lines[1..])
  }

  /** Split into lines, strip the end of each, and join them again. */
  function StripLines(s: string): string
  {
    Join(RStripAll(Split(s, '\n')), "\n")
  }

  /** The number of newlines s starts with. */
  function NewlineRun(s: string): (n: nat)
    ensures n <= |s| && (n < |s| ==> s[n] != '\n')
    ensures forall i :: 0 <= i < n ==> s[i] == '\n'
  {
    if s != [] && s[0] == '\n' then 1 + NewlineRun(s[1..]) else 0
  }

  /** `re.sub(r'\n{3,}', '\n\n', content)`: the scan stops at each maximal run of
      newlines; a run of three or more is replaced by two, a shorter one is kept. */
  function CollapseNewlines(s: string): string
    decreases |s|
  {
    if s == [] then []
    else if s[0] != '\n' then [s[0]] + CollapseNewlines(s[1..])
    else
      var n := NewlineRun(s);
      (if n >= 3 then "\n\n" else s[..n]) + CollapseNewlines(s[n..])
  }

  /** The string rewrites of `normalize_markdown`, in order. */
  function NormalizeMarkdown(content: string): string
  {
    CollapseNewlines(StripLines(UnifyNewlines(ExpandTabs(content))))
  }

  // ---------------------------------------------------------------- tabs

  lemma {:induction false} ExpandTabsAppend(a: string, b: string)
    ensures ExpandTabs(a + b) == ExpandTabs(a) + ExpandTabs(b)
  {
    if a == [] {
      assert a + b == b;
    } else {
      assert (a + b)[1..] == a[1..] + b;
      ExpandTabsAppend(a[1..], b);
    }
  }

  /** Each tab becomes exactly four spaces, and the text around it is expanded on its own. */
  lemma TabBecomesFourSpaces(a: string, b: string)
    ensures ExpandTabs(a + "\t" + b) == ExpandTabs(a) + "    " + ExpandTabs(b)
  {
    ExpandTabsAppend(a + "\t", b);
    ExpandTabsAppend(a, "\t");
    assert ExpandTabs("\t") == "    " by {
      assert "\t"[1..] == [];
    }
  }

  /** Text without tabs is left as it is. */
  lemma {:induction false} ExpandTabsFixed(s: string)
    requires '\t' !in s
    ensures ExpandTabs(s) == s
  {
    if s != [] {
      ExpandTabsFixed(s[1..]);
    }
  }

  // ---------------------------------------------------------------- line endings

  /** The CRLF scan splits at any boundary that does not cut a CRLF pair. */
  lemma {:induction false} ReplaceCrLfAppend(a: string, b: string)
    requires a == [] || b == [] || a[|a| - 1] != '\r' || b[0] != '\n'
    ensures ReplaceCrLf(a + b) == ReplaceCrLf(a) + ReplaceCrLf(b)
  {
    var s := a + b;
    if a == [] {
      assert s == b;
    } else if |a| >= 2 && a[0] == '\r' && a[1] == '\n' {
      assert s[0] == '\r' && s[1] == '\n';
      assert s[2..] == a[2..] + b;
      ReplaceCrLfAppend(a[2..], b);
      assert ReplaceCrLf(s) == "\n" + ReplaceCrLf(a[2..] + b);
      assert ReplaceCrLf(a) == "\n" + ReplaceCrLf(a[2..]);
    } else if |a| == 1 {
      assert s[0] == a[0] && s[1..] == b;
      assert !(|s| >= 2 && s[0] == '\r' && s[1] == '\n');
      assert ReplaceCrLf(s) == [a[0]] + ReplaceCrLf(b);
      assert ReplaceCrLf(a) == [a[0]] + ReplaceCrLf(a[1..]);
      assert a[1..] == [];
    } else {
      assert s[0] == a[0] && s[1] == a[1];
      assert s[1..] == a[1..] + b;
      ReplaceCrLfAppend(a[1..], b);
      assert ReplaceCrLf(s) == [a[0]] + ReplaceCrLf(a[1..] + b);
      assert ReplaceCrLf(a) == [a[0]] + ReplaceCrLf(a[1..]);
    }
  }

  lemma {:induction false} ReplaceCrAppend(a: string, b: string)
    ensures ReplaceCr(a + b) == ReplaceCr(a) + ReplaceCr(b)
  {
    if a == [] {
      assert a + b == b;
    } else {
      assert (a + b)[1..] == a[1..] + b;
      ReplaceCrAppend(a[1..], b);
    }
  }

  /** Each CRLF pair becomes one newline. */
  lemma CrLfBecomesLf(a: string, b: string)
    ensures UnifyNewlines(a + "\r\n" + b) == UnifyNewlines(a) + "\n" + UnifyNewlines(b)
  {
    var m := "\r\n" + b;
    assert a + "\r\n" + b == a + m;
    ReplaceCrLfAppend(a, m);
    assert m[2..] == b;
    ReplaceCrAppend(ReplaceCrLf(a), "\n" + ReplaceCrLf(b));
    ReplaceCrAppend("\n", ReplaceCrLf(b));
    assert ReplaceCr("\n") == "\n" by {
      assert "\n"[1..] == [];
    }
  }

  /** A carriage return not followed by a newline becomes a newline. */
  lemma LoneCrBecomesLf(a: string, b: string)
    requires b == [] || b[0] != '\n'
    ensures UnifyNewlines(a + "\r" + b) == UnifyNewlines(a) + "\n" + UnifyNewlines(b)
  {
    var m := "\r" + b;
    assert a + "\r" + b == a + m;
    ReplaceCrLfAppend(a, m);
    assert m[1..] == b;
    ReplaceCrAppend(ReplaceCrLf(a), "\r" + ReplaceCrLf(b));
    ReplaceCrAppend("\r", ReplaceCrLf(b));
    assert ReplaceCr("\r") == "\n" by {
      assert "\r"[1..] == [];
    }
  }

  /** Text without carriage returns is left as it is. */
  lemma {:induction false} UnifyFixed(s: string)
    requires '\r' !in s
    ensures UnifyNewlines(s) == s
  {
    ReplaceCrLfFixed(s);
    ReplaceCrFixed(s);
  }

  lemma {:induction false} ReplaceCrLfFixed(s: string)
    requires '\r' !in s
    ensures ReplaceCrLf(s) == s
  {
    if s != [] {
      ReplaceCrLfFixed(s[1..]);
    }
  }

  lemma {:induction false} ReplaceCrFixed(s: string)
    requires '\r' !in s
    ensures ReplaceCr(s) == s
  {
    if s != [] {
      ReplaceCrFixed(s[1..]);
    }
  }

  // ---------------------------------------------------------------- no new characters

  /** The line-ending pass introduces no character other than the newline. */
  lemma {:induction false} UnifyKeepsOut(s: string, c: char)
    requires c != '\n' && c !in s
    ensures c !in UnifyNewlines(s)
  {
    ReplaceCrLfKeepsOut(s, c);
    ReplaceCrKeepsOut(ReplaceCrLf(s), c);
  }

  lemma {:induction false} ReplaceCrLfKeepsOut(s: string, c: char)
    requires c != '\n' && c !in s
    ensures c !in ReplaceCrLf(s)
  {
    if s == [] {
    } else if |s| >= 2 && s[0] == '\r' && s[1] == '\n' {
      ReplaceCrLfKeepsOut(s[2..], c);
    } else {
      ReplaceCrLfKeepsOut(s[1..], c);
    }
  }

  lemma {:induction false} ReplaceCrKeepsOut(s: string, c: char)
    requires c != '\n' && c !in s
    ensures c !in ReplaceCr(s)
  {
    if s != [] {
      ReplaceCrKeepsOut(s[1..], c);
    }
  }

  lemma {:induction false} JoinKeepsOut(xs: seq<string>, c: char)
    requires c != '\n'
    requires forall k :: 0 <= k < |xs| ==> c !in xs[k]
    ensures c !in Join(xs, "\n")
  {
    if |xs| > 1 {
      JoinKeepsOut(xs[1..], c);
    }
  }

  lemma {:induction false} PiecesKeepOut(xs: seq<string>, c: char, k: nat)
    requires k < |xs| && c !in Join(xs, "\n")
    ensures c !in xs[k]
  {
    if |xs| > 1 && k > 0 {
      PiecesKeepOut(xs[1..], c, k - 1);
    }
  }

  /** Trailing-whitespace removal introduces no character. */
  lemma StripLinesKeepsOut(s: string, c: char)
    requires c != '\n' && c !in s
    ensures c !in StripLines(s)
  {
    var xs := Split(s, '\n');
    var ys := RStripAll(xs);
    forall k | 0 <= k < |ys|
      ensures c !in ys[k]
    {
      PiecesKeepOut(xs, c, k);
      RStripAllAt(xs, k);
      TrimRightSpec(xs[k], IsPySpace);
    }
    JoinKeepsOut(ys, c);
  }

  lemma {:induction false} RStripAllAt(xs: seq<string>, k: nat)
    requires k < |xs|
    ensures RStripAll(xs)[k] == PyRStrip(xs[k])
  {
    if k > 0 {
      RStripAllAt(xs[1..], k - 1);
    }
  }

  /** Collapsing newline runs introduces no character. */
  lemma {:induction false} CollapseKeepsOut(s: string, c: char)
    requires c != '\n' && c !in s
    ensures c !in CollapseNewlines(s)
    decreases |s|
  {
    if s == [] {
    } else if s[0] != '\n' {
      CollapseKeepsOut(s[1..], c);
    } else {
      var n := NewlineRun(s);
      CollapseKeepsOut(s[n..], c);
    }
  }

  // ---------------------------------------------------------------- trailing whitespace

  /** No line ends in whitespace: every whitespace character other than a newline
      is followed by a character of the same line. */
  predicate NoTrailingSpace(r: string)
  {
    forall i :: 0 <= i < |r| && r[i] != '\n' && IsPySpace(r[i]) ==> i + 1 < |r| && r[i + 1] != '\n'
  }

  /** One line without a newline and without trailing whitespace. */
  predicate CleanLine(x: string)
  {
    '\n' !in x && (x == [] || !IsPySpace(x[|x| - 1]))
  }

  lemma RStripClean(x: string)
    requires '\n' !in x
    ensures CleanLine(PyRStrip(x))
  {
    TrimRightSpec(x, IsPySpace);
  }

  /** Joining clean lines with newlines leaves no trailing whitespace. */
  lemma {:induction false} JoinClean(xs: seq<string>)
    requires forall k :: 0 <= k < |xs| ==> CleanLine(xs[k])
    ensures NoTrailingSpace(Join(xs, "\n"))
  {
    if |xs| == 1 {
      assert CleanLine(xs[0]);
    } else if |xs| > 1 {
      JoinClean(xs[1..]);
      JoinCleanStep(xs[0], Join(xs[1..], "\n"));
    }
  }

  lemma JoinCleanStep(a: string, b: string)
    requires CleanLine(a) && NoTrailingSpace(b)
    ensures NoTrailingSpace(a + "\n" + b)
  {
    var r := a + "\n" + b;
    forall i | 0 <= i < |r| && r[i] != '\n' && IsPySpace(r[i])
      ensures i + 1 < |r| && r[i + 1] != '\n'
    {
      if i < |a| {
        assert r[i] == a[i];
        assert i + 1 < |a|;
        assert r[i + 1] == a[i + 1];
      } else {
        assert r[i] == b[i - |a| - 1];
      }
    }
  }

  /** Conversely, the lines of a string without trailing whitespace are clean. */
  lemma {:induction false} JoinCleanLines(xs: seq<string>)
    requires forall k :: 0 <= k < |xs| ==> '\n' !in xs[k]
    requires NoTrailingSpace(Join(xs, "\n"))
    ensures forall k :: 0 <= k < |xs| ==> CleanLine(xs[k])
  {
    if |xs| == 1 {
      assert Join(xs, "\n") == xs[0];
    } else if |xs| > 1 {
      var a, b := xs[0], Join(xs[1..], "\n");
      var r := a + "\n" + b;
      assert r == Join(xs, "\n");
      forall i | 0 <= i < |b| && b[i] != '\n' && IsPySpace(b[i])
        ensures i + 1 < |b| && b[i + 1] != '\n'
      {
        assert r[|a| + 1 + i] == b[i];
        if i + 1 < |b| {
          assert r[|a| + 2 + i] == b[i + 1];
        }
      }
      JoinCleanLines(xs[1..]);
      if a != [] {
        assert r[|a| - 1] == a[|a| - 1] && r[|a|] == '\n';
      }
      assert forall k :: 1 <= k < |xs| ==> xs[k] == xs[1..][k - 1];
    }
  }

  lemma StripLinesClean(s: string)
    ensures NoTrailingSpace(StripLines(s))
  {
    var xs := Split(s, '\n');
    var ys := RStripAll(xs);
    forall k | 0 <= k < |ys|
      ensures CleanLine(ys[k])
    {
      RStripAllAt(xs, k);
      RStripClean(xs[k]);
    }
    JoinClean(ys);
  }

  /** A string whose lines are already clean is left as it is. */
  lemma StripLinesFixed(s: string)
    requires NoTrailingSpace(s)
    ensures StripLines(s) == s
  {
    var xs := Split(s, '\n');
    JoinCleanLines(xs);
    RStripAllFixed(xs);
  }

  lemma {:induction false} RStripAllFixed(xs: seq<string>)
    requires forall k :: 0 <= k < |xs| ==> CleanLine(xs[k])
    ensures RStripAll(xs) == xs
  {
    if xs != [] {
      assert CleanLine(xs[0]);
      RStripAllFixed(xs[1..]);
    }
  }

  lemma NoTrailingSuffix(s: string, k: nat)
    requires k <= |s| && NoTrailingSpace(s)
    ensures NoTrailingSpace(s[k..])
  {
    var t := s[k..];
    assert forall i :: 0 <= i < |t| ==> t[i] == s[k + i];
  }

  /** The collapse keeps the first character. */
  lemma CollapseHead(s: string)
    requires s != []
    ensures CollapseNewlines(s) != [] && CollapseNewlines(s)[0] == s[0]
  {
  }

  /** Collapsing newline runs keeps every line clean. */
  lemma {:induction false} CollapseKeepsClean(s: string)
    requires NoTrailingSpace(s)
    ensures NoTrailingSpace(CollapseNewlines(s))
    decreases |s|
  {
    if s == [] {
    } else if s[0] != '\n' {
      NoTrailingSuffix(s, 1);
      CollapseKeepsClean(s[1..]);
      var rest := CollapseNewlines(s[1..]);
      if |s| > 1 {
        CollapseHead(s[1..]);
      }
      var r := [s[0]] + rest;
      forall i | 0 <= i < |r| && r[i] != '\n' && IsPySpace(r[i])
        ensures i + 1 < |r| && r[i + 1] != '\n'
      {
        if i > 0 {
          assert r[i] == rest[i - 1];
        }
      }
    } else {
      var n := NewlineRun(s);
      NoTrailingSuffix(s, n);
      CollapseKeepsClean(s[n..]);
      var run: string := if n >= 3 then "\n\n" else s[..n];
      var rest := CollapseNewlines(s[n..]);
      var r := run + rest;
      assert forall i :: 0 <= i < |run| ==> run[i] == '\n';
      forall i | 0 <= i < |r| && r[i] != '\n' && IsPySpace(r[i])
        ensures i + 1 < |r| && r[i + 1] != '\n'
      {
        assert r[i] == rest[i - |run|];
      }
    }
  }

  // ---------------------------------------------------------------- newline runs

  /** No three newlines in a row: at most one empty line between text lines. */
  predicate NoTripleNewline(r: string)
  {
    forall i :: 0 <= i < |r| - 2 ==> r[i] != '\n' || r[i + 1] != '\n' || r[i + 2] != '\n'
  }

  lemma {:induction false} CollapseNoTriple(s: string)
    ensures NoTripleNewline(CollapseNewlines(s))
    decreases |s|
  {
    if s == [] {
    } else if s[0] != '\n' {
      CollapseNoTriple(s[1..]);
      var rest := CollapseNewlines(s[1..]);
      var r := [s[0]] + rest;
      assert forall i :: 1 <= i < |r| ==> r[i] == rest[i - 1];
    } else {
      var n := NewlineRun(s);
      CollapseNoTriple(s[n..]);
      var run: string := if n >= 3 then "\n\n" else s[..n];
      var rest := CollapseNewlines(s[n..]);
      var r := run + rest;
      assert 1 <= |run| <= 2;
      if n < |s| {
        CollapseHead(s[n..]);
        assert r[|run|] == rest[0] == s[n] != '\n';
      } else {
        assert s[n..] == [] && rest == [];
      }
      forall i | 0 <= i < |r| - 2 ensures r[i] != '\n' || r[i + 1] != '\n' || r[i + 2] != '\n' {
        if i >= |run| {
          assert r[i] == rest[i - |run|] && r[i + 1] == rest[i + 1 - |run|] && r[i + 2] == rest[i + 2 - |run|];
        } else {
          assert i + 1 == |run| || i + 2 == |run|;
        }
      }
    }
  }

  lemma NoTripleSuffix(s: string, k: nat)
    requires k <= |s| && NoTripleNewline(s)
    ensures NoTripleNewline(s[k..])
  {
    var t := s[k..];
    assert forall i :: 0 <= i < |t| ==> t[i] == s[k + i];
  }

  lemma RunAtMostTwo(s: string)
    requires NoTripleNewline(s)
    ensures NewlineRun(s) <= 2
  {
    assert |s| < 3 || s[0] != '\n' || s[1] != '\n' || s[2] != '\n';
  }

  /** A string without three newlines in a row is left as it is. */
  lemma {:induction false} CollapseFixed(s: string)
    requires NoTripleNewline(s)
    ensures CollapseNewlines(s) == s
    decreases |s|
  {
    if s == [] {
    } else if s[0] != '\n' {
      NoTripleSuffix(s, 1);
      CollapseFixed(s[1..]);
    } else {
      var n := NewlineRun(s);
      RunAtMostTwo(s);
      NoTripleSuffix(s, n);
      CollapseFixed(s[n..]);
      assert s == s[..n] + s[n..];
    }
  }

  // ---------------------------------------------------------------- the whole rewrite

  /** The result holds no tab and no carriage return, no line of it ends in
      whitespace, and it never has three newlines in a row. */
  lemma NormalizeMarkdownClean(content: string)
    ensures var r := NormalizeMarkdown(content);
      '\t' !in r && '\r' !in r && NoTrailingSpace(r) && NoTripleNewline(r)
  {
    var a := ExpandTabs(content);
    var b := UnifyNewlines(a);
    var c := StripLines(b);
    UnifyKeepsOut(a, '\t');
    StripLinesKeepsOut(b, '\t');
    StripLinesKeepsOut(b, '\r');
    CollapseKeepsOut(c, '\t');
    CollapseKeepsOut(c, '\r');
    StripLinesClean(b);
    CollapseKeepsClean(c);
    CollapseNoTriple(c);
  }

  /** Normalising a normalised text changes nothing. */
  lemma NormalizeMarkdownIdempotent(content: string)
    ensures NormalizeMarkdown(NormalizeMarkdown(content)) == NormalizeMarkdown(content)
  {
    var r := NormalizeMarkdown(content);
    NormalizeMarkdownClean(content);
    ExpandTabsFixed(r);
    UnifyFixed(r);
    StripLinesFixed(r);
    CollapseFixed(r);
  }

  // ---------------------------------------------------------------- the text survives

  /** The characters the rewrite never touches. */
  predicate NotSpace(c: char)
  {
    !IsPySpace(c)
  }

  lemma {:induction false} ExpandTabsKeepsText(s: string)
    ensures Filter(ExpandTabs(s), NotSpace) == Filter(s, NotSpace)
  {
    if s != [] {
      var h := if s[0] == '\t' then "    " else [s[0]];
      ExpandTabsKeepsText(s[1..]);
      FilterAppend(h, ExpandTabs(s[1..]), NotSpace);
      FilterNone("    ", NotSpace);
    }
  }

  lemma {:induction false} ReplaceCrLfKeepsText(s: string)
    ensures Filter(ReplaceCrLf(s), NotSpace) == Filter(s, NotSpace)
  {
    if s == [] {
    } else if |s| >= 2 && s[0] == '\r' && s[1] == '\n' {
      ReplaceCrLfKeepsText(s[2..]);
      FilterAppend("\n", ReplaceCrLf(s[2..]), NotSpace);
      FilterNone("\n", NotSpace);
      assert s == "\r\n" + s[2..];
      FilterAppend("\r\n", s[2..], NotSpace);
      FilterNone("\r\n", NotSpace);
    } else {
      ReplaceCrLfKeepsText(s[1..]);
      FilterAppend([s[0]], ReplaceCrLf(s[1..]), NotSpace);
    }
  }

  lemma {:induction false} ReplaceCrKeepsText(s: string)
    ensures Filter(ReplaceCr(s), NotSpace) == Filter(s, NotSpace)
  {
    if s != [] {
      ReplaceCrKeepsText(s[1..]);
      FilterAppend([if s[0] == '\r' then '\n' else s[0]], ReplaceCr(s[1..]), NotSpace);
    }
  }

  lemma RStripKeepsText(x: string)
    ensures Filter(PyRStrip(x), NotSpace) == Filter(x, NotSpace)
  {
    var r := PyRStrip(x);
    TrimRightSpec(x, IsPySpace);
    assert x == r + x[|r|..];
    FilterAppend(r, x[|r|..], NotSpace);
    FilterNone(x[|r|..], NotSpace);
  }

  lemma {:induction false} JoinRStripKeepsText(xs: seq<string>)
    ensures Filter(Join(RStripAll(xs), "\n"), NotSpace) == Filter(Join(xs, "\n"), NotSpace)
  {
    RStripKeepsText(if xs == [] then "" else xs[0]);
    if |xs| > 1 {
      var ys := RStripAll(xs);
      assert ys[1..] == RStripAll(xs[1..]);
      JoinRStripKeepsText(xs[1..]);
      FilterAppend(ys[0] + "\n", Join(ys[1..], "\n"), NotSpace);
      FilterAppend(ys[0], "\n", NotSpace);
      FilterAppend(xs[0] + "\n", Join(xs[1..], "\n"), NotSpace);
      FilterAppend(xs[0], "\n", NotSpace);
    }
  }

  lemma StripLinesKeepsText(s: string)
    ensures Filter(StripLines(s), NotSpace) == Filter(s, NotSpace)
  {
    JoinRStripKeepsText(Split(s, '\n'));
  }

  lemma {:induction false} CollapseKeepsText(s: string)
    ensures Filter(CollapseNewlines(s), NotSpace) == Filter(s, NotSpace)
    decreases |s|
  {
    if s == [] {
    } else if s[0] != '\n' {
      CollapseKeepsText(s[1..]);
      FilterAppend([s[0]], CollapseNewlines(s[1..]), NotSpace);
    } else {
      var n := NewlineRun(s);
      var run: string := if n >= 3 then "\n\n" else s[..n];
      CollapseKeepsText(s[n..]);
      FilterAppend(run, CollapseNewlines(s[n..]), NotSpace);
      FilterNone(run, NotSpace);
      assert s == s[..n] + s[n..];
      FilterAppend(s[..n], s[n..], NotSpace);
      FilterNone(s[..n], NotSpace);
    }
  }

  /** Every non-whitespace character of the input survives, in order, and no
      other one appears: the rewrite only changes whitespace. */
  lemma NormalizeMarkdownKeepsText(content: string)
    ensures Filter(NormalizeMarkdown(content), NotSpace) == Filter(content, NotSpace)
  {
    var a := ExpandTabs(content);
    var b := ReplaceCrLf(a);
    var c := ReplaceCr(b);
    var d := StripLines(c);
    ExpandTabsKeepsText(content);
    ReplaceCrLfKeepsText(a);
    ReplaceCrKeepsText(b);
    StripLinesKeepsText(c);
    CollapseKeepsText(d);
  }
}
