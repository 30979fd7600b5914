/**
 * convert_to_note_markdown.py: `optimize_for_note`, which re-emits Markdown in
 * the subset the note editor accepts, forcing blank lines around headings, rules
 * and lists, and then collapses every run of blank lines into one empty line.
 */
module NoteMarkdown {
  import opened Wrappers
  import opened Strings
  import opened Seqs
  import opened MdLines
  import NotePlaintext

  // ---------------------------------------------------------------- first pass

  /** `output and output[-1].strip()`: the last emitted line holds text. */
  predicate AfterText(out: seq<string>)
  {
    out != [] && !IsBlank(out[|out| - 1])
  }

  /** `re.match(r'^\d+\.', s)`: digits followed by a dot. */
  predicate DigitsDot(s: string)
  {
    var d := TakeWhile(s, IsDigit);
    d != [] && |d| < |s| && s[|d|] == '.'
  }

  /** The blank line inserted before an item, when one is due. */
  function Gap(due: bool): (r: seq<string>)
    ensures |r| <= 1 && (r == [] <==> !due) && forall k :: 0 <= k < |r| ==> r[k] == ""
  {
    if due then [""] else []
  }

  /** The lines the loop appends for one input line, given what it has emitted so far. */
  function Added(out: seq<string>, line: string): seq<string>
  {
    if IsBlank(line) then [""]
    else if HeadingOf(line).Some? then
      Gap(AfterText(out)) + [Hashes(HeadingOf(line).value.0) + HeadingOf(line).value.1, ""]
    else if PyStrip(line) == "---" then ["", "---", ""]
    else if StartsWith(line, "- ") then
      Gap(AfterText(out) && !StartsWith(out[|out| - 1], "- ")) + ["- " + PyStrip(line[2..])]
    else if OrderedMatch(line).Some? then
      Gap(AfterText(out) && !DigitsDot(out[|out| - 1]))
        + [OrderedMatch(line).value.0 + ". " + OrderedMatch(line).value.1]
    else if StartsWith(PyStrip(line), "|") && !Contains(line, "---") then []
    else if IsDelimiter(line) then []
    else [line]
  }

  /** The first pass over a sequence of lines. */
  function Emit(lines: seq<string>): seq<string>
  {
    if lines == [] then []
    else
      var out := Emit(lines[..|lines| - 1]);
      out + Added(out, lines[|lines| - 1])
  }

  // ---------------------------------------------------------------- second pass

  /** `prev_empty` after a prefix: its last line was blank. */
  predicate EndsBlank(xs: seq<string>)
  {
    xs != [] && IsBlank(xs[|xs| - 1])
  }

  /** The collapse pass: a blank line becomes `''` unless the previous input line was blank. */
  function Collapse(xs: seq<string>): seq<string>
  {
    if xs == [] then []
    else
      var init := xs[..|xs| - 1];
      var line := xs[|xs| - 1];
      if IsBlank(line) then
        (if EndsBlank(init) then Collapse(init) else Collapse(init) + [""])
      else Collapse(init) + [line]
  }

  /** `optimize_for_note`. */
  method OptimizeForNote(mdText: string) returns (r: string)
    ensures r == Join(Collapse(Emit(Split(mdText, '\n'))), "\n")
  {
    var output := EmitLines(Split(mdText, '\n'));
    var result := CollapseBlanks(output);
    r := Join(result, "\n");
  }

  /** The first loop of `optimize_for_note`. */
  method EmitLines(lines: seq<string>) returns (output: seq<string>)
    ensures output == Emit(lines)
  {
    output := [];
    var i := 0;
    while i < |lines|
      invariant 0 <= i <= |lines|
      invariant output == Emit(lines[..i])
    {
      assert lines[..i + 1][..i] == lines[..i];
      output := EmitLine(output, lines[i]);
      i := i + 1;
    }
    assert lines[..|lines|] == lines;
  }

  /** One iteration of the first loop: the lines appended for `line`. */
  method EmitLine(before: seq<string>, line: string) returns (output: seq<string>)
    ensures output == before + Added(before, line)
  {
    output := before;
    if IsBlank(line) {
      output := output + [""];
    } else if HeadingOf(line).Some? {
      var (k, text) := HeadingOf(line).value;
      if output != [] && !IsBlank(output[|output| - 1]) {
        output := output + [""];
      }
      output := output + [Hashes(k) + text];
      output := output + [""];
    } else if PyStrip(line) == "---" {
      output := output + [""];
      output := output + ["---"];
      output := output + [""];
    } else if StartsWith(line, "- ") {
      var text := PyStrip(line[2..]);
      if output != [] && !IsBlank(output[|output| - 1]) && !StartsWith(output[|output| - 1], "- ") {
        output := output + [""];
      }
      output := output + ["- " + text];
    } else if OrderedMatch(line).Some? {
      var (num, text) := OrderedMatch(line).value;
      if output != [] && !IsBlank(output[|output| - 1]) && !DigitsDot(output[|output| - 1]) {
        output := output + [""];
      }
      output := output + [num + ". " + text];
    } else if StartsWith(PyStrip(line), "|") && !Contains(line, "---") {
    } else if IsDelimiter(line) {
    } else {
      output := output + [line];
    }
  }

  /** The second loop of `optimize_for_note`. */
  method CollapseBlanks(output: seq<string>) returns (result: seq<string>)
    ensures result == Collapse(output)
  {
    result := [];
    var prevEmpty := false;
    for j := 0 to |output|
      invariant result == Collapse(output[..j])
      invariant prevEmpty == EndsBlank(output[..j])
    {
      var line := output[j];
      assert output[..j + 1][..j] == output[..j];
      if IsBlank(line) {
        if !prevEmpty {
          result := result + [""];
          prevEmpty := true;
        }
      } else {
        result := result + [line];
        prevEmpty := false;
      }
    }
    assert output[..|output|] == output;
  }

  // ---------------------------------------------------------------- first pass, line by line

  /** A heading is re-emitted as its prefix and stripped text, after a blank
      line when the previous output line holds text, and before one always. */
  lemma HeadingReEmitted(out: seq<string>, line: string, k: nat)
    requires 1 <= k <= 4 && StartsWith(line, Hashes(k))
    ensures Added(out, line) == Gap(AfterText(out)) + [Hashes(k) + PyStrip(line[k + 1..]), ""]
  {
    assert line[0] == Hashes(k)[0] == '#';
    StripKeepsHead(line);
    HeadingOfSpec(line);
    HeadingLevelUnique(line, HeadingOf(line).value.0, k);
  }

  /** A rule is re-emitted between two blank lines. */
  lemma RuleReEmitted(out: seq<string>, line: string)
    requires PyStrip(line) == "---"
    ensures Added(out, line) == ["", "---", ""]
  {
    if line != [] && !IsPySpace(line[0]) {
      StripKeepsHead(line);
      assert line[0] == '-';
    }
    NoHashNoHeading(line);
  }

  /** A `- ` item is re-emitted with its stripped text, after a blank line unless
      the output is empty, ends blank, or ends with another `- ` item. */
  lemma BulletReEmitted(out: seq<string>, line: string)
    requires StartsWith(line, "- ")
    ensures Added(out, line)
      == Gap(out != [] && !IsBlank(out[|out| - 1]) && !StartsWith(out[|out| - 1], "- "))
         + ["- " + PyStrip(line[2..])]
  {
    assert line[0] == '-' && line[1] == ' ';
    StripKeepsHead(line);
    var r := PyStrip(line);
    assert |r| >= 2 ==> r[1] == ' ';
    NoHashNoHeading(line);
  }

  /** An ordered item keeps its number, after a blank line unless the output is
      empty, ends blank, or ends with a line starting with digits and a dot. */
  lemma OrderedReEmitted(out: seq<string>, line: string, n: string, t: string)
    requires OrderedMatch(line) == Some((n, t))
    ensures Added(out, line)
      == Gap(out != [] && !IsBlank(out[|out| - 1]) && !DigitsDot(out[|out| - 1])) + [n + ". " + t]
  {
    OrderedStartsWithDigit(line);
    StripKeepsHead(line);
    NoHashNoHeading(line);
    assert PyStrip(line) != "---" by {
      assert PyStrip(line)[0] == line[0];
    }
    assert !StartsWith(line, "- ");
  }

  /** The line emitted for an ordered item itself starts with digits and a dot,
      so the next ordered item follows it without a blank line. */
  lemma OrderedItemsStayTogether(line: string, n: string, t: string)
    requires OrderedMatch(line) == Some((n, t))
    ensures DigitsDot(n + ". " + t)
  {
    OrderedMatchSpec(line);
    var s := n + ". " + t;
    assert s[..|n|] == n;
    assert forall i :: 0 <= i < |n| ==> IsDigit(n[i]) by {
      assert forall i :: 0 <= i < |n| ==> n[i] == line[..|n|][i];
    }
    TakeWhileExact(s, n, IsDigit);
  }

  /** A table row, or a line with a table delimiter, is dropped. */
  lemma TableRowsDropped(out: seq<string>, line: string)
    requires StartsWith(PyStrip(line), "|")
    requires !Contains(line, "---") || IsDelimiter(line)
    ensures Added(out, line) == []
  {
    TableRowIsUnmarked(line);
  }

  /** A text line (one that starts with none of the markers and holds no table
      delimiter) passes through verbatim, inline markup included. */
  lemma TextVerbatim(out: seq<string>, line: string)
    requires line != [] && !IsPySpace(line[0]) && line[0] !in "#-|" && !IsDigit(line[0])
    requires !Contains(line, "|---")
    ensures Added(out, line) == [line]
  {
    StripKeepsHead(line);
    var r := PyStrip(line);
    assert r[0] == line[0];
    NoHashNoHeading(line);
    if OrderedMatch(line).Some? {
      OrderedStartsWithDigit(line);
    }
    DelimiterIsDashRun(line);
  }

  /** The plain-text converter and this one test lines in the same order, so
      they drop exactly the same lines. */
  lemma SameLinesDropped(out: seq<string>, line: string, fmt: string -> string)
    ensures Added(out, line) == [] <==> NotePlaintext.LineOut(line, fmt) == []
  {
  }

  /** Every heading line of the output is followed by an empty line and is
      either the first line or preceded by a blank one. */
  predicate HeadingsFramed(o: seq<string>)
  {
    forall j :: 0 <= j < |o| && HeadingOf(o[j]).Some? ==>
      j + 1 < |o| && o[j + 1] == "" && (j > 0 ==> IsBlank(o[j - 1]))
  }

  /** The first pass sets every heading off by blank lines. */
  lemma {:induction false} EmittedHeadingsFramed(lines: seq<string>)
    ensures HeadingsFramed(Emit(lines))
  {
    if lines != [] {
      EmittedHeadingsFramed(lines[..|lines| - 1]);
      FramedStep(Emit(lines[..|lines| - 1]), lines[|lines| - 1]);
    }
  }

  lemma FramedStep(o: seq<string>, line: string)
    requires HeadingsFramed(o)
    ensures HeadingsFramed(o + Added(o, line))
  {
    var a := Added(o, line);
    var o' := o + a;
    if !IsBlank(line) && HeadingOf(line).Some? {
      var g := Gap(AfterText(o));
      var h := Hashes(HeadingOf(line).value.0) + HeadingOf(line).value.1;
      assert a == g + [h, ""];
      forall j | 0 <= j < |o'| && HeadingOf(o'[j]).Some?
        ensures j + 1 < |o'| && o'[j + 1] == "" && (j > 0 ==> IsBlank(o'[j - 1]))
      {
        NoHashNoHeading("");
        assert IsBlank("");
      }
    } else {
      AddedNoHeading(o, line);
    }
  }

  /** Outside the heading branch, no emitted line is a heading. */
  lemma AddedNoHeading(o: seq<string>, line: string)
    requires IsBlank(line) || HeadingOf(line).None?
    ensures forall k :: 0 <= k < |Added(o, line)| ==> HeadingOf(Added(o, line)[k]).None?
  {
    NoHashNoHeading("");
    NoHashNoHeading("---");
    if IsBlank(line) {
    } else if PyStrip(line) == "---" {
    } else if StartsWith(line, "- ") {
      NoHashNoHeading("- " + PyStrip(line[2..]));
    } else if OrderedMatch(line).Some? {
      var (n, t) := OrderedMatch(line).value;
      OrderedMatchSpec(line);
      assert n[0] == line[..|n|][0];
      NoHashNoHeading(n + ". " + t);
    } else {
    }
  }

  // ---------------------------------------------------------------- second pass, properties

  function NonBlank(s: string): bool
  {
    !IsBlank(s)
  }

  /** Every blank line is exactly empty, and no two blank lines are adjacent. */
  predicate Collapsed(r: seq<string>)
  {
    && (forall i :: 0 <= i < |r| && IsBlank(r[i]) ==> r[i] == "")
    && (forall i :: 0 <= i < |r| - 1 ==> !IsBlank(r[i]) || !IsBlank(r[i + 1]))
  }

  /** The output ends blank exactly when the input does. */
  lemma {:induction false} CollapseEndsBlank(xs: seq<string>)
    ensures EndsBlank(Collapse(xs)) <==> EndsBlank(xs)
  {
    if xs != [] {
      var init := xs[..|xs| - 1];
      CollapseEndsBlank(init);
    }
  }

  /** The collapse pass leaves no run of blank lines and no whitespace-only line. */
  lemma {:induction false} CollapseIsCollapsed(xs: seq<string>)
    ensures Collapsed(Collapse(xs))
  {
    if xs != [] {
      var init := xs[..|xs| - 1];
      CollapseIsCollapsed(init);
      CollapseEndsBlank(init);
      assert IsBlank("");
    }
  }

  /** The collapse pass keeps every non-blank line, unchanged and in order. */
  lemma {:induction false} CollapseKeepsText(xs: seq<string>)
    ensures Filter(Collapse(xs), NonBlank) == Filter(xs, NonBlank)
  {
    if xs != [] {
      var init := xs[..|xs| - 1];
      var line := xs[|xs| - 1];
      CollapseKeepsText(init);
      assert xs == init + [line];
      FilterAppend(init, [line], NonBlank);
      FilterAppend(Collapse(init), [line], NonBlank);
      FilterAppend(Collapse(init), [""], NonBlank);
      assert Filter([""], NonBlank) == [] by {
        assert IsBlank("");
      }
    }
  }

  /** A collapsed sequence is its own collapse. */
  lemma {:induction false} CollapseFixed(r: seq<string>)
    requires Collapsed(r)
    ensures Collapse(r) == r
  {
    if r != [] {
      var init := r[..|r| - 1];
      assert Collapsed(init);
      CollapseFixed(init);
      assert r == init + [r[|r| - 1]];
    }
  }

  /** Collapsing twice is collapsing once. */
  lemma CollapseIdempotent(xs: seq<string>)
    ensures Collapse(Collapse(xs)) == Collapse(xs)
  {
    CollapseIsCollapsed(xs);
    CollapseFixed(Collapse(xs));
  }
}
