/**
 * Line classification shared by the three Markdown converters
 * (convert_md_to_html.py, convert_to_note_format.py, convert_to_note_markdown.py):
 * the `#` heading prefixes, the `---` rule, the ordered-item regular expression
 * `^(\d+)\.\s+(.+)$`, the `- ` bullet, and the table-row tests.
 */
module MdLines {
  import opened Wrappers
  import opened Strings

  // ---------------------------------------------------------------- headings

  /** The heading prefix of level k: k `#` characters and a space. */
  function Hashes(k: nat): (r: string)
    ensures |r| == k + 1 && r[k] == ' ' && forall i :: 0 <= i < k ==> r[i] == '#'
  {
    Repeat('#', k) + " "
  }

  /** The heading tests `#### `, `### `, `## `, `# `, in that order: the level
      and the stripped remainder of the line. */
  function HeadingOf(line: string): Option<(nat, string)>
  {
    if StartsWith(line, "#### ") then Some((4, PyStrip(line[5..])))
    else if StartsWith(line, "### ") then Some((3, PyStrip(line[4..])))
    else if StartsWith(line, "## ") then Some((2, PyStrip(line[3..])))
    else if StartsWith(line, "# ") then Some((1, PyStrip(line[2..])))
    else None
  }

  /** HeadingOf finds the level k exactly when the line starts with k `#` and a space. */
  lemma HeadingOfSpec(line: string)
    ensures var r := HeadingOf(line);
      && (r.Some? ==> 1 <= r.value.0 <= 4 && StartsWith(line, Hashes(r.value.0))
                      && r.value.1 == PyStrip(line[r.value.0 + 1..]))
      && (r.None? ==> forall k :: 1 <= k <= 4 ==> !StartsWith(line, Hashes(k)))
  {
    assert Hashes(4) == "#### " && Hashes(3) == "### " && Hashes(2) == "## " && Hashes(1) == "# ";
  }

  /** A line starts with at most one heading prefix, so the test order only
      matters for efficiency: the level is determined by the line. */
  lemma HeadingLevelUnique(line: string, j: nat, k: nat)
    requires 1 <= j && 1 <= k
    requires StartsWith(line, Hashes(j)) && StartsWith(line, Hashes(k))
    ensures j == k
  {
    assert forall i :: 0 <= i <= j ==> line[i] == line[..j + 1][i] == Hashes(j)[i];
    assert forall i :: 0 <= i <= k ==> line[i] == line[..k + 1][i] == Hashes(k)[i];
  }

  /** Five or more `#`, or a `#` not followed by a space, is no heading. */
  lemma NotAHeading(line: string)
    requires StartsWith(line, "#####") || (|line| >= 2 && line[0] == '#' && line[1] != ' ' && line[1] != '#')
    ensures HeadingOf(line).None?
  {
    if StartsWith(line, "#####") {
      assert line[..5][1] == line[1] == '#' && line[..5][2] == line[2] == '#';
      assert line[..5][3] == line[3] == '#' && line[..5][4] == line[4] == '#';
    }
    assert |line| >= 2 ==> line[..2][1] == line[1];
    assert |line| >= 3 ==> line[..3][2] == line[2];
    assert |line| >= 4 ==> line[..4][3] == line[3];
    assert |line| >= 5 ==> line[..5][4] == line[4];
  }

  /** Only a line starting with `#` can be a heading. */
  lemma NoHashNoHeading(line: string)
    requires line == [] || line[0] != '#'
    ensures HeadingOf(line).None?
  {
    assert |line| >= 2 ==> line[..2][0] == line[0];
    assert |line| >= 3 ==> line[..3][0] == line[0];
    assert |line| >= 4 ==> line[..4][0] == line[0];
    assert |line| >= 5 ==> line[..5][0] == line[0];
  }

  // ---------------------------------------------------------------- ordered items

  /** `^(\d+)\.\s+(.+)$` matches line with group 1 = line[..a] and group 2 = line[b..]. */
  predicate Decomp(line: string, a: int, b: int)
  {
    0 < a && a + 1 < b < |line|
    && AllDigits(line[..a]) && line[a] == '.'
    && forall k :: a < k < b ==> IsPySpace(line[k])
  }

  /** `re.match(r'^(\d+)\.\s+(.+)$', line)` and its two groups. The match is unique
      up to the split between `\s+` and `.+`, where the greedy `\s+` takes the most. */
  function OrderedMatch(line: string): Option<(string, string)>
  {
    var d := TakeWhile(line, IsDigit);
    if d == [] || |d| == |line| || line[|d|] != '.' then
      None
    else
      var a := |d|;
      var rest := line[a + 1..];
      var w := TakeWhile(rest, IsPySpace);
      if w == [] then
        None
      else if |w| < |rest| then
        Some((d, rest[|w|..]))
      else if |w| >= 2 then
        Some((d, rest[|rest| - 1..]))
      else
        None
  }

  /** OrderedMatch is the regular-expression match: it succeeds exactly when some
      split of the line fits the pattern, and then reports the split with the
      longest `\s+`. */
  lemma OrderedMatchSpec(line: string)
    ensures var r := OrderedMatch(line);
      && (r.Some? ==>
           && |r.value.0| + |r.value.1| <= |line|
           && var a, b := |r.value.0|, |line| - |r.value.1|;
           && r.value.0 == line[..a] && r.value.1 == line[b..] && Decomp(line, a, b)
           && forall b' :: b < b' < |line| ==> !Decomp(line, a, b'))
      && (r.None? ==> forall a, b :: !Decomp(line, a, b))
  {
    var d := TakeWhile(line, IsDigit);
    TakeWhileSpec(line, IsDigit);
    DecompForcesA(line, d);
    if d == [] || |d| == |line| || line[|d|] != '.' {
    } else {
      var a := |d|;
      var rest := line[a + 1..];
      var w := TakeWhile(rest, IsPySpace);
      TakeWhileSpec(rest, IsPySpace);
      assert line[..a] == d;
      if w == [] {
        assert |rest| > 0 ==> !IsPySpace(line[a + 1]);
      } else if |w| < |rest| {
        OrderedSplit(line, a, w);
      } else if |w| >= 2 {
        OrderedAllSpace(line, a, w);
      } else {
      }
    }
  }

  /** The `\s+` run w after `d.` stops before the end of the line. */
  lemma OrderedSplit(line: string, a: nat, w: string)
    requires 0 < a < |line| && AllDigits(line[..a]) && line[a] == '.'
    requires w != [] && a + 1 + |w| < |line| && w == line[a + 1..][..|w|]
    requires forall i :: 0 <= i < |w| ==> IsPySpace(w[i])
    requires !IsPySpace(line[a + 1 + |w|])
    ensures var b := a + 1 + |w|;
      && line[a + 1..][|w|..] == line[b..]
      && Decomp(line, a, b)
      && forall b' :: b < b' < |line| ==> !Decomp(line, a, b')
  {
    var b := a + 1 + |w|;
    assert forall k :: a < k < b ==> line[k] == w[k - a - 1];
  }

  /** The rest of the line after `d.` is all whitespace: `.+` takes the last character. */
  lemma OrderedAllSpace(line: string, a: nat, w: string)
    requires 0 < a < |line| && AllDigits(line[..a]) && line[a] == '.'
    requires |w| >= 2 && a + 1 + |w| == |line| && w == line[a + 1..]
    requires forall i :: 0 <= i < |w| ==> IsPySpace(w[i])
    ensures var b := |line| - 1;
      && line[a + 1..][|w| - 1..] == line[b..]
      && Decomp(line, a, b)
  {
    assert forall k :: a < k < |line| ==> line[k] == w[k - a - 1];
  }

  /** An ordered item starts with a digit. */
  lemma OrderedStartsWithDigit(line: string)
    requires OrderedMatch(line).Some?
    ensures line != [] && IsDigit(line[0])
  {
    var d := TakeWhile(line, IsDigit);
    TakeWhileSpec(line, IsDigit);
    assert d[0] == line[0];
  }

  /** Group 1 can only be the maximal digit prefix d, followed by a dot. */
  lemma DecompForcesA(line: string, d: string)
    requires d == TakeWhile(line, IsDigit)
    ensures forall a, b :: Decomp(line, a, b) ==> a == |d| && d != [] && |d| < |line| && line[|d|] == '.'
  {
    TakeWhileSpec(line, IsDigit);
    assert forall a :: |d| < a <= |line| ==> line[..a][|d|] == line[|d|];
    assert forall a :: 0 < a <= |line| ==> line[..a][0] == line[0];
    assert forall i :: 0 <= i < |d| ==> line[i] == d[i];
  }

  /** A bullet line never matches the ordered-item pattern, so the converters
      that test bullets first and the one that tests ordered items first agree. */
  lemma BulletIsNotOrdered(line: string)
    requires StartsWith(line, "- ")
    ensures OrderedMatch(line).None?
  {
    OrderedMatchSpec(line);
    assert forall a :: 0 < a <= |line| ==> line[..a][0] == '-';
  }

  // ---------------------------------------------------------------- classification

  /** What kind of Markdown line this is, testing in the converters' order. */
  datatype LineKind =
    | Blank
    | Heading(level: nat, text: string)
    | Rule
    | Ordered(num: string, text: string)
    | Bullet(text: string)
    | Other

  function Classify(line: string): LineKind
  {
    if IsBlank(line) then Blank
    else if HeadingOf(line).Some? then Heading(HeadingOf(line).value.0, HeadingOf(line).value.1)
    else if PyStrip(line) == "---" then Rule
    else if OrderedMatch(line).Some? then Ordered(OrderedMatch(line).value.0, OrderedMatch(line).value.1)
    else if StartsWith(line, "- ") then Bullet(PyStrip(line[2..]))
    else Other
  }

  // ---------------------------------------------------------------- tables

  /** `line.strip().startswith('|')`. */
  predicate IsTableRow(line: string)
  {
    StartsWith(PyStrip(line), "|")
  }

  /** A table row is no blank line, heading, rule, bullet or ordered item, so the
      converters reach their table tests for it. */
  lemma TableRowIsUnmarked(line: string)
    requires IsTableRow(line)
    ensures !IsBlank(line) && HeadingOf(line).None? && PyStrip(line) != "---"
    ensures !StartsWith(line, "- ") && OrderedMatch(line).None?
  {
    var r := PyStrip(line);
    assert r[0] == '|';
    if line != [] && !IsPySpace(line[0]) {
      StripKeepsHead(line);
      assert line[0] == '|';
    }
    NoHashNoHeading(line);
    if OrderedMatch(line).Some? {
      OrderedStartsWithDigit(line);
      StripKeepsHead(line);
    }
  }

  /** `'|---' in line or '|------' in line`. */
  predicate IsDelimiter(line: string)
  {
    Contains(line, "|---") || Contains(line, "|------")
  }

  /** The second alternative of the delimiter test is subsumed by the first. */
  lemma DelimiterIsDashRun(line: string)
    ensures IsDelimiter(line) <==> Contains(line, "|---")
  {
    if Contains(line, "|------") {
      var k := ContainsWitness(line, "|------");
      assert line[k..k + 4] == line[k..k + 7][..4] == "|---";
      ContainsAt(line, "|---", k);
    }
  }

  /** Python's `xs[1:-1]`. */
  function Inner<T>(xs: seq<T>): (r: seq<T>)
    ensures |xs| >= 2 ==> r == xs[1..|xs| - 1]
    ensures |xs| < 2 ==> r == []
  {
    if |xs| < 2 then [] else xs[1..|xs| - 1]
  }

  /** `[cell.strip() for cell in line.split('|')[1:-1]]`. */
  function Cells(line: string): (r: seq<string>)
    ensures |r| == |Inner(Split(line, '|'))|
    ensures forall k :: 0 <= k < |r| ==> r[k] == PyStrip(Inner(Split(line, '|'))[k])
  {
    var pieces := Inner(Split(line, '|'));
    seq(|pieces|, k requires 0 <= k < |pieces| => PyStrip(pieces[k]))
  }

  /** No cell holds the column separator. */
  lemma CellsAreClean(line: string)
    ensures forall k :: 0 <= k < |Cells(line)| ==> '|' !in Cells(line)[k]
  {
    var pieces := Inner(Split(line, '|'));
    var sp := Split(line, '|');
    assert forall k :: 0 <= k < |pieces| ==> pieces[k] == sp[k + 1];
    forall k | 0 <= k < |pieces| ensures '|' !in Cells(line)[k] {
      PyStripKeepsChars(pieces[k]);
    }
  }
}
