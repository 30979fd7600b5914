/**
 * The regular-expression substitutions used by the Markdown converters,
 * modelled as explicit scanners with Python `re.sub` semantics: the leftmost
 * match is replaced, scanning resumes right after it, and matches never overlap.
 * The patterns are the Markdown link `\[([^\]]+)\]\(([^)]+)\)`, the bare URL
 * `(https?://[^\s]+)` and the delimited spans `\*\*([^*]+)\*\*` and `` `([^`]+)` ``.
 */
module MdInline {
  import opened Wrappers
  import opened Strings
  import opened Seqs

  datatype Pattern =
    | Link                               // \[([^\]]+)\]\(([^)]+)\)
    | Url                                // (https?://[^\s]+)
    | Span(delim: string, stop: char)    // delim ([^stop]+) delim

  /** `\*\*([^*]+)\*\*` */
  const Bold := Span("**", '*')
  /** `` `([^`]+)` `` */
  const Code := Span("`", '`')

  /** A match at the head of the scanned text: its length and its groups,
      group 0 being the whole match. */
  datatype Match = Match(len: nat, groups: seq<string>)

  /** A replacement template such as `<a href="\2">\1</a>`. */
  datatype Piece = Lit(text: string) | Group(index: nat)

  // ---------------------------------------------------------------- links

  /** The text `[l](u)`. */
  function LinkText(l: string, u: string): string
  {
    "[" + l + "](" + u + ")"
  }

  /** `[^\]]+` */
  predicate IsLabel(l: string)
  {
    l != [] && ']' !in l
  }

  /** `[^)]+` */
  predicate IsTarget(u: string)
  {
    u != [] && ')' !in u
  }

  /** `\[([^\]]+)\]\(([^)]+)\)` at the head of s: the label runs to the first `]`,
      which must be followed by `(`, and the target runs to the first `)`. */
  function LinkAt(s: string): Option<Match>
  {
    if s == [] || s[0] != '[' then None
    else
      var l := TakeWhile(s[1..], c => c != ']');
      var k := 1 + |l|;
      if l == [] || k + 1 >= |s| || s[k + 1] != '(' then None
      else
        var u := TakeWhile(s[k + 2..], c => c != ')');
        var e := k + 2 + |u|;
        if u == [] || e >= |s| then None
        else Some(Match(e + 1, [s[..e + 1], l, u]))
  }

  /** A link match is a well-formed link at the head of the text. */
  lemma LinkAtSound(s: string)
    ensures var r := LinkAt(s);
      r.Some? ==>
      && |r.value.groups| == 3
      && IsLabel(r.value.groups[1]) && IsTarget(r.value.groups[2])
      && r.value.len == |LinkText(r.value.groups[1], r.value.groups[2])|
      && StartsWith(s, LinkText(r.value.groups[1], r.value.groups[2]))
      && r.value.groups[0] == s[..r.value.len]
  {
    if s != [] && s[0] == '[' {
      var l := TakeWhile(s[1..], c => c != ']');
      TakeWhileSpec(s[1..], c => c != ']');
      var k := 1 + |l|;
      if !(l == [] || k + 1 >= |s| || s[k + 1] != '(') {
        var u := TakeWhile(s[k + 2..], c => c != ')');
        TakeWhileSpec(s[k + 2..], c => c != ')');
        var e := k + 2 + |u|;
        if !(u == [] || e >= |s|) {
          assert s[1..][|l|] == s[k];
          assert s[k + 2..][|u|] == s[e];
          LinkPieces(s, l, u);
        }
      }
    }
  }

  /** The pieces the scanner found spell out the link text. */
  lemma LinkPieces(s: string, l: string, u: string)
    requires 1 + |l| + 2 + |u| < |s|
    requires s[0] == '[' && l == s[1..][..|l|] && s[1 + |l|] == ']' && s[2 + |l|] == '('
    requires u == s[3 + |l|..][..|u|] && s[3 + |l| + |u|] == ')'
    ensures s[..|l| + |u| + 4] == LinkText(l, u)
  {
    var k := 1 + |l|;
    var e := k + 2 + |u|;
    assert s[1..k] == l;
    assert s[k + 2..e] == u;
    assert s[..e + 1] == [s[0]] + s[1..k] + [s[k], s[k + 1]] + s[k + 2..e] + [s[e]];
  }

  /** Whenever the text starts with a link, LinkAt finds exactly that link. */
  lemma LinkAtComplete(s: string, l: string, u: string)
    requires IsLabel(l) && IsTarget(u) && StartsWith(s, LinkText(l, u))
    ensures LinkAt(s) == Some(Match(|LinkText(l, u)|, [LinkText(l, u), l, u]))
  {
    var t := LinkText(l, u);
    var k := 1 + |l|;
    assert s[..|t|] == t;
    assert t[1..k] == l && t[k] == ']' && t[k + 1] == '(' && t[k + 2..k + 2 + |u|] == u && t[k + 2 + |u|] == ')';
    assert s[1..][..|l|] == s[1..k] == t[1..k];
    TakeWhileExact(s[1..], l, c => c != ']');
    assert s[k + 2..][..|u|] == s[k + 2..k + 2 + |u|] == t[k + 2..k + 2 + |u|];
    TakeWhileExact(s[k + 2..], u, c => c != ')');
  }

  // ---------------------------------------------------------------- bare URLs

  /** Starts with a scheme that is followed by at least one non-space. */
  predicate UrlStart(s: string)
  {
    (StartsWith(s, "https://") && |s| > 8 && !IsPySpace(s[8]))
    || (StartsWith(s, "http://") && |s| > 7 && !IsPySpace(s[7]))
  }

  /** The length of the `https://` or `http://` scheme at the head of s, or 0. */
  function SchemeLen(s: string): (n: nat)
    ensures n == 0 || n == 7 || n == 8
  {
    if StartsWith(s, "https://") then 8 else if StartsWith(s, "http://") then 7 else 0
  }

  /** Text not starting with `ht` has no scheme. */
  lemma NoSchemeWithoutHt(s: string)
    requires s == [] || s[0] != 'h' || (|s| >= 2 && s[1] != 't')
    ensures SchemeLen(s) == 0
  {
    assert |s| >= 8 ==> s[..8][0] == s[0] && s[..8][1] == s[1];
    assert |s| >= 7 ==> s[..7][0] == s[0] && s[..7][1] == s[1];
  }

  /** `(https?://[^\s]+)` at the head of s: the longest run of non-spaces, when
      it is longer than the scheme. */
  function UrlAt(s: string): Option<Match>
  {
    var n := SchemeLen(s);
    if n == 0 then None
    else
      var run := TakeWhile(s, c => !IsPySpace(c));
      if |run| > n then Some(Match(|run|, [run, run])) else None
  }

  /** A URL match starts with `ht`. */
  lemma UrlStartsWithHt(s: string)
    requires s == [] || s[0] != 'h' || (|s| >= 2 && s[1] != 't')
    ensures Re(Url)(s).None?
  {
    NoSchemeWithoutHt(s);
    assert Re(Url)(s) == UrlAt(s);
  }

  /** A URL matches exactly where a scheme is followed by a non-space, and the
      match is the maximal run of non-spaces. */
  lemma UrlAtSpec(s: string)
    ensures var r := UrlAt(s);
      && (r.Some? <==> UrlStart(s))
      && (r.Some? ==>
           && 0 < r.value.len <= |s| && |r.value.groups| == 2
           && r.value.groups[0] == r.value.groups[1] == s[..r.value.len]
           && (forall i :: 0 <= i < r.value.len ==> !IsPySpace(s[i]))
           && (r.value.len == |s| || IsPySpace(s[r.value.len])))
  {
    var run := TakeWhile(s, c => !IsPySpace(c));
    TakeWhileSpec(s, c => !IsPySpace(c));
    SchemeSpec(s);
  }

  /** The scheme is made of non-spaces, and a URL starts exactly where a
      non-space follows it. */
  lemma SchemeSpec(s: string)
    ensures var n := SchemeLen(s);
      && (n > 0 ==> n <= |s| && forall i :: 0 <= i < n ==> !IsPySpace(s[i]))
      && (UrlStart(s) <==> n > 0 && |s| > n && !IsPySpace(s[n]))
  {
    if StartsWith(s, "https://") {
      assert s[..8] == "https://";
      assert s[4] == s[..8][4] == 's';
      assert !StartsWith(s, "http://") by {
        assert s[..7][4] == s[4];
      }
    } else if StartsWith(s, "http://") {
      assert s[..7] == "http://";
    }
  }

  // ---------------------------------------------------------------- delimited spans

  /** `d([^stop]+)d` at the head of s: the inner text runs to the first stop
      character, where the closing delimiter must follow. */
  function SpanAt(d: string, stop: char, s: string): Option<Match>
  {
    if !StartsWith(s, d) then None
    else
      var inner := TakeWhile(s[|d|..], c => c != stop);
      var e := |d| + |inner|;
      if inner != [] && StartsWith(s[e..], d) then Some(Match(e + |d|, [s[..e + |d|], inner]))
      else None
  }

  /** A span match is the delimiter, a non-empty text free of the stop
      character, and the delimiter again. */
  lemma SpanAtSound(d: string, stop: char, s: string)
    ensures var r := SpanAt(d, stop, s);
      r.Some? ==>
      && |r.value.groups| == 2
      && r.value.groups[1] != [] && stop !in r.value.groups[1]
      && r.value.len == 2 * |d| + |r.value.groups[1]| <= |s|
      && r.value.groups[0] == s[..r.value.len] == d + r.value.groups[1] + d
  {
    if StartsWith(s, d) {
      var inner := TakeWhile(s[|d|..], c => c != stop);
      TakeWhileSpec(s[|d|..], c => c != stop);
      var e := |d| + |inner|;
      if inner != [] && StartsWith(s[e..], d) {
        assert SpanAt(d, stop, s) == Some(Match(e + |d|, [s[..e + |d|], inner]));
        assert stop !in inner;
        SpanPieces(d, s, inner);
      }
    }
  }

  /** The delimiter, the inner text and the delimiter again, read off the head of s. */
  lemma SpanPieces(d: string, s: string, inner: string)
    requires StartsWith(s, d) && |d| + |inner| <= |s| && inner == s[|d|..][..|inner|]
    requires StartsWith(s[|d| + |inner|..], d)
    ensures s[..2 * |d| + |inner|] == d + inner + d
  {
    var e := |d| + |inner|;
    assert s[|d|..e] == inner;
    assert s[e..e + |d|] == s[e..][..|d|];
    assert s[..e + |d|] == s[..|d|] + s[|d|..e] + s[e..e + |d|];
  }

  /** When the delimiter begins with the stop character, SpanAt finds every span. */
  lemma SpanAtComplete(d: string, stop: char, s: string, i: string)
    requires d != [] && d[0] == stop
    requires i != [] && stop !in i
    requires StartsWith(s, d + i + d)
    ensures SpanAt(d, stop, s) == Some(Match(2 * |d| + |i|, [d + i + d, i]))
  {
    var t := d + i + d;
    assert s[..|d|] == t[..|d|] == d;
    assert s[|d|..][..|i|] == i;
    assert s[|d| + |i|] == t[|d| + |i|] == stop;
    TakeWhileExact(s[|d|..], i, c => c != stop);
    assert s[|d| + |i|..][..|d|] == t[|d| + |i|..] == d;
  }

  // ---------------------------------------------------------------- substitution

  function MatchAt(p: Pattern, s: string): (r: Option<Match>)
    ensures r.Some? ==> 0 < r.value.len <= |s| && |r.value.groups| >= 2 && r.value.groups[0] == s[..r.value.len]
  {
    match p
    case Link => LinkAtSound(s); LinkAt(s)
    case Url => UrlAtSpec(s); UrlAt(s)
    case Span(d, stop) => if d == [] then None else SpanAtSound(d, stop, s); SpanAt(d, stop, s)
  }

  /** A matcher reports matches at the head of the text that consume at least
      one character and no more than the text. */
  ghost predicate IsMatcher(at: string -> Option<Match>)
  {
    forall s :: at(s).Some? ==> 0 < at(s).value.len <= |s|
  }

  /** The compiled pattern: the matcher `re.sub` runs at each position. */
  function Re(p: Pattern): (at: string -> Option<Match>)
    ensures IsMatcher(at)
  {
    s => MatchAt(p, s)
  }

  /** The replacement text for one match (`\n` refers to group n). */
  function Expand(t: seq<Piece>, g: seq<string>): string
  {
    if t == [] then ""
    else
      (match t[0]
       case Lit(x) => x
       case Group(n) => if n < |g| then g[n] else "")
      + Expand(t[1..], g)
  }

  /** `re.sub(pattern, t, s)` for the pattern compiled to `at`: the leftmost
      match is replaced and scanning resumes right after it. */
  function Sub(at: string -> Option<Match>, t: seq<Piece>, s: string): string
    requires IsMatcher(at)
    decreases |s|
  {
    if s == [] then ""
    else
      match at(s)
      case Some(m) => Expand(t, m.groups) + Sub(at, t, s[m.len..])
      case None => [s[0]] + Sub(at, t, s[1..])
  }

  /** No suffix of s starts a match. */
  ghost predicate NoMatchIn(at: string -> Option<Match>, s: string)
  {
    forall k :: 0 <= k < |s| ==> at(s[k..]).None?
  }

  /** Text without a match is left unchanged. */
  lemma SubNoMatch(at: string -> Option<Match>, t: seq<Piece>, s: string)
    requires IsMatcher(at) && NoMatchIn(at, s)
    ensures Sub(at, t, s) == s
  {
    SubSkip(at, t, s, |s|);
    assert s[..|s|] == s && s[|s|..] == [];
  }

  /** One scanning step over a position where no match starts. */
  lemma SubStepNoMatch(at: string -> Option<Match>, t: seq<Piece>, s: string)
    requires IsMatcher(at) && s != [] && at(s).None?
    ensures Sub(at, t, s) == [s[0]] + Sub(at, t, s[1..])
  {
  }

  /** One scanning step over a match. */
  lemma SubStepMatch(at: string -> Option<Match>, t: seq<Piece>, s: string)
    requires IsMatcher(at) && s != [] && at(s).Some?
    ensures Sub(at, t, s) == Expand(t, at(s).value.groups) + Sub(at, t, s[at(s).value.len..])
  {
  }

  /** Scanning passes over a match-free prefix unchanged. */
  lemma SubSkip(at: string -> Option<Match>, t: seq<Piece>, s: string, n: nat)
    requires IsMatcher(at) && n <= |s|
    requires forall k :: 0 <= k < n ==> at(s[k..]).None?
    ensures Sub(at, t, s) == s[..n] + Sub(at, t, s[n..])
  {
    SubSkipFrom(at, t, s, 0, n);
    assert s[0..] == s && s[0..n] == s[..n];
  }

  /** Scanning passes over a match-free prefix pre of pre + x. */
  lemma SubSkipPrefix(at: string -> Option<Match>, t: seq<Piece>, pre: string, x: string)
    requires IsMatcher(at)
    requires forall k :: 0 <= k < |pre| ==> at((pre + x)[k..]).None?
    ensures Sub(at, t, pre + x) == pre + Sub(at, t, x)
  {
    var a := pre + x;
    SubSkip(at, t, a, |pre|);
    assert a[..|pre|] == pre && a[|pre|..] == x;
  }

  /** SubSkip from position j on. */
  lemma {:induction false} SubSkipFrom(at: string -> Option<Match>, t: seq<Piece>, s: string, j: nat, n: nat)
    requires IsMatcher(at) && j <= n <= |s|
    requires forall k :: j <= k < n ==> at(s[k..]).None?
    ensures Sub(at, t, s[j..]) == s[j..n] + Sub(at, t, s[n..])
    decreases n - j
  {
    if j < n {
      var x := s[j..];
      SubStepNoMatch(at, t, x);
      assert x[1..] == s[j + 1..];
      SubSkipFrom(at, t, s, j + 1, n);
      assert s[j..n] == [x[0]] + s[j + 1..n];
      AppendAssoc([x[0]], s[j + 1..n], Sub(at, t, s[n..]));
    }
  }

  /** Every match of a pattern contains that pattern's first character
      (`[`, `:` of the scheme, or the delimiter's first character). */
  function Anchor(p: Pattern): char
  {
    match p
    case Link => '['
    case Url => ':'
    case Span(d, _) => if d == [] then '*' else d[0]
  }

  /** No match starts in text lacking the pattern's anchor character. */
  lemma NoAnchorAtHead(p: Pattern, x: string)
    requires Anchor(p) !in x
    ensures MatchAt(p, x).None?
  {
    match p
    case Link =>
      assert x != [] ==> x[0] in x;
    case Url =>
      UrlAtSpec(x);
      assert |x| >= 8 ==> x[..8][5] == x[5] && x[5] in x;
      assert |x| >= 7 ==> x[..7][4] == x[4] && x[4] in x;
    case Span(d, _) =>
      assert d != [] && |d| <= |x| ==> x[..|d|][0] == x[0] && x[0] in x;
  }

  /** Text lacking the pattern's anchor character has no match. */
  lemma NoAnchorNoMatch(p: Pattern, s: string)
    requires Anchor(p) !in s
    ensures NoMatchIn(Re(p), s)
  {
    forall k | 0 <= k < |s| ensures Re(p)(s[k..]).None? {
      var x := s[k..];
      assert forall c :: c in x ==> c in s;
      NoAnchorAtHead(p, x);
    }
  }

  /** Text lacking the pattern's anchor character is left unchanged. */
  lemma SubWithoutAnchor(p: Pattern, t: seq<Piece>, s: string)
    requires Anchor(p) !in s
    ensures Sub(Re(p), t, s) == s
  {
    NoAnchorNoMatch(p, s);
    SubNoMatch(Re(p), t, s);
  }

  /** Filtering out the stop character from `d inner d rest` leaves inner and the filtered rest. */
  lemma FilterSpan(d: string, inner: string, rest: string, stop: char)
    requires forall i :: 0 <= i < |d| ==> d[i] == stop
    requires stop !in inner
    ensures Filter(d + inner + d + rest, c => c != stop) == inner + Filter(rest, c => c != stop)
  {
    var keep := c => c != stop;
    assert forall i :: 0 <= i < |inner| ==> keep(inner[i]);
    FilterDropEnds(d, inner, rest, keep);
  }

  /** Prepending x to both sides of a filter equation. */
  lemma FilterCons<T>(x: T, a: seq<T>, b: seq<T>, p: T -> bool)
    requires Filter(a, p) == Filter(b, p)
    ensures Filter([x] + a, p) == Filter([x] + b, p)
  {
    FilterAppend([x], a, p);
    FilterAppend([x], b, p);
  }

  /** Replacing a span by its inner text (`\1`) only deletes delimiter characters:
      all other characters survive, in order. */
  lemma {:induction false} SpanRemovalKeepsText(d: string, stop: char, s: string)
    requires d != [] && forall i :: 0 <= i < |d| ==> d[i] == stop
    ensures Filter(Sub(Re(Span(d, stop)), [Group(1)], s), c => c != stop) == Filter(s, c => c != stop)
    decreases |s|
  {
    var p := Re(Span(d, stop));
    if s != [] {
      if p(s).Some? {
        SpanRemovalKeepsText(d, stop, s[p(s).value.len..]);
        SpanMatchStep(d, stop, s);
      } else {
        SpanRemovalKeepsText(d, stop, s[1..]);
        NoMatchStep(p, [Group(1)], s, c => c != stop);
      }
    }
  }

  /** The induction step of SpanRemovalKeepsText over a span. */
  lemma SpanMatchStep(d: string, stop: char, s: string)
    requires d != [] && forall i :: 0 <= i < |d| ==> d[i] == stop
    requires s != [] && Re(Span(d, stop))(s).Some?
    requires var rest := s[Re(Span(d, stop))(s).value.len..];
      Filter(Sub(Re(Span(d, stop)), [Group(1)], rest), c => c != stop) == Filter(rest, c => c != stop)
    ensures Filter(Sub(Re(Span(d, stop)), [Group(1)], s), c => c != stop) == Filter(s, c => c != stop)
  {
    var p := Re(Span(d, stop));
    var inner := p(s).value.groups[1];
    var rest := s[p(s).value.len..];
    SpanShape(d, stop, s);
    FilterSpanStep(d, inner, rest, Sub(p, [Group(1)], rest), stop);
  }

  /** One span and its replacement by the inner text. */
  lemma SpanShape(d: string, stop: char, s: string)
    requires d != []
    requires s != [] && Re(Span(d, stop))(s).Some?
    ensures var m := Re(Span(d, stop))(s).value;
      && |m.groups| == 2 && stop !in m.groups[1]
      && s == d + m.groups[1] + d + s[m.len..]
      && Sub(Re(Span(d, stop)), [Group(1)], s) == m.groups[1] + Sub(Re(Span(d, stop)), [Group(1)], s[m.len..])
  {
    var p := Re(Span(d, stop));
    var m := p(s).value;
    assert p(s) == SpanAt(d, stop, s);
    SpanAtSound(d, stop, s);
    SplitAtMatch(s, m.len, d + m.groups[1] + d);
    SubStepMatch(p, [Group(1)], s);
    ExpandGroupOne(m.groups);
  }

  lemma SplitAtMatch(s: string, n: nat, h: string)
    requires n <= |s| && s[..n] == h
    ensures s == h + s[n..]
  {
    assert s == s[..n] + s[n..];
  }

  lemma ExpandGroupOne(g: seq<string>)
    requires |g| >= 2
    ensures Expand([Group(1)], g) == g[1]
  {
    assert Expand([Group(1)], g) == g[1] + Expand([], g);
  }

  /** Filtering the stop character out of a span step. */
  lemma FilterSpanStep(d: string, inner: string, rest: string, out: string, stop: char)
    requires forall i :: 0 <= i < |d| ==> d[i] == stop
    requires stop !in inner
    requires Filter(out, c => c != stop) == Filter(rest, c => c != stop)
    ensures Filter(inner + out, c => c != stop) == Filter(d + inner + d + rest, c => c != stop)
  {
    var keep := c => c != stop;
    FilterSpan(d, inner, rest, stop);
    FilterAppend(inner, out, keep);
    FilterAll(inner, keep);
  }

  /** The induction step of a filter-preservation proof over a position where
      no match starts. */
  lemma NoMatchStep(at: string -> Option<Match>, t: seq<Piece>, s: string, keep: char -> bool)
    requires IsMatcher(at) && s != [] && at(s).None?
    requires Filter(Sub(at, t, s[1..]), keep) == Filter(s[1..], keep)
    ensures Filter(Sub(at, t, s), keep) == Filter(s, keep)
  {
    SubStepNoMatch(at, t, s);
    assert s == [s[0]] + s[1..];
    FilterCons(s[0], Sub(at, t, s[1..]), s[1..], keep);
  }

  /** The template `\1 (\2)` of the link-to-text rewrite. */
  const LinkAsText := [Group(1), Lit(" ("), Group(2), Lit(")")]

  lemma ExpandLinkAsText(g: seq<string>)
    requires |g| == 3
    ensures Expand(LinkAsText, g) == g[1] + " (" + g[2] + ")"
  {
    var t := LinkAsText;
    assert t[1..][1..][1..][1..] == [];
    assert Expand(t[1..][1..][1..], g) == ")";
    assert Expand(t[1..][1..], g) == g[2] + ")";
    assert Expand(t[1..], g) == " (" + g[2] + ")";
  }

  /** Filtering out brackets and spaces from a link and from its text form agrees. */
  lemma FilterLink(l: string, u: string, x: string, y: string)
    requires Filter(x, c => c !in "[] ") == Filter(y, c => c !in "[] ")
    ensures Filter(LinkText(l, u) + x, c => c !in "[] ") == Filter(l + " (" + u + ")" + y, c => c !in "[] ")
  {
    FilterLinkSide(l, u, x, "[", "](");
    FilterLinkSide(l, u, y, "", " (");
    assert "" + l == l;
  }

  /** The bracket-and-space filter of `a l b u ) x`, for `a` without kept
      characters and `b` keeping only its opening parenthesis. */
  lemma FilterLinkSide(l: string, u: string, x: string, a: string, b: string)
    requires a == "[" || a == ""
    requires b == "](" || b == " ("
    ensures Filter(a + l + b + u + ")" + x, c => c !in "[] ")
         == Filter(l, c => c !in "[] ") + "(" + Filter(u, c => c !in "[] ") + ")" + Filter(x, c => c !in "[] ")
  {
    var keep := c => c !in "[] ";
    var fl, fu, fx := Filter(l, keep), Filter(u, keep), Filter(x, keep);
    assert Filter(a, keep) == [] by {
      if a == "[" { assert a[1..] == []; }
    }
    assert Filter(b, keep) == "(" by {
      assert b[1..][1..] == [];
      assert !keep(b[0]) && keep(b[1..][0]);
    }
    assert Filter(")", keep) == ")" by {
      assert ")"[1..] == [];
    }
    calc {
      Filter(a + l + b + u + ")" + x, keep);
      { FilterAppend(a + l + b + u + ")", x, keep); }
      Filter(a + l + b + u + ")", keep) + fx;
      { FilterAppend(a + l + b + u, ")", keep); }
      Filter(a + l + b + u, keep) + ")" + fx;
      { FilterAppend(a + l + b, u, keep); }
      Filter(a + l + b, keep) + fu + ")" + fx;
      { FilterAppend(a + l, b, keep); }
      Filter(a + l, keep) + "(" + fu + ")" + fx;
      { FilterAppend(a, l, keep); }
      fl + "(" + fu + ")" + fx;
    }
  }

  /** Rewriting `[l](u)` as `l (u)` only deletes the brackets and inserts a space:
      every other character survives, in order. */
  lemma {:induction false} LinkToTextKeepsText(s: string)
    ensures Filter(Sub(Re(Link), LinkAsText, s), c => c !in "[] ") == Filter(s, c => c !in "[] ")
    decreases |s|
  {
    var p := Re(Link);
    if s != [] {
      if p(s).Some? {
        LinkToTextKeepsText(s[p(s).value.len..]);
        LinkMatchStep(s);
      } else {
        LinkToTextKeepsText(s[1..]);
        NoMatchStep(p, LinkAsText, s, c => c !in "[] ");
      }
    }
  }

  /** The induction step of LinkToTextKeepsText over a link. */
  lemma LinkMatchStep(s: string)
    requires s != [] && Re(Link)(s).Some?
    requires var rest := s[Re(Link)(s).value.len..];
      Filter(Sub(Re(Link), LinkAsText, rest), c => c !in "[] ") == Filter(rest, c => c !in "[] ")
    ensures Filter(Sub(Re(Link), LinkAsText, s), c => c !in "[] ") == Filter(s, c => c !in "[] ")
  {
    var m := Re(Link)(s).value;
    LinkShape(s);
    FilterLink(m.groups[1], m.groups[2], s[m.len..], Sub(Re(Link), LinkAsText, s[m.len..]));
  }

  /** One link and its rewrite as text. */
  lemma LinkShape(s: string)
    requires s != [] && Re(Link)(s).Some?
    ensures var m := Re(Link)(s).value;
      && |m.groups| == 3
      && s == LinkText(m.groups[1], m.groups[2]) + s[m.len..]
      && Sub(Re(Link), LinkAsText, s) == m.groups[1] + " (" + m.groups[2] + ")" + Sub(Re(Link), LinkAsText, s[m.len..])
  {
    var m := Re(Link)(s).value;
    assert Re(Link)(s) == LinkAt(s);
    LinkSplit(s, m);
    SubStepMatch(Re(Link), LinkAsText, s);
    ExpandLinkAsText(m.groups);
  }

  /** A link match splits the text into the link and the rest. */
  lemma LinkSplit(s: string, m: Match)
    requires LinkAt(s) == Some(m)
    ensures |m.groups| == 3 && s == LinkText(m.groups[1], m.groups[2]) + s[m.len..]
  {
    LinkAtSound(s);
    assert s == s[..m.len] + s[m.len..];
  }
}
