/**
 * String primitives with the exact semantics of the Python and JavaScript
 * built-ins the repository relies on: whitespace classes, strip/trim,
 * startswith, substring search, split/join, decimal printing and parsing,
 * `padStart` and `parseInt`.
 */
module Strings {
  import opened Wrappers
  import opened Seqs

  // ---------------------------------------------------------------- whitespace

  /** Python's `str.isspace()` for one character: the class used by `strip()`,
      `rstrip()` and by `\s` in a `str` regular expression. */
  predicate IsPySpace(c: char)
  {
    ('\t' <= c <= '\r') || ('\U{1C}' <= c <= ' ') || c == '\U{85}' || c == '\U{A0}'
    || c == '\U{1680}' || ('\U{2000}' <= c <= '\U{200A}') || c == '\U{2028}'
    || c == '\U{2029}' || c == '\U{202F}' || c == '\U{205F}' || c == '\U{3000}'
  }

  /** ECMAScript WhiteSpace and LineTerminator: the class used by `trim()`,
      `parseInt` and `\s` in a JavaScript regular expression. */
  predicate IsJsSpace(c: char)
  {
    ('\t' <= c <= '\r') || c == ' ' || c == '\U{A0}' || c == '\U{1680}'
    || ('\U{2000}' <= c <= '\U{200A}') || c == '\U{2028}' || c == '\U{2029}'
    || c == '\U{202F}' || c == '\U{205F}' || c == '\U{3000}' || c == '\U{FEFF}'
  }

  /** Drops the leading characters of class sp. */
  function TrimLeft(s: string, sp: char -> bool): string
  {
    if s != [] && sp(s[0]) then TrimLeft(s[1..], sp) else s
  }

  /** TrimLeft keeps a suffix, drops only characters of class sp, and stops at
      the first character outside it. */
  lemma {:induction false} TrimLeftSpec(s: string, sp: char -> bool)
    ensures var r := TrimLeft(s, sp);
      && |r| <= |s| && r == s[|s| - |r|..]
      && (r != [] ==> !sp(r[0]))
      && forall i :: 0 <= i < |s| - |r| ==> sp(s[i])
  {
    if s != [] && sp(s[0]) {
      var t := s[1..];
      TrimLeftSpec(t, sp);
      var r := TrimLeft(t, sp);
      assert TrimLeft(s, sp) == r;
      assert t[|t| - |r|..] == s[|s| - |r|..];
      forall i | 0 <= i < |s| - |r| ensures sp(s[i]) {
        if i > 0 {
          assert s[i] == t[i - 1];
        }
      }
    }
  }

  /** Drops the trailing characters of class sp. */
  function TrimRight(s: string, sp: char -> bool): string
  {
    if s != [] && sp(s[|s| - 1]) then TrimRight(s[..|s| - 1], sp) else s
  }

  /** TrimRight keeps a prefix, drops only characters of class sp, and stops at
      the last character outside it. */
  lemma {:induction false} TrimRightSpec(s: string, sp: char -> bool)
    ensures var r := TrimRight(s, sp);
      && |r| <= |s| && r == s[..|r|]
      && (r != [] ==> !sp(r[|r| - 1]))
      && forall i :: |r| <= i < |s| ==> sp(s[i])
  {
    if s != [] && sp(s[|s| - 1]) {
      TrimRightSpec(s[..|s| - 1], sp);
    }
  }

  /** Python `s.strip()`. */
  function PyStrip(s: string): string
  {
    TrimRight(TrimLeft(s, IsPySpace), IsPySpace)
  }

  /** Python `s.rstrip()`. */
  function PyRStrip(s: string): string
  {
    TrimRight(s, IsPySpace)
  }

  /** JavaScript `s.trim()`. */
  function JsTrim(s: string): string
  {
    TrimRight(TrimLeft(s, IsJsSpace), IsJsSpace)
  }

  /** Stripping only removes characters. */
  lemma PyStripKeepsChars(s: string)
    ensures forall c :: c in PyStrip(s) ==> c in s
  {
    var l := TrimLeft(s, IsPySpace);
    TrimLeftSpec(s, IsPySpace);
    TrimRightSpec(l, IsPySpace);
    assert forall i :: 0 <= i < |PyStrip(s)| ==> PyStrip(s)[i] == l[i] == s[|s| - |l| + i];
  }

  /** Python's `not s.strip()`: the line is empty or all whitespace. */
  predicate IsBlank(s: string)
  {
    PyStrip(s) == ""
  }

  lemma BlankIffAllSpace(s: string)
    ensures IsBlank(s) <==> forall i :: 0 <= i < |s| ==> IsPySpace(s[i])
  {
    var l := TrimLeft(s, IsPySpace);
    TrimLeftSpec(s, IsPySpace);
    TrimRightSpec(l, IsPySpace);
    assert l != [] ==> l[0] == s[|s| - |l|];
  }

  /** A string that starts with a non-space keeps its head when stripped: the
      result is a non-empty prefix. */
  lemma StripKeepsHead(s: string)
    requires s != [] && !IsPySpace(s[0])
    ensures var r := PyStrip(s); 0 < |r| <= |s| && r == s[..|r|]
  {
    TrimRightSpec(s, IsPySpace);
  }

  lemma StripOfNonBlankIsNonEmpty(s: string)
    requires exists i :: 0 <= i < |s| && !IsPySpace(s[i])
    ensures PyStrip(s) != ""
  {
    BlankIffAllSpace(s);
  }

  // ---------------------------------------------------------------- search

  /** `s.startswith(p)` / `s.startsWith(p)`. */
  predicate StartsWith(s: string, p: string)
  {
    |p| <= |s| && s[..|p|] == p
  }

  /** `s.endswith(p)` / `s.endsWith(p)`. */
  predicate EndsWith(s: string, p: string)
  {
    |p| <= |s| && s[|s| - |p|..] == p
  }

  /** `p in s` / `s.includes(p)`: p occurs in s at some position. */
  predicate Contains(s: string, p: string)
    decreases |s|
  {
    StartsWith(s, p) || (s != [] && Contains(s[1..], p))
  }

  /** The position characterisation of Contains. */
  lemma {:induction false} ContainsAt(s: string, p: string, k: nat)
    requires k + |p| <= |s| && s[k..k + |p|] == p
    ensures Contains(s, p)
    decreases k
  {
    if k > 0 {
      assert s[1..][k - 1..k - 1 + |p|] == s[k..k + |p|];
      ContainsAt(s[1..], p, k - 1);
    }
  }

  lemma {:induction false} ContainsWitness(s: string, p: string) returns (k: nat)
    requires Contains(s, p)
    ensures k + |p| <= |s| && s[k..k + |p|] == p
    decreases |s|
  {
    if StartsWith(s, p) {
      k := 0;
    } else {
      var k' := ContainsWitness(s[1..], p);
      assert s[1..][k'..k' + |p|] == s[k' + 1..k' + 1 + |p|];
      k := k' + 1;
    }
  }

  /** A string in which the one-character string [c] occurs contains c. */
  lemma {:induction false} ContainsCharIff(s: string, c: char)
    ensures Contains(s, [c]) <==> c in s
    decreases |s|
  {
    if s != [] {
      ContainsCharIff(s[1..], c);
      assert s == [s[0]] + s[1..];
    }
  }

  /** Index of the first occurrence of c. */
  function IndexOf(s: string, c: char): (i: nat)
    requires c in s
    ensures i < |s| && s[i] == c && c !in s[..i]
  {
    if s[0] == c then 0 else 1 + IndexOf(s[1..], c)
  }

  // ---------------------------------------------------------------- split / join

  /** `xs.join(sep)` / `sep.join(xs)`. */
  function Join(xs: seq<string>, sep: string): string
  {
    if xs == [] then "" else if |xs| == 1 then xs[0] else xs[0] + sep + Join(xs[1..], sep)
  }

  /** `s.split(c)` for a one-character separator (same in Python and JavaScript). */
  function Split(s: string, c: char): (r: seq<string>)
    ensures |r| >= 1
    ensures forall k :: 0 <= k < |r| ==> c !in r[k]
    ensures Join(r, [c]) == s
    decreases |s|
  {
    if c !in s then [s]
    else
      var i := IndexOf(s, c);
      assert s == s[..i] + [c] + s[i + 1..];
      [s[..i]] + Split(s[i + 1..], c)
  }

  /** The first c sits right after a c-free prefix. */
  lemma {:induction false} IndexOfAfterPrefix(a: string, c: char, b: string)
    requires c !in a
    ensures c in a + [c] + b && IndexOf(a + [c] + b, c) == |a|
  {
    assert (a + [c] + b)[|a|] == c;
    if a != [] {
      assert (a + [c] + b)[1..] == a[1..] + [c] + b;
      IndexOfAfterPrefix(a[1..], c, b);
    }
  }

  /** A separator-free head splits off as the first piece. */
  lemma SplitCons(a: string, c: char, b: string)
    requires c !in a
    ensures Split(a + [c] + b, c) == [a] + Split(b, c)
  {
    var s := a + [c] + b;
    IndexOfAfterPrefix(a, c, b);
    assert s[..|a|] == a;
    assert s[|a| + 1..] == b;
  }

  /** Splitting a join of separator-free pieces gives the pieces back. */
  /** Three dash-free pieces joined by dashes split back into the pieces. */
  lemma SplitThree(c: string, d: string, e: string)
    requires '-' !in c && '-' !in d && '-' !in e
    ensures |Split(c + "-" + d + "-" + e, '-')| == 3
    ensures Split(c + "-" + d + "-" + e, '-')[0] == c
    ensures Split(c + "-" + d + "-" + e, '-')[1] == d
    ensures Split(c + "-" + d + "-" + e, '-')[2] == e
  {
    AppendAssoc(c + "-", d, "-");
    AppendAssoc(c + "-", d + "-", e);
    SplitCons(c, '-', d + "-" + e);
    SplitCons(d, '-', e);
  }

  lemma SplitFour(b: string, c: string, d: string, e: string)
    requires '-' !in b && '-' !in c && '-' !in d && '-' !in e
    ensures |Split(b + "-" + c + "-" + d + "-" + e, '-')| == 4
    ensures Split(b + "-" + c + "-" + d + "-" + e, '-')[0] == b
    ensures Split(b + "-" + c + "-" + d + "-" + e, '-')[1..] == Split(c + "-" + d + "-" + e, '-')
  {
    var h := b + "-";
    AppendAssoc(h, c, "-");
    AppendAssoc(h, c + "-", d);
    AppendAssoc(h, c + "-" + d, "-");
    AppendAssoc(h, c + "-" + d + "-", e);
    var t := c + "-" + d + "-" + e;
    assert b + "-" + c + "-" + d + "-" + e == b + "-" + t;
    SplitCons(b, '-', t);
    SplitThree(c, d, e);
  }

  /** Five dash-free pieces joined by dashes split back into the pieces. */
  lemma SplitFive(a: string, b: string, c: string, d: string, e: string)
    requires '-' !in a && '-' !in b && '-' !in c && '-' !in d && '-' !in e
    ensures |Split(a + "-" + b + "-" + c + "-" + d + "-" + e, '-')| == 5
    ensures Split(a + "-" + b + "-" + c + "-" + d + "-" + e, '-')[0] == a
    ensures Split(a + "-" + b + "-" + c + "-" + d + "-" + e, '-')[1] == b
    ensures Split(a + "-" + b + "-" + c + "-" + d + "-" + e, '-')[2] == c
    ensures Split(a + "-" + b + "-" + c + "-" + d + "-" + e, '-')[3] == d
    ensures Split(a + "-" + b + "-" + c + "-" + d + "-" + e, '-')[4] == e
  {
    var h := a + "-";
    AppendAssoc(h, b, "-");
    AppendAssoc(h, b + "-", c);
    AppendAssoc(h, b + "-" + c, "-");
    AppendAssoc(h, b + "-" + c + "-", d);
    AppendAssoc(h, b + "-" + c + "-" + d, "-");
    AppendAssoc(h, b + "-" + c + "-" + d + "-", e);
    var t := b + "-" + c + "-" + d + "-" + e;
    assert a + "-" + b + "-" + c + "-" + d + "-" + e == a + "-" + t;
    SplitCons(a, '-', t);
    SplitFour(b, c, d, e);
    SplitThree(c, d, e);
  }

  lemma {:induction false} SplitJoin(xs: seq<string>, c: char)
    requires |xs| >= 1
    requires forall k :: 0 <= k < |xs| ==> c !in xs[k]
    ensures Split(Join(xs, [c]), c) == xs
  {
    if |xs| > 1 {
      var rest := Join(xs[1..], [c]);
      var s := Join(xs, [c]);
      assert s == xs[0] + [c] + rest;
      IndexOfAfterPrefix(xs[0], c, rest);
      assert s[..|xs[0]|] == xs[0];
      assert s[|xs[0]| + 1..] == rest;
      SplitJoin(xs[1..], c);
    }
  }

  /** Deletes every occurrence of c (`s.replace(/c/g, '')`). */
  function RemoveChar(s: string, c: char): (r: string)
    ensures c !in r
    ensures forall d :: d != c ==> (d in r <==> d in s)
  {
    if s == [] then [] else (if s[0] == c then [] else [s[0]]) + RemoveChar(s[1..], c)
  }

  /** Replaces the first occurrence of c by d (`s.replace('F', '-')`). */
  function ReplaceFirst(s: string, c: char, d: char): (r: string)
    ensures |r| == |s|
    ensures c in s ==> r == s[IndexOf(s, c) := d]
    ensures c !in s ==> r == s
  {
    if c in s then s[IndexOf(s, c) := d] else s
  }

  /** `c * n` / `c.repeat(n)`. */
  function Repeat(c: char, n: nat): (r: string)
    ensures |r| == n && forall i :: 0 <= i < n ==> r[i] == c
  {
    if n == 0 then "" else [c] + Repeat(c, n - 1)
  }

  /** `s.padStart(n, c)`. */
  function PadStart(s: string, n: nat, c: char): (r: string)
    ensures |s| >= n ==> r == s
    ensures |s| < n ==> |r| == n && r[n - |s|..] == s && forall i :: 0 <= i < n - |s| ==> r[i] == c
  {
    if |s| >= n then s else Repeat(c, n - |s|) + s
  }

  // ---------------------------------------------------------------- decimal numbers

  predicate IsDigit(c: char)
  {
    '0' <= c <= '9'
  }

  predicate AllDigits(s: string)
  {
    forall i :: 0 <= i < |s| ==> IsDigit(s[i])
  }

  function DigitValue(c: char): nat
    requires IsDigit(c)
  {
    (c as int - '0' as int) as nat
  }

  function DigitChar(d: nat): (c: char)
    requires d < 10
    ensures IsDigit(c) && DigitValue(c) == d
  {
    ('0' as int + d) as char
  }

  /** The value of a string of decimal digits, most significant first. */
  function DigitsValue(s: string): nat
    requires AllDigits(s)
  {
    if s == [] then 0 else 10 * DigitsValue(s[..|s| - 1]) + DigitValue(s[|s| - 1])
  }

  /** Leading zeros do not change the value. */
  lemma {:induction false} DigitsValueLeadingZero(s: string)
    requires AllDigits(s)
    ensures AllDigits("0" + s) && DigitsValue("0" + s) == DigitsValue(s)
  {
    if s != [] {
      assert ("0" + s)[..|"0" + s| - 1] == "0" + s[..|s| - 1];
      DigitsValueLeadingZero(s[..|s| - 1]);
    }
  }

  /** Padding a digit run on the left with zeros keeps it a digit run of the same value. */
  lemma {:induction false} ZeroPadKeepsValue(s: string, n: nat)
    requires AllDigits(s)
    ensures AllDigits(PadStart(s, n, '0')) && DigitsValue(PadStart(s, n, '0')) == DigitsValue(s)
  {
    if |s| < n {
      ZerosKeepValue(n - |s|, s);
    }
  }

  lemma {:induction false} ZerosKeepValue(j: nat, s: string)
    requires AllDigits(s)
    ensures AllDigits(Repeat('0', j) + s) && DigitsValue(Repeat('0', j) + s) == DigitsValue(s)
  {
    if j > 0 {
      ZerosKeepValue(j - 1, s);
      assert Repeat('0', j) + s == "0" + (Repeat('0', j - 1) + s);
      DigitsValueLeadingZero(Repeat('0', j - 1) + s);
    } else {
      assert Repeat('0', j) + s == s;
    }
  }

  /** `String(n)` for a non-negative integer. */
  function NatToString(n: nat): (r: string)
    ensures r != [] && AllDigits(r)
    ensures DigitsValue(r) == n
    ensures n > 0 ==> r[0] != '0'
    ensures (|r| == 1) == (n < 10)
  {
    if n < 10 then [DigitChar(n)]
    else
      var r := NatToString(n / 10) + [DigitChar(n % 10)];
      assert r[..|r| - 1] == NatToString(n / 10);
      r
  }

  /** `String(i)` / `${i}` for an integer. */
  function IntToString(i: int): (r: string)
    ensures r != []
    ensures i >= 0 ==> r == NatToString(i)
    ensures i < 0 ==> r == "-" + NatToString(-i)
  {
    if i < 0 then "-" + NatToString(-i) else NatToString(i)
  }

  /** Printing never yields a `-` inside a non-negative number. */
  lemma NatToStringHasNoDash(n: nat)
    ensures '-' !in NatToString(n)
  {
    var r := NatToString(n);
    assert forall k :: 0 <= k < |r| ==> IsDigit(r[k]);
  }

  /** Only 0 prints as "0", so distinct values print differently. */
  lemma {:induction false} NatToStringInjective(m: nat, n: nat)
    requires NatToString(m) == NatToString(n)
    ensures m == n
  {
    assert DigitsValue(NatToString(m)) == m;
  }

  // ---------------------------------------------------------------- parseInt

  predicate IsHexDigit(c: char)
  {
    IsDigit(c) || 'a' <= c <= 'f' || 'A' <= c <= 'F'
  }

  function HexDigitValue(c: char): nat
    requires IsHexDigit(c)
  {
    if IsDigit(c) then DigitValue(c)
    else if 'a' <= c <= 'f' then (c as int - 'a' as int + 10) as nat
    else (c as int - 'A' as int + 10) as nat
  }

  function HexValue(s: string): nat
    requires forall i :: 0 <= i < |s| ==> IsHexDigit(s[i])
  {
    if s == [] then 0 else 16 * HexValue(s[..|s| - 1]) + HexDigitValue(s[|s| - 1])
  }

  /** The longest prefix of s whose characters all satisfy ok. */
  function TakeWhile(s: string, ok: char -> bool): (r: string)
    ensures |r| <= |s|
  {
    if s != [] && ok(s[0]) then [s[0]] + TakeWhile(s[1..], ok) else ""
  }

  /** TakeWhile is the longest prefix whose characters all satisfy ok. */
  lemma {:induction false} TakeWhileSpec(s: string, ok: char -> bool)
    ensures var r := TakeWhile(s, ok);
      && |r| <= |s| && r == s[..|r|]
      && (forall i :: 0 <= i < |r| ==> ok(r[i]))
      && (|r| < |s| ==> !ok(s[|r|]))
  {
    if s != [] && ok(s[0]) {
      TakeWhileSpec(s[1..], ok);
      var r := TakeWhile(s[1..], ok);
      assert forall i :: 0 < i <= |r| ==> ([s[0]] + r)[i] == r[i - 1];
    }
  }

  /** TakeWhile stops exactly at the first character that fails ok. */
  lemma {:induction false} TakeWhileExact(s: string, x: string, ok: char -> bool)
    requires |x| <= |s| && s[..|x|] == x
    requires forall i :: 0 <= i < |x| ==> ok(x[i])
    requires |x| == |s| || !ok(s[|x|])
    ensures TakeWhile(s, ok) == x
  {
    if x != [] {
      assert s[1..][..|x| - 1] == x[1..];
      TakeWhileExact(s[1..], x[1..], ok);
    }
  }

  /** JavaScript `parseInt(s)` (no radix argument): leading whitespace, an
      optional sign, an optional `0x`/`0X` prefix selecting base 16, then the
      longest run of digits; `None` stands for NaN. */
  function JsParseInt(s: string): (r: Option<int>)
  {
    var t := TrimLeft(s, IsJsSpace);
    var negative := t != [] && t[0] == '-';
    var u := if t != [] && (t[0] == '-' || t[0] == '+') then t[1..] else t;
    if |u| >= 2 && u[0] == '0' && (u[1] == 'x' || u[1] == 'X') then
      var h := TakeWhile(u[2..], IsHexDigit);
      TakeWhileSpec(u[2..], IsHexDigit);
      var v: int := if negative then -(HexValue(h) as int) else HexValue(h) as int;
      if h == [] then None else Some(v)
    else
      var d := TakeWhile(u, IsDigit);
      TakeWhileSpec(u, IsDigit);
      var v: int := if negative then -(DigitsValue(d) as int) else DigitsValue(d) as int;
      if d == [] then None else Some(v)
  }

  /** parseInt reads back any printed non-negative integer, also with leading zeros. */
  lemma ParseIntOfDigits(s: string)
    requires s != [] && AllDigits(s)
    ensures JsParseInt(s) == Some(DigitsValue(s))
  {
    assert TrimLeft(s, IsJsSpace) == s by { assert !IsJsSpace(s[0]); }
    assert !(s[0] == '-' || s[0] == '+');
    if |s| >= 2 { assert !(s[1] == 'x' || s[1] == 'X') by { assert IsDigit(s[1]); } }
    TakeWhileAll(s, IsDigit);
  }

  lemma {:induction false} TakeWhileAll(s: string, ok: char -> bool)
    requires forall i :: 0 <= i < |s| ==> ok(s[i])
    ensures TakeWhile(s, ok) == s
  {
    if s != [] {
      TakeWhileAll(s[1..], ok);
    }
  }

  /** parseInt(String(n)) == n. */
  lemma ParseIntOfNatToString(n: nat)
    ensures JsParseInt(NatToString(n)) == Some(n)
  {
    ParseIntOfDigits(NatToString(n));
  }

  /** parseInt(String(n).padStart(2, '0')) == n. */
  lemma ParseIntOfPadded(n: nat)
    ensures JsParseInt(PadStart(NatToString(n), 2, '0')) == Some(n)
  {
    var s := NatToString(n);
    if |s| < 2 {
      assert PadStart(s, 2, '0') == "0" + s;
      DigitsValueLeadingZero(s);
      ParseIntOfDigits("0" + s);
    } else {
      ParseIntOfDigits(s);
    }
  }

  // ---------------------------------------------------------------- Number()

  /** JavaScript `Number(s)` on a string, for the forms the repository feeds
      it: blank is 0, a run of ASCII digits is its value, anything else NaN. */
  function JsNumber(s: string): (r: Option<int>)
    ensures r.Some? ==> r.value >= 0
  {
    var t := JsTrim(s);
    if t == "" then Some(0) else if AllDigits(t) then Some(DigitsValue(t)) else None
  }

  // ---------------------------------------------------------------- ordering

  /** Lexicographic order by character code: Python `sorted` / `<` on strings,
      JavaScript default `sort()` and (for the ASCII keys used) `localeCompare`. */
  predicate StrLt(a: string, b: string)
    decreases |a|
  {
    if a == [] then b != []
    else b != [] && (a[0] < b[0] || (a[0] == b[0] && StrLt(a[1..], b[1..])))
  }

  lemma {:induction false} StrLtIrreflexive(a: string)
    ensures !StrLt(a, a)
  {
    if a != [] {
      StrLtIrreflexive(a[1..]);
    }
  }

  lemma {:induction false} StrLtTransitive(a: string, b: string, c: string)
    requires StrLt(a, b) && StrLt(b, c)
    ensures StrLt(a, c)
    decreases |a|
  {
    if a != [] && b != [] && c != [] && a[0] == b[0] && b[0] == c[0] {
      StrLtTransitive(a[1..], b[1..], c[1..]);
    }
  }

  lemma {:induction false} StrLtTotal(a: string, b: string)
    ensures StrLt(a, b) || StrLt(b, a) || a == b
    decreases |a|
  {
    if a != [] && b != [] && a[0] == b[0] {
      StrLtTotal(a[1..], b[1..]);
      if a[1..] == b[1..] {
        assert a == [a[0]] + a[1..] && b == [b[0]] + b[1..];
      }
    }
  }
}
