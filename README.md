# Boat-race prediction site: verified model of its core logic

The site publishes AI predictions for Japanese boat races (競艇). Each race
has six racers and goes with a predicted top pick and top three. This
Dafny project models the sequential logic under the site's UI, scraping and
API plumbing, one module per source file:

- **Markdown tools.** These are the four Python scripts that turn blog articles into
  HTML (`convert_md_to_html.py`), note plain text (`convert_to_note_format.py`) and
  note-constrained Markdown (`convert_to_note_markdown.py`), and normalise
  whitespace (`normalize_markdown.py`). The line transducers are methods
  with loops. Each is proved against a recursive specification function.
  `re.sub` becomes explicit leftmost, greedy, non-overlapping scanners.
- **Bet-hit judgement and aggregation** (`Bets`, shared). 単勝 (win): the
  top pick finished first. 複勝 (place): it finished first or second.
  3連複 (the source calls it `trifecta`; its payout key is the sorted ranks):
  the three winners appear in the top three in any order. 3連単 (the source
  calls it `trio`; its key is the finishing order): they appear in exact
  order. Hit counts, recovery rates, grouping and sorting sit on top of these in
  `scripts/calculate-accuracy.js`, `HitRaces.jsx`, `RaceDetail.jsx`,
  `RaceHistory.jsx` and `AccuracyDashboard.jsx`.
- **Pipeline data transforms.** These are the payout-table row state machine and the
  re-scrape skip rule of `scripts/scrape-results.js`, and the prediction
  record and `raceId` of `scripts/generate-predictions.js`. The `raceId` round-trips with the
  parser in `HitRaces.jsx`. Also here are the URL builder, the five-minute cache (a class
  whose `Handle` method updates it) and the six-racer merge of
  `api/scrape-races.js`, the append/update partition of
  `scripts/update-google-sheets.js`, the page selection and XML serialiser
  of `scripts/generate-sitemap.js`, and the queries of `src/data/blogPosts.js`.
- **Small helpers.** The start-time arithmetic of `src/App.jsx`, the route-to-tab
  mapping of `Header.jsx`, and the relative-time buckets of
  `UpdateStatus.jsx`.

Shared modules: `Wrappers` (Option), `Strings` (Python and JavaScript string
primitives and number/string conversion), `Seqs`, `Sorting` (a stable
insertion sort under a strict weak order, the order that `Array.prototype.sort`
and Python's `sorted` promise), and `Grouping` (grouping into
the order in which keys first appear). That is the order `Object.values`
gives for the string keys of `HitRaces.jsx` (venue names) and
`RaceHistory.jsx` (month keys). For the integer venue codes that key
`venueMap` in `RaceDetail.jsx`, JavaScript lists the values in ascending
numeric order instead. The model's first-appearance order ends up with the
same venue list there only because the venues are then sorted by their
distinct codes.

JavaScript semantics are written out where they matter:
- `x || d` treats undefined, null, 0 and the empty string as missing;
- `%` truncates toward zero;
- `Math.floor` of a quotient by a positive divisor is Dafny's `/`;
- `str.replace(s, '')` removes only the first occurrence;
- an unparsable date (NaN) is `None`;
- `localeCompare` and the default `sort()` compare by code unit.

Counts and payouts are `int`. Rates are `real`, which is exact, unlike floating point. The exception is `Predictions`, where racer rates are integers at their printed precision.

The Markdown tools behave as follows:
- The bare-URL pass also matches URLs that the link pass has already placed in an
  `href`, so such a link is wrapped a second time.
- `markdown_to_html` does not close an open list on a heading or a `---`
  rule. It emits them inside the list, and the list's end is detected only by
  a blank line, a table, a paragraph or the end of input.
- The whitespace normaliser rewrites every run of three or more newlines
  to exactly two, so at most one blank line remains between two lines of
  text.
- An ordered item is digits, a period, one or more whitespace characters and
  a non-empty text (`^(\d+)\.\s+(.+)$`). The whitespace may be more than one
  character.
- The `optimize_for_note` collapse leaves at most one blank line, as the
  code does. Its comment says two.

## Model

| member | source | states |
|---|---|---|
| `Normalize.ExpandTabs` | normalize_markdown.py:23 | the result holds no tab |
| `Normalize.TabBecomesFourSpaces` | normalize_markdown.py:23 | a tab between two texts becomes exactly four spaces, each side rewritten on its own |
| `Normalize.ExpandTabsFixed` | normalize_markdown.py:23 | a tab-free text is left unchanged |
| `Normalize.UnifyNewlines` | normalize_markdown.py:26 | the result of the two replacements holds no carriage return |
| `Normalize.CrLfBecomesLf` | normalize_markdown.py:26 | a CRLF pair becomes a single line feed, the texts on either side rewritten independently |
| `Normalize.LoneCrBecomesLf` | normalize_markdown.py:26 | a carriage return not followed by a line feed becomes a line feed |
| `Normalize.ReplaceCrLfAppend` | normalize_markdown.py:26 | the CRLF replacement distributes over a concatenation that does not split a CRLF pair |
| `Normalize.UnifyFixed` | normalize_markdown.py:26 | a text without carriage returns is left unchanged |
| `Normalize.UnifyKeepsOut` | normalize_markdown.py:26 | the newline rewrite introduces no character other than the line feed |
| `Normalize.StripLinesClean` | normalize_markdown.py:29-31 | after splitting, right-stripping every line and re-joining, no line ends in whitespace |
| `Normalize.StripLinesFixed` | normalize_markdown.py:29-31 | a text none of whose lines ends in whitespace is left unchanged |
| `Normalize.StripLinesKeepsOut` | normalize_markdown.py:29-31 | stripping lines introduces no character other than the line feed |
| `Normalize.RStripAll` | normalize_markdown.py:30 | the comprehension keeps the number of lines |
| `Normalize.CollapseNoTriple` | normalize_markdown.py:34 | after the `\n{3,}` substitution no three consecutive line feeds remain |
| `Normalize.CollapseKeepsClean` | normalize_markdown.py:34 | collapsing newline runs keeps every line free of trailing whitespace |
| `Normalize.CollapseFixed` | normalize_markdown.py:34 | a text without three consecutive line feeds is left unchanged |
| `Normalize.CollapseKeepsOut` | normalize_markdown.py:34 | the substitution introduces no character other than the line feed |
| `Normalize.NormalizeMarkdownClean` | normalize_markdown.py:23-34 | the normalised text has no tab, no carriage return, no line ending in whitespace and no three consecutive line feeds |
| `Normalize.NormalizeMarkdownIdempotent` | normalize_markdown.py:23-34 | normalising a normalised text returns it unchanged |
| `Normalize.NormalizeMarkdownKeepsText` | normalize_markdown.py:23-34 | the non-whitespace characters of the text survive in order, none added or lost |
| `Normalize.ExpandTabsKeepsText` | normalize_markdown.py:23 | tab expansion keeps the non-whitespace characters in order |
| `Normalize.ReplaceCrLfKeepsText` | normalize_markdown.py:26 | the CRLF replacement keeps the non-whitespace characters in order |
| `Normalize.ReplaceCrKeepsText` | normalize_markdown.py:26 | the CR replacement keeps the non-whitespace characters in order |
| `Normalize.StripLinesKeepsText` | normalize_markdown.py:29-31 | right-stripping lines keeps the non-whitespace characters in order |
| `Normalize.CollapseKeepsText` | normalize_markdown.py:34 | collapsing newline runs keeps the non-whitespace characters in order |
| `MdLines.Hashes` | convert_md_to_html.py:35-58 | the heading prefix of level k is k `#` characters and a space |
| `MdLines.HeadingOfSpec` | convert_md_to_html.py:35-58 | a line is a heading of level 1 to 4 exactly when it starts with that many `#` and a space, tested from `#### ` down; the text is the stripped remainder |
| `MdLines.HeadingLevelUnique` | convert_md_to_html.py:35-58 | no line starts with two heading prefixes of different levels |
| `MdLines.NotAHeading` | convert_md_to_html.py:35-58 | five or more `#`, or a `#` followed by anything but a space or `#`, is not a heading |
| `MdLines.NoHashNoHeading` | convert_md_to_html.py:35-58 | a line not starting with `#` is not a heading |
| `MdLines.OrderedMatchSpec` | convert_md_to_html.py:67 | `^(\d+)\.\s+(.+)$` matches exactly when the line splits as digits, a dot, whitespace and a non-empty rest; group 1 is the digits and group 2 the rest after the longest whitespace run that leaves it non-empty |
| `MdLines.OrderedSplit` | convert_md_to_html.py:67 | digits, a dot, a whitespace run and a non-space character give the split right after the whole run, and no later one |
| `MdLines.OrderedAllSpace` | convert_md_to_html.py:67 | when everything after the dot is whitespace, group 2 is its last character |
| `MdLines.OrderedStartsWithDigit` | convert_md_to_html.py:67 | an ordered item starts with a digit |
| `MdLines.DecompForcesA` | convert_md_to_html.py:67 | group 1 is always the whole leading digit run, followed by a dot |
| `MdLines.BulletIsNotOrdered` | convert_md_to_html.py:67-82 | a `- ` line never matches the ordered pattern |
| `MdLines.TableRowIsUnmarked` | convert_md_to_html.py:96 | a line whose stripped form starts with `\|` is not blank, not a heading, not a rule and not a list item |
| `MdLines.DelimiterIsDashRun` | convert_md_to_html.py:119 | the delimiter test `'\|---' in line or '\|------' in line` is the same as `'\|---' in line` |
| `MdLines.CellsAreClean` | convert_md_to_html.py:109 | no cell contains a `\|` |
| `MdInline.LinkAtSound` | convert_md_to_html.py:161 | a match of `\[([^\]]+)\]\(([^)]+)\)` is exactly `[label](target)` at the head of the text, with a non-empty label free of `]` and a non-empty target free of `)`; the two groups are label and target |
| `MdInline.LinkAtComplete` | convert_md_to_html.py:161 | every `[label](target)` of that shape at the head of the text is matched, with that label and target |
| `MdInline.LinkSplit` | convert_md_to_html.py:161 | a link match splits the text as the link followed by the rest |
| `MdInline.SchemeLen` | convert_md_to_html.py:164 | the scheme part of `https?://` is absent, `http://` or `https://` |
| `MdInline.SchemeSpec` | convert_md_to_html.py:164 | the URL pattern matches exactly where `http://` or `https://` is followed by at least one non-space character |
| `MdInline.UrlAtSpec` | convert_md_to_html.py:164 | a URL match is greedy: it takes every character up to the next whitespace or the end, and group 1 is the whole match |
| `MdInline.UrlStartsWithHt` | convert_md_to_html.py:164 | no URL match starts anywhere but at `ht` |
| `MdInline.SpanAtSound` | convert_md_to_html.py:167-170 | a match of `\*\*([^*]+)\*\*` or `` `([^`]+)` `` is the delimiter, a non-empty text free of the stop character, and the delimiter again; group 1 is the text |
| `MdInline.SpanAtComplete` | convert_md_to_html.py:167-170 | every delimiter–text–delimiter of that shape at the head of the text is matched, with that text as group 1 |
| `MdInline.MatchAt` | convert_md_to_html.py:161-170 | every match is non-empty, within the text, and its group 0 is the matched prefix |
| `MdInline.SubNoMatch` | convert_md_to_html.py:161-170 | `re.sub` leaves a text in which no position starts a match unchanged |
| `MdInline.SubStepNoMatch` | convert_md_to_html.py:161-170 | where no match starts, the character is copied and scanning moves one position on |
| `MdInline.SubStepMatch` | convert_md_to_html.py:161-170 | where a match starts, its replacement is emitted and scanning resumes right after the match |
| `MdInline.SubSkip` | convert_md_to_html.py:161-170 | a prefix in which no match starts is copied unchanged |
| `MdInline.SubWithoutAnchor` | convert_md_to_html.py:161-170 | a text without the pattern's first character (`[`, `h`, `*` or a backtick) is left unchanged |
| `MdInline.ExpandLinkAsText` | convert_to_note_format.py:89 | the replacement `\1 (\2)` is the label, a space and the target in parentheses |
| `MdInline.ExpandGroupOne` | convert_to_note_format.py:92-95 | the replacement `\1` is group 1 |
| `MdInline.LinkShape` | convert_to_note_format.py:89 | at a link match the text is the link followed by the rest, and the pass emits `label (target)` before rewriting the rest |
| `MdInline.SpanShape` | convert_to_note_format.py:92-95 | at a span match the text is delimiter, inner text, delimiter and rest, and the pass emits the inner text before rewriting the rest |
| `MdInline.LinkToTextKeepsText` | convert_to_note_format.py:89 | the link pass only deletes brackets and inserts a space: the other characters survive in order |
| `MdInline.SpanRemovalKeepsText` | convert_to_note_format.py:92-95 | a span pass only deletes its delimiter characters: the other characters survive in order |
| `MdToHtml.PlainTextUnchanged` | convert_md_to_html.py:158-172 | text with no `[`, `:`, `*` or backtick passes the four inline passes unchanged |
| `MdToHtml.LinkPassExpands` | convert_md_to_html.py:161 | the link pass turns `[label](target)` into `<a href="target">label</a>` |
| `MdToHtml.LinkTargetWrappedAgain` | convert_md_to_html.py:161-170 | the URL pass is unguarded: the `https://` target the link pass placed in an `href` is wrapped in a second anchor, so `[l](u)` comes out with nested anchors |
| `MdToHtml.UrlPassOnHref` | convert_md_to_html.py:164 | after `<a href="` the URL pass wraps everything up to the next whitespace, label and closing tag included |
| `MdToHtml.UrlPassSkipsHref` | convert_md_to_html.py:164 | the literal `<a href="` itself never starts a URL match |
| `MdToHtml.UrlPassWhole` | convert_md_to_html.py:164 | a whitespace-free text starting with `https://` becomes one anchor around the whole text |
| `MdToHtml.NoSpaceIsOneUrl` | convert_md_to_html.py:164 | such a text is a single URL match covering all of it |
| `MdToHtml.CodeFixed` | convert_md_to_html.py:170 | text without a backtick is unchanged by the code pass |
| `MdToHtml.BoldFixed` | convert_md_to_html.py:167 | text without `*` is unchanged by the bold pass |
| `MdToHtml.UrlFixed` | convert_md_to_html.py:164 | text without `:` is unchanged by the URL pass |
| `MdToHtml.LinkFixed` | convert_md_to_html.py:161 | text without `[` is unchanged by the link pass |
| `MdToHtml.ExpandFive` | convert_md_to_html.py:161-164 | the two anchor templates place the target or URL in the `href` and the label or URL as text |
| `MdToHtml.CellsHtml` | convert_md_to_html.py:112-114 | one element per cell |
| `MdToHtml.DataEnd` | convert_md_to_html.py:123 | the data rows run from j up to the first line that does not start with `\|` after stripping, or contains `---`, or the end |
| `MdToHtml.AfterDelimiter` | convert_md_to_html.py:118-120 | at most one line is skipped after the header row, and only a delimiter line |
| `MdToHtml.KindExclusive` | convert_md_to_html.py:66-93 | no line leaves both list flags set: opening one list closes the other |
| `MdToHtml.RenderLine` | convert_md_to_html.py:19-148 | a line that does not start a table contributes its own output and moves on by one line with the flags it leaves |
| `MdToHtml.RenderTable` | convert_md_to_html.py:96-136 | a table line closes any open list, emits the whole table block, and resumes after its data rows with both flags cleared |
| `MdToHtml.AppendRow` | convert_md_to_html.py:110-115 | appends nothing for a row with no cells, else `<tr>`, the cells and `</tr>` |
| `MdToHtml.AppendCells` | convert_md_to_html.py:112-114 | the inner loop appends one formatted cell per cell, in order |
| `MdToHtml.EmitLine` | convert_md_to_html.py:22-93 | one non-table line appends exactly its output and yields its new flags |
| `MdToHtml.AppendDataRows` | convert_md_to_html.py:123-132 | the data-row loop appends the rows' `<td>` output and stops at the first line that is not a data row |
| `MdToHtml.EmitTable` | convert_md_to_html.py:96-136 | the table branch appends the list closes and the table block, and returns the line after its data rows |
| `MdToHtml.Step` | convert_md_to_html.py:19-148 | one pass of the outer loop advances the cursor, keeps the flags exclusive, and keeps what has been emitted plus what remains equal to the whole output |
| `MdToHtml.Transduce` | convert_md_to_html.py:11-154 | the outer loop emits exactly the output the line-by-line specification gives, closing open lists at the end |
| `MdToHtml.MarkdownToHtml` | convert_md_to_html.py:11-156 | the result is the specified output lines joined with line feeds |
| `MdToHtmlProps.ListsBalanced` | convert_md_to_html.py:23-31 | the output has as many `</ul>` as `<ul>` and as many `</ol>` as `<ol>` |
| `MdToHtmlProps.RenderBalances` | convert_md_to_html.py:19-154 | from any line and exclusive flags, the opens and closes emitted account for the open lists and end with none open |
| `MdToHtmlProps.KindBalances` | convert_md_to_html.py:22-93 | one line's opens and closes account for how it moves the list flags |
| `MdToHtmlProps.TableBalance` | convert_md_to_html.py:105-135 | a table block holds no list tag |
| `MdToHtmlProps.TableHasNoListTag` | convert_md_to_html.py:105-135 | a table block contains no `<ul>`, `</ul>`, `<ol>` or `</ol>` |
| `MdToHtmlProps.CloseBalance` | convert_md_to_html.py:24-29 | closing emits one `</ul>` for an open bullet list and one `</ol>` for an open ordered list |
| `MdToHtmlProps.OrderedBalance` | convert_md_to_html.py:68-77 | an ordered item opens `<ol>` only when no ordered list is open, closing an open `<ul>` first |
| `MdToHtmlProps.BulletBalance` | convert_md_to_html.py:82-91 | a bullet item opens `<ul>` only when no bullet list is open, closing an open `<ol>` first |
| `MdToHtmlProps.CellsHtmlSpec` | convert_md_to_html.py:112-114 | the k-th cell element is the open tag, the formatted k-th cell and the close tag |
| `MdToHtmlProps.BlankLine` | convert_md_to_html.py:23-31 | a whitespace-only line closes any open list and emits exactly one `<br>` |
| `MdToHtmlProps.HeadingLine` | convert_md_to_html.py:35-58 | a heading line emits one `<hN>` with the formatted stripped text and leaves the list flags alone |
| `MdToHtmlProps.RuleLine` | convert_md_to_html.py:61-64 | a `---` line emits `<hr>` and leaves the list flags alone |
| `MdToHtmlProps.OrderedLine` | convert_md_to_html.py:67-79 | an ordered item emits its formatted group 2 as `<li>`, opening `<ol>` and closing `<ul>` as needed |
| `MdToHtmlProps.BulletLine` | convert_md_to_html.py:82-93 | a `- ` item emits its formatted stripped text as `<li>`, opening `<ul>` and closing `<ol>` as needed |
| `NotePlaintext.PlainTextKept` | convert_to_note_format.py:86-97 | text with no `[`, `*` or backtick is not changed by `remove_markdown_formatting` |
| `NotePlaintext.LinkBecomesText` | convert_to_note_format.py:86-97 | a whole `[l](u)` becomes `l (u)` |
| `NotePlaintext.LinkPassAsText` | convert_to_note_format.py:89 | the link pass alone turns `[l](u)` into `l (u)` |
| `NotePlaintext.BoldBecomesText` | convert_to_note_format.py:86-97 | a whole `**t**` loses its markers |
| `NotePlaintext.BoldPass` | convert_to_note_format.py:92 | the bold pass turns `**t**` into t |
| `NotePlaintext.CodeGone` | convert_to_note_format.py:95 | text without a backtick is unchanged by the code pass |
| `NotePlaintext.BoldGone` | convert_to_note_format.py:92 | text without `*` is unchanged by the bold pass |
| `NotePlaintext.LinkGone` | convert_to_note_format.py:89 | text without `[` is unchanged by the link pass |
| `NotePlaintext.FormattingKeepsText` | convert_to_note_format.py:86-97 | every character other than brackets, `*`, backticks and spaces survives, in order |
| `NotePlaintext.LinkPassKeeps` | convert_to_note_format.py:89 | the link pass keeps those characters in order |
| `NotePlaintext.BoldPassKeeps` | convert_to_note_format.py:92 | the bold pass keeps those characters in order |
| `NotePlaintext.CodePassKeeps` | convert_to_note_format.py:95 | the code pass keeps those characters in order |
| `NotePlaintext.ConvertAppend` | convert_to_note_format.py:16-82 | no state is carried between lines: converting a concatenation is converting each part |
| `NotePlaintext.ConvertOne` | convert_to_note_format.py:16-82 | a single line converts to its own output lines |
| `NotePlaintext.AppendLineOut` | convert_to_note_format.py:17-82 | the loop body appends exactly the lines of one input line |
| `NotePlaintext.ConvertLines` | convert_to_note_format.py:13-82 | the loop's output is the per-line outputs concatenated |
| `NotePlaintext.MarkdownToNotePlaintext` | convert_to_note_format.py:11-84 | the result is those lines joined with line feeds |
| `NotePlaintext.BlankBecomesEmpty` | convert_to_note_format.py:18-20 | a whitespace-only line becomes exactly one empty line |
| `NotePlaintext.HeadingBecomesText` | convert_to_note_format.py:23-46 | a heading becomes its stripped, de-formatted text and one empty line |
| `NotePlaintext.RuleBecomesSeparator` | convert_to_note_format.py:49-53 | a line whose stripped form is `---` becomes an empty line, 39 `━` and an empty line |
| `NotePlaintext.BulletBecomesDot` | convert_to_note_format.py:56-60 | `- x` becomes `・` and the de-formatted stripped x |
| `NotePlaintext.OrderedKeepsNumber` | convert_to_note_format.py:63-69 | an ordered item keeps its literal number, then `. ` and the de-formatted group 2 |
| `NotePlaintext.TableRowDropped` | convert_to_note_format.py:72-78 | a table row or delimiter line produces no output |
| `NoteMarkdown.Gap` | convert_to_note_markdown.py:30-31 | the optional blank line: one `''` when due, none otherwise |
| `NoteMarkdown.EmitLine` | convert_to_note_markdown.py:18-104 | one pass of the first loop appends exactly the lines that one input line adds, given the output so far |
| `NoteMarkdown.EmitLines` | convert_to_note_markdown.py:13-104 | the first loop's output is the specified re-emission of all lines |
| `NoteMarkdown.CollapseBlanks` | convert_to_note_markdown.py:107-116 | the second loop's result is the specified collapse of the first loop's output |
| `NoteMarkdown.OptimizeForNote` | convert_to_note_markdown.py:11-118 | the result is the re-emitted, collapsed lines joined with line feeds |
| `NoteMarkdown.HeadingReEmitted` | convert_to_note_markdown.py:27-59 | a heading becomes its `#` prefix and stripped text, preceded by `''` exactly when the previous output line is not blank, and followed by `''` |
| `NoteMarkdown.RuleReEmitted` | convert_to_note_markdown.py:62-67 | a `---` line becomes `''`, `---`, `''` |
| `NoteMarkdown.BulletReEmitted` | convert_to_note_markdown.py:70-77 | a `- ` item is re-emitted stripped, preceded by `''` exactly when the output is non-empty and its last line is neither blank nor a `- ` item |
| `NoteMarkdown.OrderedReEmitted` | convert_to_note_markdown.py:80-89 | an ordered item keeps its number, preceded by `''` exactly when the output is non-empty and its last line is neither blank nor starts with digits and a dot |
| `NoteMarkdown.OrderedItemsStayTogether` | convert_to_note_markdown.py:85-87 | a re-emitted ordered item starts with digits and a dot, so the next ordered item gets no blank line |
| `NoteMarkdown.TableRowsDropped` | convert_to_note_markdown.py:92-99 | table rows and delimiter lines add nothing |
| `NoteMarkdown.TextVerbatim` | convert_to_note_markdown.py:101-103 | any other text line is passed through verbatim, inline markup untouched |
| `NoteMarkdown.SameLinesDropped` | convert_to_note_markdown.py:92-99 | exactly the lines the plain-text converter drops are dropped here too |
| `NoteMarkdown.EmittedHeadingsFramed` | convert_to_note_markdown.py:27-59 | in the first loop's output every heading is followed by `''` and preceded by a blank line unless it comes first |
| `NoteMarkdown.FramedStep` | convert_to_note_markdown.py:18-104 | each input line keeps every heading already emitted framed |
| `NoteMarkdown.AddedNoHeading` | convert_to_note_markdown.py:61-103 | a line that is not a heading adds no line that reads as a heading |
| `NoteMarkdown.CollapseIsCollapsed` | convert_to_note_markdown.py:107-116 | the result never has two consecutive blank lines, and every blank line is exactly `''` |
| `NoteMarkdown.CollapseKeepsText` | convert_to_note_markdown.py:107-116 | the non-blank lines are kept unchanged and in order |
| `NoteMarkdown.CollapseEndsBlank` | convert_to_note_markdown.py:107-116 | the result ends with a blank line exactly when the input does |
| `NoteMarkdown.CollapseFixed` | convert_to_note_markdown.py:107-116 | already collapsed lines are left unchanged |
| `NoteMarkdown.CollapseIdempotent` | convert_to_note_markdown.py:107-116 | collapsing twice is collapsing once |
| `Bets.WinImpliesPlace` | src/components/HitRaces.jsx:56-57 | a top pick that wins (単勝) also places (複勝) |
| `Bets.TrioImpliesTrifecta` | src/components/HitRaces.jsx:58-63 | an exact-order hit (3連単) is also an any-order hit (3連複) |
| `Bets.TrifectaIgnoresOrder` | scripts/calculate-accuracy.js:33-37 | the any-order hit depends only on which three boats finished in the top three, not on their order |
| `Bets.HitsSpec` | src/components/HitRaces.jsx:77-110 | a bet type is in the hit list exactly when it hits, and the list keeps the order 単勝, 複勝, 3連複, 3連単 without repeats |
| `Bets.HitsEmpty` | src/components/HitRaces.jsx:56-65 | the hit list is empty exactly when none of the four bet types hits |
| `Bets.Sort3` | src/components/HitRaces.jsx:95 | the numeric sort of three boats yields three numbers in ascending order |
| `Bets.Sort3IsPermutation` | src/components/HitRaces.jsx:95 | the sorted triple holds the same three boats |
| `Bets.Sort3IgnoresOrder` | src/components/HitRaces.jsx:95 | any two orders of the same three boats sort to the same triple |
| `Bets.TrifectaKeyIgnoresOrder` | src/components/HitRaces.jsx:95-96 | the 3連複 payout key is the same for every finishing order of the same three boats |
| `Bets.JoinThree` | src/components/HitRaces.jsx:96 | joining three strings puts the separator between each adjacent pair |
| `Bets.DashedSplits` | src/components/HitRaces.jsx:106 | a dashed key of three boat numbers splits at its dashes back into the three numbers |
| `Bets.TrioKeyInjective` | src/components/HitRaces.jsx:106 | two finishing orders with the same 3連単 key are the same order |
| `HitRaces.IsHitRaceIffHits` | src/components/HitRaces.jsx:47-66 | a race passes the filter exactly when its result is final and its hit list is non-empty |
| `HitRaces.HitConditions` | src/components/HitRaces.jsx:56-63 | each of the four hit tests in terms of the ranks and the prediction: win on first, place on first or second, 3連複 on all three in the top three, 3連単 position by position |
| `HitRaces.HitTypesInSteps` | src/components/HitRaces.jsx:74-110 | the hit list is the four conditional pushes in their source order |
| `HitRaces.PayoutSumAppend` | src/components/HitRaces.jsx:75-109 | the total of two joined hit lists is the sum of their totals |
| `HitRaces.PushIf` | src/components/HitRaces.jsx:78-82 | one conditional push: the entry is appended exactly when the test holds and the running total stays the sum of the list |
| `HitRaces.PushMatches` | src/components/HitRaces.jsx:78-110 | each source test with its label pushes exactly the model's entry for that bet type |
| `HitRaces.HitTypesEntry` | src/components/HitRaces.jsx:74-110 | the pushes build the hit list of the race, and `totalPayout` ends as the sum of its payouts |
| `HitRaces.HitTypesSpec` | src/components/HitRaces.jsx:74-110 | the i-th entry is the label and payout of the i-th hit bet type; the list holds exactly the hits, in order; a 単勝 entry comes with a 複勝 entry and a 3連単 entry with a 3連複 entry |
| `HitRaces.HitRaceEntry` | src/components/HitRaces.jsx:67-130 | the map step builds the entry of a finished race: hit list, total, date, venue and numbers read from the id |
| `HitRaces.ExtractHitRaces` | src/components/HitRaces.jsx:45-132 | the filter, map and sort produce the extracted list |
| `HitRaces.MappedMembers` | src/components/HitRaces.jsx:46-130 | an entry is in the mapped list exactly when it is the entry of some race that passes the filter |
| `HitRaces.ExtractedSpec` | src/components/HitRaces.jsx:45-132 | the result holds exactly the entries of the hit races, each with a non-empty hit list, in non-increasing total payout, and races of equal total keep their input order |
| `HitRaces.AllHitRaces` | src/components/HitRaces.jsx:138-146 | the 14-day list is the concatenation of each day's extracted list, in day order |
| `HitRaces.PadNoDash` | src/components/HitRaces.jsx:114 | a padded venue code or race number has no dash, so it survives the split |
| `HitRaces.RaceIdSplits` | src/components/HitRaces.jsx:114-117 | an id `YYYY-MM-DD-PP-RR` splits into the three date parts, the padded venue code and the padded race number |
| `HitRaces.RaceIdRoundTrip` | src/components/HitRaces.jsx:114-124 | for an id built from a date, venue code and race number, the entry gets back that date, code and number; its venue is the stadium name when one is known and non-empty, else the padded code followed by 番 |
| `HitRaces.PeriodWithinAll` | src/components/HitRaces.jsx:134-146 | the 14-day list starts with today's and yesterday's lists, so every period's hit races are among the all-period list, and each of today's and yesterday's entries occurs there at least as often as in those two lists together |
| `HitRaces.StatsFind` | src/components/HitRaces.jsx:194 | looking a venue up in the statistics finds the same position as in the groups |
| `HitRaces.StatsStepNew` | src/components/HitRaces.jsx:194-202 | a race from a venue not seen yet appends that venue with one hit and the race's payout |
| `HitRaces.StatsStepExisting` | src/components/HitRaces.jsx:201-202 | a race from a known venue adds one hit and its payout to that venue's row and changes nothing else |
| `HitRaces.Tally` | src/components/HitRaces.jsx:191-203 | the `forEach` loop builds the per-venue statistics in order of first appearance |
| `HitRaces.TallyRace` | src/components/HitRaces.jsx:191-203 | one call of the callback turns the per-venue counters of the races seen into those of the races seen and one more |
| `HitRaces.CalculateVenueStats` | src/components/HitRaces.jsx:180-207 | the result is the statistics of the selected period's list, sorted by hit count |
| `HitRaces.SumOfSnoc` | src/components/HitRaces.jsx:202 | summing a list with one more element adds that element's value |
| `HitRaces.CountsAreMembers` | src/components/HitRaces.jsx:201 | the hit counts of the statistics add up to the number of races grouped |
| `HitRaces.VenueStatsTotal` | src/components/HitRaces.jsx:191-206 | the hit counts over all venues add up to the number of hit races |
| `HitRaces.VenueStatsPerVenue` | src/components/HitRaces.jsx:191-206 | each venue appears once; its hit count is the number of its races and its total the sum of their payouts; every race's venue appears |
| `HitRaces.VenueStatsOrder` | src/components/HitRaces.jsx:206 | rows are in non-increasing hit count, venues of equal count keep their order of first appearance |
| `CalculateAccuracy.RaceAccuracy` | scripts/calculate-accuracy.js:20-27 | a race without a final result gets the all-null accuracy record |
| `CalculateAccuracy.RaceAccuracyNull` | scripts/calculate-accuracy.js:20-51 | the top-pick field is null exactly when the result is missing or not final, and so is the whole record |
| `CalculateAccuracy.RaceAccuracyHits` | scripts/calculate-accuracy.js:29-44 | on a final result the three fields are the win test, the any-order top-three test and the exact-order test |
| `CalculateAccuracy.ExactImpliesIncluded` | scripts/calculate-accuracy.js:33-44 | an exact top-three match is also a top-three hit |
| `CalculateAccuracy.SummaryStats` | scripts/calculate-accuracy.js:54-84 | with no finished race the summary is all zero; both race totals are the number of finished races, and every hit count is at most that number |
| `CalculateAccuracy.RateSpec` | scripts/calculate-accuracy.js:78-82 | a rate of at most all finished races lies between 0 and 1 |
| `CalculateAccuracy.RateMono` | scripts/calculate-accuracy.js:78-82 | more hits over the same races never give a lower rate |
| `CalculateAccuracy.SummaryRates` | scripts/calculate-accuracy.js:74-83 | with finished races, each rate is its hit count over the finished races and lies in 0..1 |
| `CalculateAccuracy.SummaryExactAtMostIncluded` | scripts/calculate-accuracy.js:70-82 | on races scored by the script, exact-order hits never outnumber any-order hits, nor does their rate |
| `CalculateAccuracy.FilterConsistent` | scripts/calculate-accuracy.js:171-189 | any filtered part of consistently scored races is consistently scored |
| `CalculateAccuracy.DateInfoOfDate` | scripts/calculate-accuracy.js:87-90 | a `YYYY-MM-DD` date of digit runs splits into its year, month and day as numbers |
| `CalculateAccuracy.DigitsAreTrimmed` | scripts/calculate-accuracy.js:88 | `Number` of a non-empty digit run is its decimal value |
| `CalculateAccuracy.LastMonthSpec` | scripts/calculate-accuracy.js:183-185 | last month of January is December of the year before; of any other month, the month before in the same year |
| `CalculateAccuracy.LastMonthInRange` | scripts/calculate-accuracy.js:183-185 | the month computed through the `Date` roll-over always lies in 1..12 |
| `CalculateAccuracy.PredictionFilesSpec` | scripts/calculate-accuracy.js:108-110 | the files kept are exactly the `.json` files other than `summary.json`, as often as listed, in ascending name order |
| `CalculateAccuracy.ScoreStep` | scripts/calculate-accuracy.js:132-140 | scoring one more race appends its scored copy and counts it when its result is final |
| `CalculateAccuracy.ScoreDay` | scripts/calculate-accuracy.js:129-140 | the inner loop appends the file's scored races to `allRaces` and counts its finished races |
| `CalculateAccuracy.CalculateAccuracy` | scripts/calculate-accuracy.js:93-229 | no summary without prediction files; otherwise the summary of all scored races with its period parts and history, and each file rewritten with its scored races |
| `CalculateAccuracy.DayStep` | scripts/calculate-accuracy.js:123-152 | one more file extends `allRaces` by its scored races and `dailyStats` by its entry when it has a finished race |
| `CalculateAccuracy.ScoresConsistent` | scripts/calculate-accuracy.js:132-135 | every race of a scored file carries the accuracy of its own prediction and result |
| `CalculateAccuracy.AllRacesConsistent` | scripts/calculate-accuracy.js:120-140 | every race collected from all files is consistently scored |
| `CalculateAccuracy.OverallIsSumOfDays` | scripts/calculate-accuracy.js:165 | the overall number of finished races is the sum over the files |
| `CalculateAccuracy.DailyStatsMembers` | scripts/calculate-accuracy.js:142-152 | the daily history holds exactly one entry for each file that has a finished race |
| `CalculateAccuracy.DayStatTotal` | scripts/calculate-accuracy.js:143-147 | a day entry's race total is that file's number of finished races |
| `CalculateAccuracy.DailyHistorySpec` | scripts/calculate-accuracy.js:228 | the history kept is the last at most 30 day entries, each with a finished race |
| `CalculateAccuracy.SummaryPeriodsOrdered` | scripts/calculate-accuracy.js:164-229 | in every part of the summary, the exact-order rate is at most the any-order rate |
| `CalculateAccuracy.PeriodAtMostOverall` | scripts/calculate-accuracy.js:171-190 | a period's race total never exceeds the overall total |
| `Grouping.Find` | src/components/HitRaces.jsx:194 | the position found is the first group with the key; none when no group has it |
| `Grouping.FindSameKeys` | src/components/HitRaces.jsx:194 | two group lists with the same keys, position by position, give the same lookup |
| `Grouping.FilterSnoc` | src/components/HitRaces.jsx:192-203 | filtering a list with one more element keeps that element exactly when it passes |
| `Grouping.GroupBySpec` | src/pages/RaceHistory.jsx:144-156 | the groups have distinct keys, each group holds exactly the elements with its key in input order, and every element's key has a group |
| `Grouping.AddToSpec` | src/components/HitRaces.jsx:194-202 | adding one element keeps keys distinct, groups exact and every key covered |
| `Grouping.AddToNew` | src/components/HitRaces.jsx:194-200 | an element with a new key opens a group at the end, and the invariants hold |
| `Grouping.AddToExisting` | src/components/HitRaces.jsx:201-202 | an element with a known key joins that group, and the invariants hold |
| `Grouping.TotalMembersUpdate` | src/components/HitRaces.jsx:201 | replacing one group changes the member total by the difference of their sizes |
| `Grouping.GroupByTotal` | src/components/HitRaces.jsx:191-203 | the groups hold as many elements as the input |
| `Grouping.GroupsNonEmpty` | src/components/HitRaces.jsx:194-201 | no group is empty |
| `Grouping.GroupByOrder` | src/components/HitRaces.jsx:206 | the groups come in the order their keys first appear, the order `Object.values` gives for string keys such as venue names |
| `Grouping.OrderStep` | src/components/HitRaces.jsx:192-203 | adding one element keeps the first-appearance order |
| `Grouping.MemberIndex` | src/components/HitRaces.jsx:192-203 | a non-empty group points at an input element with its key |
| `Sorting.Insert` | src/components/HitRaces.jsx:131 | one insertion step adds exactly the one element |
| `Sorting.Sort` | src/components/HitRaces.jsx:131 | sorting keeps the length and the elements with their multiplicities |
| `Sorting.InsertSorted` | src/components/HitRaces.jsx:131 | inserting into a sorted list keeps it sorted |
| `Sorting.SortSorted` | src/components/HitRaces.jsx:131 | under a strict weak order the result is sorted |
| `Sorting.BeforeClassIsOutside` | src/components/HitRaces.jsx:131 | an element sorting strictly before one of a class is not in that class |
| `Sorting.FilterInsert` | src/components/HitRaces.jsx:131 | insertion places an element of a class after its earlier members |
| `Sorting.SortStable` | src/components/HitRaces.jsx:131 | the sort is stable: equal elements keep their input order |
| `Sorting.InsertSumOf` | src/components/HitRaces.jsx:131 | inserting adds the element's value to a sum |
| `Sorting.SortSumOf` | src/components/HitRaces.jsx:206 | sorting leaves any sum over the list unchanged |
| `Sorting.InsertKeepsDistinct` | src/components/HitRaces.jsx:206 | inserting an element with a new key keeps the keys distinct |
| `Sorting.SortKeepsDistinct` | src/components/HitRaces.jsx:206 | sorting keeps the keys distinct |
| `Sorting.KeyDescIsStrictWeak` | src/components/HitRaces.jsx:131 | a comparator `b.k - a.k` on a numeric key is a strict weak order |
| `Sorting.KeyAscIsStrictWeak` | src/pages/RaceDetail.jsx:66-91 | a comparator `a.k - b.k` on a numeric key is a strict weak order |
| `Sorting.StrLtIsStrictWeak` | scripts/calculate-accuracy.js:110 | the default string sort order is a strict weak order |
| `Sorting.StrKeyDescIsStrictWeak` | src/pages/RaceHistory.jsx:155 | a descending string comparison on a key is a strict weak order |
| `RaceDetail.RecoveryColour` | src/pages/RaceDetail.jsx:44-48 | green exactly from a recovery rate of 1.0 up, red exactly below 0.9, amber in between |
| `RaceDetail.RecoveryColourMonotone` | src/pages/RaceDetail.jsx:44-48 | a higher recovery rate never gets a worse colour |
| `RaceDetail.ModelKeyOf` | src/pages/RaceDetail.jsx:117-118 | `safe-bet` maps to `safeBet`, `upset-focus` to `upsetFocus`, every other name to `standard` |
| `RaceDetail.ModelKeyOfSlug` | src/pages/RaceDetail.jsx:474-475 | the switch name of each model maps back to that model's key |
| `RaceDetail.BadgesSpec` | src/pages/RaceDetail.jsx:468-492 | a badge is shown exactly when the race is finished, the selected model has a prediction and that bet type hits; badges keep the order 単, 複, 3複, 3単 |
| `RaceDetail.CountsStep` | src/pages/RaceDetail.jsx:223-253 | one more race keeps the counters equal to the hit counts and payout totals of the races seen |
| `RaceDetail.CountRace` | src/pages/RaceDetail.jsx:224-252 | each counter grows by one exactly when its bet type hits, and each payout sum by that ticket's payout; a race without the model's prediction changes nothing |
| `RaceDetail.CountModel` | src/pages/RaceDetail.jsx:219-253 | after the loop each counter is the number of finished races the model hits with that bet type, and each sum the total of those payouts |
| `RaceDetail.RowOf` | src/pages/RaceDetail.jsx:255-269 | the row names the model, counts the finished races, and gives hit rate and recovery rate per bet type, 0 when no race is finished |
| `RaceDetail.FinishedAreFinished` | src/pages/RaceDetail.jsx:219 | every race kept by the filter has a final result |
| `RaceDetail.ComparisonRows` | src/pages/RaceDetail.jsx:211-270 | three rows, for `standard`, `safeBet` and `upsetFocus` in that order, each reporting that model on the day's finished races |
| `RaceDetail.ModelComparison` | src/pages/RaceDetail.jsx:208-271 | no table exactly when the day has no race list; otherwise the three model rows |
| `RaceDetail.HitCountAtMostRaces` | src/pages/RaceDetail.jsx:232-252 | no bet type hits more races than there are |
| `RaceDetail.HitCountMono` | src/pages/RaceDetail.jsx:232-252 | a bet type implied by another never has fewer hits |
| `RaceDetail.WinHitsAtMostPlaceHits` | src/pages/RaceDetail.jsx:232-239 | win hits never exceed place hits |
| `RaceDetail.TrioHitsAtMostTrifectaHits` | src/pages/RaceDetail.jsx:240-252 | exact-order hits never exceed any-order hits |
| `RaceDetail.RaceWithoutPredictionCounts` | src/pages/RaceDetail.jsx:224-225 | a finished race without the model's prediction adds no hit and no payout but still counts toward the races |
| `RaceDetail.RateBounds` | src/pages/RaceDetail.jsx:261-267 | a hit rate lies in 0..1 |
| `RaceDetail.RateMono` | src/pages/RaceDetail.jsx:261-267 | more hits give no lower rate |
| `RaceDetail.RowRatesOrdered` | src/pages/RaceDetail.jsx:255-269 | every hit rate of a row lies in 0..1, the win rate is at most the place rate and the exact-order rate at most the any-order rate |
| `RaceDetail.NoFinishedRacesZeroRates` | src/pages/RaceDetail.jsx:255-268 | with no finished race a row counts 0 races and shows 0 for every rate |
| `RaceDetail.FileByVenue` | src/pages/RaceDetail.jsx:66-83 | the `forEach` loop files each race under its venue code |
| `RaceDetail.GroupByVenue` | src/pages/RaceDetail.jsx:66-91 | the grouping, per-venue race sort and venue sort give the venue list |
| `RaceDetail.VenuesAscending` | src/pages/RaceDetail.jsx:91 | venues come in strictly ascending venue code |
| `RaceDetail.VenuesHoldTheirRaces` | src/pages/RaceDetail.jsx:66-88 | each venue holds exactly the races with its code, sorted by race number, and is named after its first race |
| `RaceDetail.EveryRaceHasVenue` | src/pages/RaceDetail.jsx:66-83 | every race's venue code has a venue |
| `RaceHistory.ToggleMonth` | src/pages/RaceHistory.jsx:30-35 | the toggled month is set to the negation of its shown state; every other month keeps its entry |
| `RaceHistory.ToggleFlipsOne` | src/pages/RaceHistory.jsx:30-35 | a toggle flips the shown state of that month and of no other |
| `RaceHistory.ToggleTwice` | src/pages/RaceHistory.jsx:30-35 | toggling a month twice restores every month's shown state |
| `RaceHistory.Tick` | src/pages/RaceHistory.jsx:89-93 | a hit adds one to its counter and the stored payout, 0 when there is none, to its sum; a miss changes neither |
| `RaceHistory.CountRace` | src/pages/RaceHistory.jsx:80-113 | one race updates the counters exactly as the per-race step of the comparison table does |
| `RaceHistory.Contribution` | src/pages/RaceHistory.jsx:89-112 | with the model's prediction, a race adds one hit per bet type it hits, and that ticket's stored payout |
| `RaceHistory.CountModel` | src/pages/RaceHistory.jsx:76-113 | after the loop each counter is the number of finished races the model hits with that bet type, and each sum the total of those payouts |
| `RaceHistory.DateEntryOf` | src/pages/RaceHistory.jsx:64-135 | a date's entry has the day's race and finished counts, 0 without a race list, and one comparison row per model |
| `RaceHistory.EntryRowsOrdered` | src/pages/RaceHistory.jsx:115-127 | in every model row the rates lie in 0..1, the win rate is at most the place rate and the exact-order rate at most the any-order rate |
| `RaceHistory.ScanDates` | src/pages/RaceHistory.jsx:49-141 | the scan keeps, newest first, exactly the dates whose file exists, each with the entry of its data |
| `RaceHistory.AvailableOffsets` | src/pages/RaceHistory.jsx:49-141 | a date is kept exactly when it is one of the 89 days before today and its file exists; at most 89 are kept |
| `RaceHistory.FilterMapAtMost` | src/pages/RaceHistory.jsx:49-141 | keeping some of the dates never yields more dates than visited |
| `RaceHistory.NewerFirstIsStrictWeak` | src/pages/RaceHistory.jsx:155 | the newest-first date comparison is a strict weak order |
| `RaceHistory.FileByMonth` | src/pages/RaceHistory.jsx:144-151 | the `forEach` loop files each date under its year-month key |
| `RaceHistory.GroupByMonth` | src/pages/RaceHistory.jsx:144-156 | the grouping and the per-month sort give the month groups |
| `RaceHistory.GroupedAt` | src/pages/RaceHistory.jsx:153-156 | each month group is the grouped dates of that month, sorted newest first |
| `RaceHistory.GroupedMembers` | src/pages/RaceHistory.jsx:144-156 | a month holds exactly the dates with its key, newest first, and is never empty |
| `RaceHistory.GroupedSpec` | src/pages/RaceHistory.jsx:144-156 | months have distinct keys, each holds exactly its dates newest first, and every date has its month |
| `RaceHistory.LatestMonthSpec` | src/pages/RaceHistory.jsx:161-162 | as written, the month chosen exists exactly when there is a month, and it is the greatest key in code-unit order |
| `RaceHistory.StrLtAfterPrefix` | src/pages/RaceHistory.jsx:161 | a common prefix does not change how two texts compare |
| `RaceHistory.MonthKeysUnpadded` | src/pages/RaceHistory.jsx:25 | within a year the unpadded keys of October to December sort before those of February to September |
| `RaceHistory.SeptemberSortsAfterOctober` | src/pages/RaceHistory.jsx:161-163 | as written, with September and October present, September is the month expanded |
| `RaceHistory.GroupNewest` | src/pages/RaceHistory.jsx:155 | a month's first date is not older than any of its dates |
| `RaceHistory.FirstMonthNewest` | src/pages/RaceHistory.jsx:161 | the first month in newest-date order has a date at least as new as every month's |
| `RaceHistory.NewestMonthSpec` | src/pages/RaceHistory.jsx:161-164 | the corrected choice exists exactly when there is a date, and is the month of a date no other date is newer than |
| `RaceHistory.InitialExpandedSpec` | src/pages/RaceHistory.jsx:162-164 | only the chosen month starts expanded |
| `RaceHistory.MonthSummaryOf` | src/pages/RaceHistory.jsx:192-204 | the summary counts the days and the finished races, and the win rate is the standard model's win hits over the races, in percent, 0 without races |
| `RaceHistory.SumOfNat` | src/pages/RaceHistory.jsx:193 | the finished-race total is the sum of the dates' counts |
| `RaceHistory.RateTimesRaces` | src/pages/RaceHistory.jsx:199 | a rate times its race count gives back the hit count |
| `RaceHistory.RowWin` | src/pages/RaceHistory.jsx:115-119 | a model row counts the finished races and its win rate is its win hits over them |
| `RaceHistory.StandardFirst` | src/pages/RaceHistory.jsx:197-199 | with the standard row first, a date contributes that row's rate times its races |
| `RaceHistory.StandardWinHitsOf` | src/pages/RaceHistory.jsx:197-200 | the product `winHitRate * races` gives back an exact whole number of hits |
| `RaceHistory.StandardWinHitsCount` | src/pages/RaceHistory.jsx:195-201 | a date's contribution is exactly the standard model's win hits on its finished races |
| `RaceHistory.TotalWinHitsCount` | src/pages/RaceHistory.jsx:195-201 | the month's accumulated win hits are exactly the standard model's win hits over its dates |
| `Dashboard.HasDataIffFinished` | src/components/AccuracyDashboard.jsx:55 | on a summary built from the prediction files, the panel has data exactly when some scored race is finished |
| `Dashboard.CountIfPositive` | src/components/AccuracyDashboard.jsx:55 | a count is positive exactly when some element qualifies |
| `Dashboard.BestSpec` | src/components/AccuracyDashboard.jsx:81-85 | the `reduce` yields a day of the list with the highest 3連単 recovery rate, the first such day |
| `Dashboard.BestAmongSpec` | src/components/AccuracyDashboard.jsx:72-85 | no best day exactly when no day qualifies; otherwise a qualifying day with the highest rate, the first one among them |
| `Dashboard.BestTrioDaySpec` | src/components/AccuracyDashboard.jsx:71-86 | no best day exactly when no day of the history is in this month; otherwise this month's day with the highest 3連単 recovery rate |
| `Dashboard.ShowsBestSpec` | src/components/AccuracyDashboard.jsx:148 | the best-day panel shows exactly when there is a best day with a positive rate |
| `Dashboard.Recent` | src/components/AccuracyDashboard.jsx:212 | the recent table has at most seven rows |
| `Dashboard.RecentSpec` | src/components/AccuracyDashboard.jsx:212 | the recent table shows the last seven days, or all when fewer, newest first |
| `ScrapeResults.JcdSpec` | scripts/scrape-results.js:28 | the padded venue code reads back as the code, has at least two digits and gets a leading `0` below 10 |
| `ScrapeResults.RemoveCharAppend` | scripts/scrape-results.js:22 | removing every dash from two joined texts removes them from each part |
| `ScrapeResults.RemoveCharAbsent` | scripts/scrape-results.js:22 | a text without dashes is left unchanged |
| `ScrapeResults.HdSpec` | scripts/scrape-results.js:21-23 | a `YYYY-MM-DD` date becomes `YYYYMMDD` |
| `ScrapeResults.KeepDigits` | scripts/scrape-results.js:70 | what remains holds only digits, and is empty exactly when the text has no digit |
| `ScrapeResults.DigitsOfIsParseInt` | scripts/scrape-results.js:70 | the payout read is `parseInt` of the kept digits, NaN when none are left |
| `ScrapeResults.NormChar` | scripts/scrape-results.js:81-83 | a normalised non-space character is no full-width digit and no arrow or dash variant |
| `ScrapeResults.Normalize` | scripts/scrape-results.js:81-84 | normalising never lengthens the combination |
| `ScrapeResults.NormalizeClean` | scripts/scrape-results.js:81-84 | a normalised combination has no white space, full-width digit or dash variant |
| `ScrapeResults.NormalizeKeepsKeys` | scripts/scrape-results.js:81-84 | a combination of ASCII digits and dashes is left unchanged |
| `ScrapeResults.NormalizeIdempotent` | scripts/scrape-results.js:81-84 | normalising twice is normalising once |
| `ScrapeResults.NormalizeKeepsClean` | scripts/scrape-results.js:81-84 | a clean combination is left unchanged |
| `ScrapeResults.WideComboKey` | scripts/scrape-results.js:81-84 | `１→２→３` becomes `1-2-3` |
| `ScrapeResults.NormalizeCons` | scripts/scrape-results.js:81-84 | a non-space character is normalised on its own, ahead of the rest |
| `ScrapeResults.Store` | scripts/scrape-results.js:86-94 | a bet type other than 単勝, 複勝, 3連複 and 3連単 stores nothing |
| `ScrapeResults.ScanRow` | scripts/scrape-results.js:55-97 | the row callback updates the current bet type and the tables as one scan step does |
| `ScrapeResults.ScrapePayouts` | scripts/scrape-results.js:33-105 | the payouts are the scan of the third `.is-w495` table, all empty without one |
| `ScrapeResults.StepType` | scripts/scrape-results.js:65-67 | a bet-type label row sets the current type, any other row keeps it |
| `ScrapeResults.ScanTypeKnown` | scripts/scrape-results.js:53-67 | the current type is always empty or one of the seven labels |
| `ScrapeResults.StepWellStored` | scripts/scrape-results.js:79-95 | a scan step stores only positive payouts under clean keys |
| `ScrapeResults.StoreWellStored` | scripts/scrape-results.js:86-94 | storing a positive payout under a clean key keeps the tables so |
| `ScrapeResults.ScanWellStored` | scripts/scrape-results.js:55-97 | after the scan every stored payout is positive and every key clean |
| `ScrapeResults.StepStoresWin` | scripts/scrape-results.js:79-87 | in a 単勝 section a payout row stores its payout under its normalised combination in the win table |
| `ScrapeResults.StepIgnoresOtherTypes` | scripts/scrape-results.js:86-94 | in a 2連単, 2連複 or 拡連複 section nothing is stored |
| `ScrapeResults.RankingsOf` | scripts/scrape-results.js:136-146 | at most three boats are read |
| `ScrapeResults.FilterMapAtMost3` | scripts/scrape-results.js:137-146 | keeping the valid boat numbers of three rows yields at most three |
| `ScrapeResults.TopBoats` | scripts/scrape-results.js:136-146 | the row loop reads the boat numbers of the first three rows, skipping NaN and 0 |
| `ScrapeResults.ScrapeRaceResult` | scripts/scrape-results.js:108-169 | the page becomes the result the model defines: none when unpublished or incomplete |
| `ScrapeResults.FilterMapThree` | scripts/scrape-results.js:142-151 | all three rows count exactly when each gives a non-zero number, and then the boats are those numbers in order |
| `ScrapeResults.ResultOfSpec` | scripts/scrape-results.js:120-163 | a result exists exactly when the page has a table and its first three rows give non-zero boat numbers; it is then final with those boats in order and the scraped payouts |
| `ScrapeResults.UpdateRace` | scripts/scrape-results.js:196-224 | one race is skipped when final with payouts, given the scraped result when there is one, left alone otherwise, and classified accordingly |
| `ScrapeResults.Tally` | scripts/scrape-results.js:209-222 | exactly one of the three counters grows for each race |
| `ScrapeResults.UpdateWithResults` | scripts/scrape-results.js:191-227 | the loop updates every race and counts the races skipped, fetched and not yet finished |
| `ScrapeResults.CountIfSnoc` | scripts/scrape-results.js:196 | counting over one more race adds that race when it qualifies |
| `ScrapeResults.MapSnoc` | scripts/scrape-results.js:196 | updating one more race appends its update |
| `ScrapeResults.CountsAddUp` | scripts/scrape-results.js:191-227 | the three counts add up to the number of races |
| `ScrapeResults.UpdateIdempotent` | scripts/scrape-results.js:196-227 | a second pass with the same pages changes nothing more |
| `ScrapeResults.FetchedThenSkipped` | scripts/scrape-results.js:201-217 | a race given a result with payouts is skipped by the next pass |
| `ScrapeApi.JcdIsPadded` | api/scrape-races.js:28 | the venue code gets a leading `0` below 10, which is the two-digit padding, and reads back as the code |
| `ScrapeApi.GetUrlIsResultUrl` | api/scrape-races.js:21-32 | the result-page address of the endpoint is the same as the one the result scraper builds |
| `ScrapeApi.Blanked` | api/scrape-races.js:95-96 | an exhibition cell is blank exactly when it is a no-break space or empty |
| `ScrapeApi.BlankedTrimmed` | api/scrape-races.js:92-96 | after trimming, the no-break-space test never changes a cell |
| `ScrapeApi.Exhibits` | api/scrape-races.js:88-99 | never more exhibition entries than rows |
| `ScrapeApi.Starts` | api/scrape-races.js:102-112 | one start-exhibition entry per boat image, in page order, with its index counted from 1 |
| `ScrapeApi.SortedStartsSpec` | api/scrape-races.js:115-119 | the entries are sorted by start number, with the same entries, and entries of equal number keep page order |
| `ScrapeApi.MergeRacers` | api/scrape-races.js:136-145 | six racers, the i-th merged from the i-th entry of each list |
| `ScrapeApi.BeforeInfoRacers` | api/scrape-races.js:122-145 | racers are numbered 1 to 6; a racer without an exhibition entry has empty time and tilt, one without a start entry empty start fields, and the others take their entries' values |
| `ScrapeApi.ExhibitsSpec` | api/scrape-races.js:88-99 | one exhibition entry per row with at least six cells, each built from such a row |
| `ScrapeApi.WeatherOf` | api/scrape-races.js:69-74 | the weather is the second title, empty when there is none |
| `ScrapeApi.CollectExhibits` | api/scrape-races.js:88-99 | the row loop collects the exhibition entries |
| `ScrapeApi.CollectStarts` | api/scrape-races.js:102-112 | the image loop collects the start entries |
| `ScrapeApi.GetBeforeinfo` | api/scrape-races.js:35-153 | no information when the page cannot be had, else the merged information of the page |
| `ScrapeApi.RaceNumbers` | api/scrape-races.js:272 | the races fetched per venue are 1 to 3 |
| `ScrapeApi.KeepPresent` | api/scrape-races.js:279-283 | the loop keeps the present results, in order |
| `ScrapeApi.FetchVenue` | api/scrape-races.js:270-276 | the fetches of one venue are those of races 1 to 3 |
| `ScrapeApi.ScrapeVenue` | api/scrape-races.js:267-294 | a venue's entry is the model's venue result for its code |
| `ScrapeApi.ScrapeAll` | api/scrape-races.js:257-303 | the handler's venue list is the model's list for the first three open venues |
| `ScrapeApi.VenueOmitted` | api/scrape-races.js:286-293 | a venue is left out exactly when none of its three races could be fetched |
| `ScrapeApi.VenueResultSpec` | api/scrape-races.js:286-292 | a kept venue carries its code and name, one to three races, each of that venue, numbered 1 to 3 and fetched |
| `ScrapeApi.AllRacesSpec` | api/scrape-races.js:257-303 | at most three venues; a venue is in the list exactly when it is the result of one of the first three open venues |
| `ScrapeApi.Cache.constructor` | api/scrape-races.js:5-8 | the cache starts with no data and no timestamp |
| `ScrapeApi.Cache.Handle` | api/scrape-races.js:215-338 | the response and the new cache are those the handler defines for the old cache and the request |
| `ScrapeApi.ServedFromCache` | api/scrape-races.js:229-237 | cached data is served exactly when data and a non-zero timestamp exist and less than five minutes have passed; the age is the elapsed whole seconds, under 300 |
| `ScrapeApi.CacheChangesOnlyOnScrape` | api/scrape-races.js:305-307 | only a fresh scrape changes the cache, storing the answered data and the request time |
| `ScrapeApi.ErrorFallsBack` | api/scrape-races.js:318-337 | after an error the stale data is answered when there is any, else the 500 failure, and the cache is unchanged |
| `ScrapeApi.FreshThenCached` | api/scrape-races.js:226-237 | a request less than five minutes after a fresh scrape gets the same data from the cache |
| `Predictions.FixedSpec` | scripts/generate-predictions.js:56-61 | `toFixed(places)` of a rate held as n hundredths or tenths prints the whole part n / 10^places, a point and exactly `places` fraction digits worth n % 10^places, so reading the text back gives n |
| `Predictions.PlayersSpec` | scripts/generate-predictions.js:51-63 | with racer data the players are the racers' players, ordered by non-increasing AI score, players of equal score in racer order, each numbered by some racer's lane |
| `Predictions.FilterHead` | scripts/generate-predictions.js:73-75 | the first element kept by a filter is the first element that passes |
| `Predictions.SortHeadIsMax` | scripts/generate-predictions.js:73-75 | the head of the local-rate sort has the highest local win rate |
| `Predictions.SortHeadIsFirst` | scripts/generate-predictions.js:73-75 | the head of the stable sort is the first player with that rate |
| `Predictions.TopLocalSpec` | scripts/generate-predictions.js:73-75 | with players there is a top local player, the first with the highest local win rate |
| `Predictions.AscendingAppend` | scripts/generate-predictions.js:70-117 | two runs of insights, the second of later kinds, join in kind order |
| `Predictions.InsightsOrder` | scripts/generate-predictions.js:69-118 | at most four insights, in the order local best, motors, strong racers, A1 racers |
| `Predictions.InsightsLocal` | scripts/generate-predictions.js:77-82 | the local-best insight appears exactly when there are players and the top local win rate is positive |
| `Predictions.InsightsMotors` | scripts/generate-predictions.js:85-93 | the motor insight appears exactly when some motor 2-rate exceeds 40, naming those players in order |
| `Predictions.InsightsStrong` | scripts/generate-predictions.js:96-104 | the strong-racer insight appears exactly when some win rate is at least 7.0, naming those players in order |
| `Predictions.InsightsA1` | scripts/generate-predictions.js:107-115 | the A1 insight appears exactly when some racer is graded A1, naming those players in order |
| `Predictions.ReasoningBounds` | scripts/generate-predictions.js:145-148 | the reasoning has one to four lines |
| `Predictions.Confidence` | scripts/generate-predictions.js:131-143 | the confidence always lies in 65..95 |
| `Predictions.ConfidenceOfGap` | scripts/generate-predictions.js:131-143 | for a non-negative gap the confidence is 70 plus half the gap rounded down, capped at 95 |
| `Predictions.PredictionPicks` | scripts/generate-predictions.js:127-142 | the top pick is the first player and the top three the first up to three players, by number |
| `Predictions.PredictionConfidence` | scripts/generate-predictions.js:131-143 | with players ordered by score the confidence lies in 70..95 |
| `Predictions.RacePredictionRecord` | scripts/generate-predictions.js:123-163 | a race gets a prediction exactly when it has at least two players (one racer makes the script fail); the prediction has the padded race id, a start time, a pending result and an unscored accuracy |
| `Predictions.RacePredictionConfidence` | scripts/generate-predictions.js:131-156 | a prediction's confidence lies in 70..95 and its result is not finished |
| `Predictions.VenuePredictionsLength` | scripts/generate-predictions.js:210-214 | a venue gives one prediction per race |
| `Predictions.AllPredictionsLength` | scripts/generate-predictions.js:199-215 | the predictions number the races of all venues |
| `Predictions.VenueNoneStaysNone` | scripts/generate-predictions.js:210-214 | once a race of the venue fails, the whole venue fails |
| `Predictions.VenueStep` | scripts/generate-predictions.js:210-214 | one more race appends its prediction, or fails |
| `Predictions.PredictVenue` | scripts/generate-predictions.js:203-214 | the inner loop collects the venue's predictions, none when a race fails |
| `Predictions.NoneStaysNone` | scripts/generate-predictions.js:199-215 | once a venue fails, the whole run fails |
| `Predictions.GeneratePredictions` | scripts/generate-predictions.js:168-251 | malformed input produces nothing; otherwise the predictions of every venue in order, and the race total is their number |
| `Sheets.HeaderWrite` | scripts/update-google-sheets.js:84-101 | the header row is written exactly when the first row is missing or empty, and it is the nineteen headers |
| `Sheets.HeadersFillColumns` | scripts/update-google-sheets.js:61-81 | the nineteen headers fill the columns A to S |
| `Sheets.RecoveryCells` | scripts/update-google-sheets.js:133-144 | twelve recovery cells, all `N/A` for a day without a recovery record |
| `Sheets.RowDataSpec` | scripts/update-google-sheets.js:126-146 | a row has one cell per header, starts with the date and ends with the update time; its twelve recovery cells are all `N/A` exactly when the day has no recovery record |
| `Sheets.ExistingDates` | scripts/update-google-sheets.js:119 | the dates are column A without its header row, none when the sheet is empty |
| `Sheets.IndexOfDate` | scripts/update-google-sheets.js:148 | `indexOf` gives -1 exactly when the date is absent, else its first position |
| `Sheets.UpdateSpreadsheet` | scripts/update-google-sheets.js:111-157 | the loop builds the rows to append and the updates of the model |
| `Sheets.PartitionSizes` | scripts/update-google-sheets.js:148-156 | every day gives exactly one append or one update |
| `Sheets.Partition` | scripts/update-google-sheets.js:148-156 | the appended rows are exactly those of the new dates, the updates exactly those of the dates already present |
| `Sheets.UpdateTargetsMatchingRow` | scripts/update-google-sheets.js:154-155 | an update writes range `A{n}:S{n}` for n two past the first row holding that date, which is the sheet row of that date |
| `Sheets.ExistingDatesRows` | scripts/update-google-sheets.js:119 | the k-th date read is column A of sheet row k + 2 |
| `Sheets.AppendsInOrder` | scripts/update-google-sheets.js:149-151 | new dates are appended in history order |
| `Sitemap.StaticPages` | scripts/generate-sitemap.js:15-82 | eleven static pages, each last modified today |
| `Sitemap.StaticPagesSpec` | scripts/generate-sitemap.js:15-82 | the static locations are distinct and only the home page has priority 1.0 |
| `Sitemap.RemoveFirstAt` | scripts/generate-sitemap.js:102 | `replace` with a string pattern cuts out its first occurrence only |
| `Sitemap.RemoveFirstAbsent` | scripts/generate-sitemap.js:102 | a name without the pattern is left unchanged |
| `Sitemap.GetBlogPosts` | scripts/generate-sitemap.js:85-128 | the loop builds the model's blog pages |
| `Sitemap.StartsWithAfterPrefix` | scripts/generate-sitemap.js:116-120 | a location starts with `/blog/` plus a prefix exactly when its slug starts with the prefix |
| `Sitemap.BlogPageSpec` | scripts/generate-sitemap.js:102-124 | a blog page changes monthly, lies under `/blog/`, and has priority 0.5 exactly for weekly reports, 0.6 otherwise |
| `Sitemap.BlogPagesSpec` | scripts/generate-sitemap.js:85-128 | a blog page exists exactly for each `.md` file of an existing directory, with that page's properties |
| `Sitemap.SlugStripsSuffix` | scripts/generate-sitemap.js:102 | a name whose only `.md` is its suffix loses exactly the suffix |
| `Sitemap.GetRacePages` | scripts/generate-sitemap.js:131-167 | the loop and the sort build the model's race pages |
| `Sitemap.DateStrOfDateJson` | scripts/generate-sitemap.js:143-145 | for a `YYYY-MM-DD.json` name the date string is its first ten characters |
| `Sitemap.SelectedSpec` | scripts/generate-sitemap.js:141-161 | a race page exists exactly for each dated file at most 30 days old; it changes weekly, has priority 0.7 and lies under `/races/` |
| `Sitemap.SortedByLoc` | scripts/generate-sitemap.js:164 | the sort keeps the pages and orders them by descending location |
| `Sitemap.RacePagesSpec` | scripts/generate-sitemap.js:131-167 | with the directory, the race pages are the selected pages, newest location first; without it there are none |
| `Sitemap.AppendEntry` | scripts/generate-sitemap.js:179-184 | one page appends its six-line `<url>` entry |
| `Sitemap.UrlEntriesPrefix` | scripts/generate-sitemap.js:178-185 | the entries of one more page extend the previous entries by that page's entry |
| `Sitemap.AppendEntries` | scripts/generate-sitemap.js:178-185 | the `forEach` appends the entries of all pages in order |
| `Sitemap.Serialize` | scripts/generate-sitemap.js:175-189 | the text is the XML declaration, the opening tag, the entries and the closing tag |
| `Sitemap.GenerateSitemap` | scripts/generate-sitemap.js:170-190 | the sitemap lists the static pages, then the blog pages, then the race pages |
| `Sitemap.UrlEntriesAppend` | scripts/generate-sitemap.js:173-185 | the entries of two joined page lists are the joined entries |
| `Sitemap.SitemapOrder` | scripts/generate-sitemap.js:173-187 | the text is the head, the static, blog and race entries in that order, and the tail |
| `Sitemap.OccurrencesAbsent` | scripts/generate-sitemap.js:179-184 | a character that is absent occurs zero times |
| `Sitemap.LineBreaks` | scripts/generate-sitemap.js:179-184 | a line of single-line text has one line break |
| `Sitemap.UrlEntryLines` | scripts/generate-sitemap.js:179-184 | an entry of single-line fields has exactly six lines |
| `Sitemap.UrlEntriesLines` | scripts/generate-sitemap.js:178-185 | n entries have 6n lines |
| `Sitemap.SitemapLines` | scripts/generate-sitemap.js:175-187 | the sitemap of n pages has 3 + 6n lines |
| `BlogPosts.UniqueSpec` | src/data/blogPosts.js:146 | `[...new Set(xs)]` has no repeats, the same members, and keeps the order of first appearance |
| `BlogPosts.CategoriesSpec` | src/data/blogPosts.js:146 | the categories are distinct, exactly those of some post, in order of first appearance |
| `BlogPosts.FeaturedPostsSpec` | src/data/blogPosts.js:149 | the featured posts are exactly the posts marked featured, in index order |
| `BlogPosts.PostsByCategorySpec` | src/data/blogPosts.js:152-153 | a category's posts are exactly the posts of that category, in index order |
| `BlogPosts.CategoriesAreUsed` | src/data/blogPosts.js:146-153 | every listed category has at least one post |
| `BlogPosts.PostByIdSpec` | src/data/blogPosts.js:156 | no post exactly when no id matches; otherwise the first post with that id |
| `BlogPosts.SliceEnd` | src/data/blogPosts.js:160 | `slice(0, limit)` never ends past the list |
| `BlogPosts.LatestPostsNewest` | src/data/blogPosts.js:159-160 | `limit` posts or all of them, drawn from the index, newest first, and none left out is newer than one returned |
| `BlogPosts.LatestPostsPrefix` | src/data/blogPosts.js:159-160 | the newest posts are a prefix of the sorted index, which holds the same posts |
| `BlogPosts.LatestPostsOrdered` | src/data/blogPosts.js:160 | the posts returned are newest first and no later post is newer |
| `BlogPosts.SortNewestFirst` | src/data/blogPosts.js:160 | the date sort orders the posts newest first |
| `BlogPosts.LatestPostsStable` | src/data/blogPosts.js:160 | posts of the same date keep their index order |
| `AppRaces.JsRem` | src/App.jsx:81 | `%` agrees with the mathematical remainder on non-negative operands and stays strictly between -60 and 60 |
| `AppRaces.StartTimeSpec` | src/App.jsx:76-87 | from race 1 on, race n starts 30·(n − 1) minutes after 10:30, on the hour or at half past, and its minutes print as `00` or `30` |
| `AppRaces.NextRace` | src/App.jsx:79-81 | each race starts 30 minutes after the one before it |
| `AppRaces.FirstRace` | src/App.jsx:76-87 | race 1 starts at `10:30` |
| `AppRaces.RaceIdSpec` | src/App.jsx:84 | for a `YYYY-MM-DD` date the card id splits at its dashes into the date parts, the unpadded venue code and race number, and both numbers read back |
| `AppRaces.CardSpec` | src/App.jsx:83-92 | a card never shows empty weather: it shows a non-empty reading as is and `不明` without one; missing wave and wind readings show 0; number and raw data are the race's |
| `AppRaces.FindVenueSpec` | src/App.jsx:71 | no venue exactly when no code matches; otherwise the first venue with the selected code |
| `AppRaces.RacesForSpec` | src/App.jsx:69-100 | the race list is left alone exactly when no venue is selected or there is no venue data; it becomes empty when no venue has the code or it has no races; otherwise the i-th card is that of the i-th race of the first matching venue |
| `Header.HomeTab` | src/components/Header.jsx:12-16 | on the home page the active tab is the hash without `#`, or `races` when that is empty, and never empty |
| `Header.OtherPageTab` | src/components/Header.jsx:18-23 | off the home page a `/races` prefix gives `past-races`, a `/blog` prefix `blog`, the three exact paths their own tabs, and every other path `races`; the hash plays no part |
| `Header.TabClickRoundTrip` | src/components/Header.jsx:47-49 | a tab click leads to the home page with the tab as hash, which makes the clicked tab active (`races` for an empty tab) |
| `Header.LogoClick` | src/components/Header.jsx:41-44 | the logo leads to the `races` tab |
| `UpdateStatus.HoursOfMinutes` | src/components/UpdateStatus.jsx:21-25 | whole hours of whole minutes are whole hours of the elapsed milliseconds |
| `UpdateStatus.DaysOfHours` | src/components/UpdateStatus.jsx:25-27 | whole days of whole hours are whole days of the elapsed milliseconds |
| `UpdateStatus.TimeSinceUpdateSpec` | src/components/UpdateStatus.jsx:17-29 | under a minute shows `更新完了`; then whole minutes under an hour, whole hours under a day, and whole days beyond |
| `UpdateStatus.IsStaleSpec` | src/components/UpdateStatus.jsx:31-36 | stale exactly when more than two hours (7,200,000 ms) have passed; an unparsable date is never stale |
| `UpdateStatus.StaleShowsHoursOrDays` | src/components/UpdateStatus.jsx:17-36 | a stale time stamp is never shown as just updated, and under a day it shows at least two hours |
| `Strings.TrimLeftSpec` | convert_md_to_html.py:36 | the left trim drops exactly the leading run of white space |
| `Strings.TrimRightSpec` | convert_md_to_html.py:36 | the right trim drops exactly the trailing run of white space |
| `Strings.PyStripKeepsChars` | convert_md_to_html.py:36 | `strip()` only removes characters |
| `Strings.BlankIffAllSpace` | convert_md_to_html.py:23 | `not line.strip()` holds exactly for lines of white space only |
| `Strings.StripKeepsHead` | convert_md_to_html.py:96 | a line without leading white space keeps its start when stripped |
| `Strings.StripOfNonBlankIsNonEmpty` | convert_md_to_html.py:23 | a line with a non-space character does not strip to nothing |
| `Strings.IndexOf` | src/components/Header.jsx:14 | the position found holds the character and is its first occurrence |
| `Strings.Split` | src/components/HitRaces.jsx:114 | `split` gives at least one part, no part holds the separator, and joining the parts gives back the text |
| `Strings.SplitFive` | src/components/HitRaces.jsx:114-117 | five dash-free parts joined by dashes split back into those parts |
| `Strings.SplitJoin` | src/components/HitRaces.jsx:96 | splitting a join of separator-free parts gives back the parts |
| `Strings.RemoveChar` | scripts/scrape-results.js:22 | `replace(/-/g, '')` leaves no dash and keeps every other character |
| `Strings.PadStart` | scripts/scrape-results.js:28 | a text at least n long is unchanged; a shorter one is filled on the left to length n |
| `Strings.NatToString` | scripts/scrape-results.js:28 | a number prints as a non-empty digit run with its value, without leading zero, and with one digit exactly below 10 |
| `Strings.NatToStringInjective` | src/components/HitRaces.jsx:106 | different numbers print differently |
| `Strings.ParseIntOfDigits` | src/components/HitRaces.jsx:122-124 | `parseInt` of a digit run is its value |
| `Strings.ParseIntOfNatToString` | src/components/HitRaces.jsx:122 | `parseInt` reads back a printed number |
| `Strings.ParseIntOfPadded` | src/components/HitRaces.jsx:121-124 | `parseInt` reads back a number padded to two digits |
| `Strings.JsNumber` | scripts/calculate-accuracy.js:88 | `Number` of a date part, when it is a number, is non-negative |
| `Strings.StrLtIrreflexive` | scripts/calculate-accuracy.js:110 | no text sorts before itself |
| `Strings.StrLtTransitive` | scripts/calculate-accuracy.js:110 | the default string order is transitive |
| `Strings.StrLtTotal` | scripts/calculate-accuracy.js:110 | of two different texts one sorts before the other |
| `Seqs.LastN` | scripts/calculate-accuracy.js:228 | `slice(-n)` keeps the last n elements, or all when fewer |
| `Seqs.FirstN` | api/scrape-races.js:264 | `slice(0, n)` keeps the first n elements, or all when fewer |
| `Seqs.Reverse` | src/components/AccuracyDashboard.jsx:212 | `reverse()` puts the i-th element from the end at position i |

## Left out

- Markdown tools: command-line handling, file reading and writing, and messages (`main`, `print`) are I/O. Each transform is modelled on the text in memory.
- `\d` is taken as the ASCII digits 0-9. Python also matches other Unicode decimal digits.
- `localeCompare` and the default `sort()` are taken as code-unit order on `char`. Locale collation is not modelled.
- Weather readings (`parseFloat` of temperature, wind, wave and water temperature) and the wind-direction class in `api/scrape-races.js` use floating point and HTML scraping. Only the merge of already-extracted racer arrays is modelled.
- `getTodayVenues` in `api/scrape-races.js` extracts venues from HTML. It is replaced by the extracted venue list as an input. The venue and race limits on that list are modelled.
- CORS headers, response status codes and the extra JSON fields of the API response are HTTP plumbing.
- `updatedAt`, `generatedAt` and other time stamps come from the clock. Today's and yesterday's dates (JST) are inputs, not computed.
- `toFixed` formatting of rates is left out in `RaceDetail`, `RaceHistory`, `Dashboard` and `CalculateAccuracy`. There, rates are kept as exact `real` values, already scaled as the source scales them.
- `Predictions.Fixed`: racer rates are taken as integers at their printed precision (a win rate in hundredths, 6.53 as 653; a 2-rate in tenths, 38.4 as 384). The model thus assumes the inputs arrive already rounded to that precision. It does not model `toFixed`'s rounding of binary floating point, for example `(1.005).toFixed(2)` is `"1.00"`.
- `Strings.JsNumber`: `Number(s)` is modelled only for blank strings (0) and runs of ASCII digits after trimming; every other string is NaN here. JavaScript reads `"1.5"` as 1.5, `"+5"` as 5, `"1e3"` as 1000 and `"0x10"` as 16, all NaN in the model. It is applied only in `getDateInfo` (scripts/calculate-accuracy.js:88), to the dash-separated parts of the `YYYY-MM-DD` dates that the repository's own scripts write. Those parts are plain digit runs, so the other forms never reach it.
- The Google Sheets API calls (authentication, reads, `append`, `batchUpdate`) are foreign calls. Only the rows built and the append/update partition are modelled. The sheet's existing rows are an input.
- Exceptions that the scripts catch and log are abstracted as the `threw` input or a `None` result. `setTimeout` delays between requests and the five-second fetch abort are timing.
- `scripts/generate-sitemap.js`: file-system reads and writes, front matter parsed by `gray-matter`, `lastmod` dates from file times, console output and `main` are I/O. Posts and race files are inputs.
- `src/data/blogPosts.js`: titles, descriptions, tags and other display fields are data without logic. An invalid blog date, which makes the comparator return NaN, is not modelled: `new Date(date)` is taken as a total function `time` from the date string to a number (`DateValue`), and posts are compared by `time(a.date) > time(b.date)`.
- `formatDate` in the UI files formats in local time with the weekday. It is display only and locale-dependent.
- `UpdateStatus.TimeSinceUpdate` and `UpdateStatus.IsStale` take the elapsed milliseconds (or None for an unparsable date) as an input. `new Date` parsing and the clock are not modelled.
- `AppRaces`: a NaN weather reading (`parseFloat` of a non-number) is not modelled. Readings are present or missing.
- `calculateAIScore` in `scripts/generate-predictions.js` is floating-point arithmetic over racer statistics. It is taken as the `score` parameter. The random dummy players generated when real data is missing are taken as the `dummy` parameter.
- The loading of day predictions by `fetch` in `HitRaces.jsx`, and `handleCardClick` navigation, are I/O and routing.
- `RaceDetail.jsx`: the UI state of `switchModel` and `analyzeRace` is rendering, not computation.
- `AccuracyDashboard.jsx`: the rendering of `StatsTable` is only markup.
- React state updates are modelled as functions from the old state to the new one (for example `toggleMonth`). Re-rendering and effects scheduling are not modelled.

## Findings

| source | as written | input that shows it | evidently intended | confidence | as-written member | corrected member |
|---|---|---|---|---|---|---|
| src/pages/RaceHistory.jsx:161-164 | `Object.keys(grouped).sort().reverse()[0]` takes the greatest month key in code-unit order. The keys are built without zero padding (`2025年10月`, `2025年9月`), so `9` sorts after `1`. | history holding dates in September and October of one year: September is expanded first | expand the month holding the newest date | not executed | `RaceHistory.SeptemberSortsAfterOctober` (on `RaceHistory.LatestMonth`) | `RaceHistory.NewestMonth`, proved by `RaceHistory.NewestMonthSpec` and `RaceHistory.InitialExpandedSpec` |
