/**
 * scripts/scrape-results.js: the result page address, the reading of the
 * payout table row by row, the top three boats, and the pass that fills in
 * the results of a day's prediction file. The page arrives as the cell texts
 * of its `.is-w495` tables, row by row; fetching and HTML parsing are not
 * part of this model.
 */
module ScrapeResults {
  import opened Wrappers
  import opened Strings
  import opened Seqs
  import opened Bets

  // ---------------------------------------------------------------- address

  /** `getRaceResultUrl`: the race number, the venue code padded to two
      digits and the date without its dashes. */
  function ResultUrl(venueCode: int, raceNo: int, dateStr: string): string
  {
    "https://www.boatrace.jp/owpc/pc/race/raceresult?rno=" + IntToString(raceNo)
    + "&jcd=" + PadStart(IntToString(venueCode), 2, '0') + "&hd=" + RemoveChar(dateStr, '-')
  }

  /** The `jcd` of a venue code reads back as the code and has at least two
      digits, a leading `0` for codes below 10. */
  lemma JcdSpec(venueCode: nat)
    ensures JsParseInt(PadStart(IntToString(venueCode), 2, '0')) == Some(venueCode)
    ensures |PadStart(IntToString(venueCode), 2, '0')| >= 2
    ensures venueCode < 10 ==> PadStart(IntToString(venueCode), 2, '0') == "0" + NatToString(venueCode)
  {
    ParseIntOfPadded(venueCode);
    if venueCode < 10 {
      assert PadStart(NatToString(venueCode), 2, '0') == "0" + NatToString(venueCode);
    }
  }

  lemma {:induction false} RemoveCharAppend(a: string, b: string, c: char)
    ensures RemoveChar(a + b, c) == RemoveChar(a, c) + RemoveChar(b, c)
  {
    if a == [] {
      assert a + b == b;
    } else {
      assert (a + b)[1..] == a[1..] + b;
      RemoveCharAppend(a[1..], b, c);
    }
  }

  lemma {:induction false} RemoveCharAbsent(s: string, c: char)
    requires c !in s
    ensures RemoveChar(s, c) == s
  {
    if s != [] {
      RemoveCharAbsent(s[1..], c);
    }
  }

  /** The `hd` of a `YYYY-MM-DD` date is `YYYYMMDD`. */
  lemma HdSpec(y: string, m: string, d: string)
    requires '-' !in y && '-' !in m && '-' !in d
    ensures RemoveChar(y + "-" + m + "-" + d, '-') == y + m + d
  {
    var a := y + "-";
    var b := a + m;
    var c := b + "-";
    assert RemoveChar("-", '-') == [];
    RemoveCharAbsent(y, '-');
    RemoveCharAbsent(m, '-');
    RemoveCharAbsent(d, '-');
    RemoveCharAppend(y, "-", '-');
    assert RemoveChar(a, '-') == y;
    RemoveCharAppend(a, m, '-');
    assert RemoveChar(b, '-') == y + m;
    RemoveCharAppend(b, "-", '-');
    assert RemoveChar(c, '-') == y + m;
    RemoveCharAppend(c, d, '-');
  }

  // ---------------------------------------------------------------- one payout row

  /** The seven bet labels that set the current bet type. */
  const BetLabels: seq<string> := ["単勝", "複勝", "3連単", "3連複", "2連単", "2連複", "拡連複"]

  /** `s.replace(/[^0-9]/g, '')`: the ASCII digits of s, in order. */
  function KeepDigits(s: string): (r: string)
    ensures AllDigits(r)
    ensures r == [] <==> forall i :: 0 <= i < |s| ==> !IsDigit(s[i])
  {
    if s == [] then []
    else
      var rest := KeepDigits(s[1..]);
      assert forall i :: 1 <= i < |s| ==> s[1..][i - 1] == s[i];
      if IsDigit(s[0]) then [s[0]] + rest else rest
  }

  /** `parseInt(s.replace(/[^0-9]/g, ''))`: None (NaN) when s has no digit. */
  function DigitsOf(s: string): Option<int>
  {
    var d := KeepDigits(s);
    if d == [] then None else Some(DigitsValue(d) as int)
  }

  /** Reading the kept digits is what `parseInt` does with them. */
  lemma DigitsOfIsParseInt(s: string)
    ensures DigitsOf(s) == (if KeepDigits(s) == [] then None else JsParseInt(KeepDigits(s)))
  {
    if KeepDigits(s) != [] {
      ParseIntOfDigits(KeepDigits(s));
    }
  }

  /** What one row puts forward: a payout (None for NaN) and its combination. */
  datatype Candidate = Candidate(payout: Option<int>, combo: string)

  /** Zero or NaN. */
  predicate NoPayout(v: Option<int>)
  {
    v.None? || v.value == 0
  }

  /** Pattern 1 reads the payout off col2 and the combination off col1;
      pattern 2, when that gives NaN or 0 and col1 shows `¥`, reads the
      payout off col1 and the combination off col0. */
  function RowCandidate(col0: string, col1: string, col2: string): (r: Candidate)
    ensures !NoPayout(DigitsOf(col2)) ==> r == Candidate(DigitsOf(col2), col1)
    ensures NoPayout(DigitsOf(col2)) && Contains(col1, "\U{A5}") ==> r == Candidate(DigitsOf(col1), col0)
    ensures NoPayout(DigitsOf(col2)) && !Contains(col1, "\U{A5}") ==> r == Candidate(DigitsOf(col2), col1)
  {
    var payout := DigitsOf(col2);
    if NoPayout(payout) && Contains(col1, "\U{A5}") then Candidate(DigitsOf(col1), col0)
    else Candidate(payout, col1)
  }

  // ---------------------------------------------------------------- combination keys

  /** A full-width digit `０`..`９`. */
  predicate IsWideDigit(c: char)
  {
    '\U{FF10}' <= c <= '\U{FF19}'
  }

  /** One of `→`, `－`, `−`, `ー`, `=`. */
  predicate IsDashLike(c: char)
  {
    c == '\U{2192}' || c == '\U{FF0D}' || c == '\U{2212}' || c == '\U{30FC}' || c == '='
  }

  /** The first two replacements on one character: a full-width digit to its
      ASCII digit (code minus 0xFEE0), a dash-like character to `-`. */
  function NormChar(c: char): (d: char)
    ensures !IsWideDigit(d) && !IsDashLike(d) && !IsJsSpace(d) <== !IsJsSpace(c)
  {
    if IsWideDigit(c) then (c as int - 0xFEE0) as char
    else if IsDashLike(c) then '-'
    else c
  }

  /** The normalised combination key: the two replacements, then every
      whitespace character deleted. */
  function Normalize(combo: string): (r: string)
    ensures |r| <= |combo|
  {
    if combo == [] then []
    else (if IsJsSpace(combo[0]) then [] else [NormChar(combo[0])]) + Normalize(combo[1..])
  }

  /** A normalised key has no whitespace, no full-width digit and no dash-like character. */
  lemma {:induction false} NormalizeClean(combo: string)
    ensures forall i :: 0 <= i < |Normalize(combo)| ==>
      !IsJsSpace(Normalize(combo)[i]) && !IsWideDigit(Normalize(combo)[i]) && !IsDashLike(Normalize(combo)[i])
  {
    if combo != [] {
      NormalizeClean(combo[1..]);
    }
  }

  /** Keys already made of ASCII digits and `-` (as the stored keys are) are left alone. */
  lemma {:induction false} NormalizeKeepsKeys(combo: string)
    requires forall i :: 0 <= i < |combo| ==> IsDigit(combo[i]) || combo[i] == '-'
    ensures Normalize(combo) == combo
  {
    if combo != [] {
      NormalizeKeepsKeys(combo[1..]);
      assert combo == [combo[0]] + combo[1..];
    }
  }

  /** Normalising twice is normalising once. */
  lemma {:induction false} NormalizeIdempotent(combo: string)
    ensures Normalize(Normalize(combo)) == Normalize(combo)
  {
    var r := Normalize(combo);
    NormalizeClean(combo);
    NormalizeKeepsClean(r);
  }

  lemma {:induction false} NormalizeKeepsClean(s: string)
    requires forall i :: 0 <= i < |s| ==> !IsJsSpace(s[i]) && !IsWideDigit(s[i]) && !IsDashLike(s[i])
    ensures Normalize(s) == s
  {
    if s != [] {
      NormalizeKeepsClean(s[1..]);
      assert s == [s[0]] + s[1..];
    }
  }

  /** A combination written with full-width digits and arrows, such as
      `１→２→３`, becomes the stored 3連単 key. */
  lemma WideComboKey()
    ensures Normalize("\U{FF11}\U{2192}\U{FF12}\U{2192}\U{FF13}") == "1-2-3"
  {
    var one, two, three := '\U{FF11}', '\U{FF12}', '\U{FF13}';
    var arrow := '\U{2192}';
    assert NormChar(one) == '1' && NormChar(two) == '2' && NormChar(three) == '3';
    assert NormChar(arrow) == '-';
    NormalizeCons(three, []);
    NormalizeCons(arrow, [three]);
    NormalizeCons(two, [arrow, three]);
    NormalizeCons(arrow, [two, arrow, three]);
    NormalizeCons(one, [arrow, two, arrow, three]);
    assert [one] + [arrow, two, arrow, three] == "\U{FF11}\U{2192}\U{FF12}\U{2192}\U{FF13}";
  }

  lemma NormalizeCons(c: char, s: string)
    requires !IsJsSpace(c)
    ensures Normalize([c] + s) == [NormChar(c)] + Normalize(s)
  {
    assert ([c] + s)[1..] == s;
  }

  // ---------------------------------------------------------------- the payout table

  /** The table walk's state: the current bet type and the four maps. */
  datatype Scan = Scan(currentType: string, payouts: Payouts)

  /** The empty payout maps. */
  const NoPayouts: Payouts := Payouts(map[], map[], map[], map[])

  /** Stores a payout under the current type; other types are dropped. */
  function Store(p: Payouts, kind: string, key: string, v: int): (q: Payouts)
    ensures kind !in ["単勝", "複勝", "3連複", "3連単"] ==> q == p
  {
    if kind == "単勝" then p.(win := p.win[key := v])
    else if kind == "複勝" then p.(place := p.place[key := v])
    else if kind == "3連複" then p.(trifecta := p.trifecta[key := v])
    else if kind == "3連単" then p.(trio := p.trio[key := v])
    else p
  }

  /** `cells.eq(k).text().trim()`, or `''` for a missing cell. */
  function CellText(row: seq<string>, k: nat): string
  {
    if k < |row| then JsTrim(row[k]) else ""
  }

  /** A row whose first cell is one of the seven labels. */
  predicate IsLabelRow(row: seq<string>)
  {
    |row| >= 2 && CellText(row, 0) != "" && CellText(row, 0) in BetLabels
  }

  /** What a row stores: the candidate, when its payout is a positive number
      and its combination is non-empty. */
  predicate Stores(row: seq<string>)
  {
    var c := RowCandidate(CellText(row, 0), CellText(row, 1), CellText(row, 2));
    |row| >= 2 && c.payout.Some? && c.payout.value > 0 && c.combo != ""
  }

  /** The `.each` callback on one row: rows with fewer than two cells are skipped. */
  function Step(s: Scan, row: seq<string>): Scan
  {
    if |row| < 2 then s
    else
      var col0 := CellText(row, 0);
      var kind := if IsLabelRow(row) then col0 else s.currentType;
      var c := RowCandidate(col0, CellText(row, 1), CellText(row, 2));
      if Stores(row) then Scan(kind, Store(s.payouts, kind, Normalize(c.combo), c.payout.value))
      else Scan(kind, s.payouts)
  }

  /** The state after the given rows, from no type and empty maps. */
  function ScanRows(rows: seq<seq<string>>): Scan
  {
    if rows == [] then Scan("", NoPayouts) else Step(ScanRows(rows[..|rows| - 1]), rows[|rows| - 1])
  }

  /** `scrapePayouts`: the rows of the third `.is-w495` table, or empty maps without one. */
  function PayoutsOf(tables: seq<seq<seq<string>>>): Payouts
  {
    if |tables| > 2 then ScanRows(tables[2]).payouts else NoPayouts
  }

  /** The callback as the script runs it. */
  method ScanRow(currentType: string, payouts: Payouts, row: seq<string>)
    returns (currentType': string, payouts': Payouts)
    ensures Scan(currentType', payouts') == Step(Scan(currentType, payouts), row)
  {
    currentType', payouts' := currentType, payouts;
    if |row| >= 2 {
      var col0 := CellText(row, 0);
      var col1 := CellText(row, 1);
      var col2 := if |row| >= 3 then CellText(row, 2) else "";
      if col0 != "" && col0 in BetLabels {
        currentType' := col0;
      }
      var payout := DigitsOf(col2);
      var combo := col1;
      if (payout.None? || payout.value == 0) && Contains(col1, "\U{A5}") {
        payout := DigitsOf(col1);
        combo := col0;
      }
      if payout.Some? && payout.value > 0 && combo != "" {
        payouts' := Store(payouts', currentType', Normalize(combo), payout.value);
      }
    }
  }

  /** The walk over the payout rows. */
  method ScrapePayouts(tables: seq<seq<seq<string>>>) returns (payouts: Payouts)
    ensures payouts == PayoutsOf(tables)
  {
    payouts := NoPayouts;
    if |tables| <= 2 {
      return;
    }
    var rows := tables[2];
    var currentType := "";
    for i := 0 to |rows|
      invariant Scan(currentType, payouts) == ScanRows(rows[..i])
    {
      assert rows[..i + 1][..i] == rows[..i];
      currentType, payouts := ScanRow(currentType, payouts, rows[i]);
    }
    assert rows[..|rows|] == rows;
  }

  /** The current type changes only on a label row, to that label. */
  lemma StepType(s: Scan, row: seq<string>)
    ensures IsLabelRow(row) ==> Step(s, row).currentType == CellText(row, 0)
    ensures !IsLabelRow(row) ==> Step(s, row).currentType == s.currentType
  {
  }

  /** The current type is always empty or one of the seven labels. */
  lemma {:induction false} ScanTypeKnown(rows: seq<seq<string>>)
    ensures ScanRows(rows).currentType == "" || ScanRows(rows).currentType in BetLabels
  {
    if rows != [] {
      ScanTypeKnown(rows[..|rows| - 1]);
    }
  }

  /** Every payout in a map is positive. */
  predicate AllPositive(m: map<string, int>)
  {
    forall k :: k in m ==> m[k] > 0
  }

  /** A key with no whitespace, full-width digit or dash-like character:
      what normalisation leaves. */
  predicate Clean(k: string)
  {
    forall i :: 0 <= i < |k| ==> !IsJsSpace(k[i]) && !IsWideDigit(k[i]) && !IsDashLike(k[i])
  }

  /** Every key of a map is clean. */
  predicate AllNormalized(m: map<string, int>)
  {
    forall k :: k in m ==> Clean(k)
  }

  predicate WellStored(p: Payouts)
  {
    AllPositive(p.win) && AllPositive(p.place) && AllPositive(p.trifecta) && AllPositive(p.trio)
    && AllNormalized(p.win) && AllNormalized(p.place) && AllNormalized(p.trifecta) && AllNormalized(p.trio)
  }

  lemma StepWellStored(s: Scan, row: seq<string>)
    requires WellStored(s.payouts)
    ensures WellStored(Step(s, row).payouts)
  {
    if |row| >= 2 && Stores(row) {
      var c := RowCandidate(CellText(row, 0), CellText(row, 1), CellText(row, 2));
      NormalizeClean(c.combo);
      StoreWellStored(s.payouts, Step(s, row).currentType, Normalize(c.combo), c.payout.value);
    }
  }

  lemma StoreWellStored(p: Payouts, kind: string, key: string, v: int)
    requires WellStored(p) && Clean(key) && v > 0
    ensures WellStored(Store(p, kind, key, v))
  {
  }

  /** Only positive payouts are stored, each under a clean key. */
  lemma {:induction false} ScanWellStored(rows: seq<seq<string>>)
    ensures WellStored(ScanRows(rows).payouts)
  {
    if rows != [] {
      ScanWellStored(rows[..|rows| - 1]);
      StepWellStored(ScanRows(rows[..|rows| - 1]), rows[|rows| - 1]);
    }
  }

  /** A row that stores under 単勝 sets that key to its payout, overwriting an
      earlier one, and leaves the other three maps alone. */
  lemma StepStoresWin(s: Scan, row: seq<string>)
    requires Stores(row) && Step(s, row).currentType == "単勝"
    ensures var c := RowCandidate(CellText(row, 0), CellText(row, 1), CellText(row, 2));
      Step(s, row).payouts == s.payouts.(win := s.payouts.win[Normalize(c.combo) := c.payout.value])
  {
  }

  /** Under the types that are not kept (2連単, 2連複, 拡連複, or none yet) a row changes no map. */
  lemma StepIgnoresOtherTypes(s: Scan, row: seq<string>)
    requires Step(s, row).currentType !in ["単勝", "複勝", "3連複", "3連単"]
    ensures Step(s, row).payouts == s.payouts
  {
  }

  // ---------------------------------------------------------------- the top three

  /** `parseInt` of a row's second cell: the boat number. */
  function BoatNumber(row: seq<string>): Option<int>
  {
    JsParseInt(CellText(row, 1))
  }

  /** `boatNumber && !isNaN(boatNumber)`: a number other than 0. */
  predicate Truthy(n: Option<int>)
  {
    n.Some? && n.value != 0
  }

  function ValueOf(n: Option<int>): int
    requires n.Some?
  {
    n.value
  }

  /** The boat numbers of the first three rows that yield a truthy number. */
  function RankingsOf(rows: seq<seq<string>>): (r: seq<int>)
    ensures |r| <= 3
  {
    var first := if |rows| < 3 then rows else rows[..3];
    var ns := Map(first, BoatNumber);
    FilterMapAtMost3(ns);
    FilterMap(ns, Truthy, ValueOf)
  }

  lemma {:induction false} FilterMapAtMost3(ns: seq<Option<int>>)
    requires |ns| <= 3
    ensures |FilterMap(ns, Truthy, ValueOf)| <= |ns|
  {
    if ns != [] {
      FilterMapAtMost3(ns[..|ns| - 1]);
    }
  }

  /** The `.each` over the result rows that pushes the first three truthy numbers. */
  method TopBoats(rows: seq<seq<string>>) returns (rankings: seq<int>)
    ensures rankings == RankingsOf(rows)
  {
    var first := if |rows| < 3 then rows else rows[..3];
    var ns := Map(first, BoatNumber);
    MapAt(first, BoatNumber);
    rankings := [];
    for index := 0 to |rows|
      invariant rankings == FilterMap(ns[..if index < |ns| then index else |ns|], Truthy, ValueOf)
    {
      if index < 3 {
        assert ns[..index + 1][..index] == ns[..index];
        var boatNumber := JsParseInt(CellText(rows[index], 1));
        if boatNumber.Some? && boatNumber.value != 0 {
          rankings := rankings + [boatNumber.value];
        }
      }
    }
    assert ns[..|ns|] == ns;
  }

  /** `scrapeRaceResult`: None on a failed request (`page` None), a page
      without result tables, or fewer than three boats; otherwise a finished
      result with the three boats in order and the payouts. */
  function ResultOf(page: Option<seq<seq<seq<string>>>>): Option<Result>
  {
    if page.None? || page.value == [] then None
    else
      var rankings := RankingsOf(Flatten(page.value));
      if |rankings| < 3 then None
      else Some(Final(rankings[0], rankings[1], rankings[2], Some(PayoutsOf(page.value))))
  }

  /** The scraper as the script runs it. */
  method ScrapeRaceResult(page: Option<seq<seq<seq<string>>>>) returns (result: Option<Result>)
    ensures result == ResultOf(page)
  {
    if page.None? || page.value == [] {
      return None;
    }
    var rankings := TopBoats(Flatten(page.value));
    if |rankings| < 3 {
      return None;
    }
    var payouts := ScrapePayouts(page.value);
    result := Some(Final(rankings[0], rankings[1], rankings[2], Some(payouts)));
  }

  lemma FilterMapThree(ns: seq<Option<int>>)
    requires |ns| == 3
    ensures |FilterMap(ns, Truthy, ValueOf)| == 3 <==> Truthy(ns[0]) && Truthy(ns[1]) && Truthy(ns[2])
    ensures |FilterMap(ns, Truthy, ValueOf)| == 3 ==> FilterMap(ns, Truthy, ValueOf) == [ns[0].value, ns[1].value, ns[2].value]
  {
    assert ns[..2][..1] == ns[..1] && ns[..1][..0] == [];
    assert ns[..2][1] == ns[1] && ns[..1][0] == ns[0];
    FilterMapAtMost3(ns[..2]);
    FilterMapAtMost3(ns[..1]);
  }

  /** A result is found exactly when the page has result tables whose first
      three rows all give a boat number other than 0; those are the ranks.
      (The number only has to be truthy: a negative one would be taken.) */
  lemma ResultOfSpec(page: Option<seq<seq<seq<string>>>>)
    ensures ResultOf(page).Some? <==>
      page.Some? && page.value != [] && |Flatten(page.value)| >= 3
      && Truthy(BoatNumber(Flatten(page.value)[0])) && Truthy(BoatNumber(Flatten(page.value)[1]))
      && Truthy(BoatNumber(Flatten(page.value)[2]))
    ensures ResultOf(page).Some? ==>
      var rows := Flatten(page.value);
      ResultOf(page).value == Final(BoatNumber(rows[0]).value, BoatNumber(rows[1]).value,
                                    BoatNumber(rows[2]).value, Some(PayoutsOf(page.value)))
  {
    if page.Some? && page.value != [] {
      var rows := Flatten(page.value);
      var first := if |rows| < 3 then rows else rows[..3];
      var ns := Map(first, BoatNumber);
      MapAt(first, BoatNumber);
      FilterMapAtMost3(ns);
      if |rows| >= 3 {
        FilterMapThree(ns);
      }
    }
  }

  // ---------------------------------------------------------------- the day's pass

  /** `hasPayouts`: payouts present and at least one of the four maps non-empty. */
  predicate HasPayouts(result: Result)
  {
    result.Final? && result.payouts.Some?
    && (|result.payouts.value.win| > 0 || |result.payouts.value.place| > 0
        || |result.payouts.value.trifecta| > 0 || |result.payouts.value.trio| > 0)
  }

  /** A race is skipped when its result is finished and has payouts. */
  predicate Skipped(race: Race)
  {
    IsFinished(race.result) && HasPayouts(race.result.value)
  }

  /** The scraper for a race of the day, by venue code and race number. */
  type Scraper = (int, int) -> Option<Result>

  /** A race scraped with a result. */
  function Fetched(scrape: Scraper): Race -> bool
  {
    (race: Race) => !Skipped(race) && scrape(race.venueCode, race.raceNumber).Some?
  }

  /** A race scraped without a result. */
  function NotYet(scrape: Scraper): Race -> bool
  {
    (race: Race) => !Skipped(race) && scrape(race.venueCode, race.raceNumber).None?
  }

  /** A race after the pass: skipped, given the scraped result, or left as it was. */
  function UpdatedRace(scrape: Scraper): Race -> Race
  {
    (race: Race) =>
      if Skipped(race) then race
      else match scrape(race.venueCode, race.raceNumber)
        case Some(r) => race.(result := Some(r))
        case None => race
  }

  /** One turn of the loop: skip a race that is finished with payouts,
      otherwise scrape it and take the result if there is one. */
  method UpdateRace(race: Race, scrape: Scraper) returns (race': Race, skipped: bool, fetched: bool)
    ensures race' == UpdatedRace(scrape)(race)
    ensures skipped == Skipped(race)
    ensures fetched == Fetched(scrape)(race)
    ensures NotYet(scrape)(race) == (!skipped && !fetched)
  {
    race', skipped, fetched := race, false, false;
    var hasPayouts := race.result.Some? && race.result.value.Final? && HasPayouts(race.result.value);
    if race.result.Some? && race.result.value.Final? && hasPayouts {
      skipped := true;
      assert Skipped(race);
      return;
    }
    var result := scrape(race.venueCode, race.raceNumber);
    if result.Some? {
      race' := race.(result := result);
      fetched := true;
    }
  }

  /** Counts one race under exactly one of the three outcomes. */
  method Tally(alreadyFinishedCount: nat, updatedCount: nat, notYetCount: nat, skipped: bool, fetched: bool)
    returns (alreadyFinishedCount': nat, updatedCount': nat, notYetCount': nat)
    ensures alreadyFinishedCount' == alreadyFinishedCount + (if skipped then 1 else 0)
    ensures updatedCount' == updatedCount + (if !skipped && fetched then 1 else 0)
    ensures notYetCount' == notYetCount + (if !skipped && !fetched then 1 else 0)
  {
    alreadyFinishedCount', updatedCount', notYetCount' := alreadyFinishedCount, updatedCount, notYetCount;
    if skipped {
      alreadyFinishedCount' := alreadyFinishedCount + 1;
    } else if fetched {
      updatedCount' := updatedCount + 1;
    } else {
      notYetCount' := notYetCount + 1;
    }
  }

  /** `updatePredictionWithResults` on the file's races with its three counters. */
  method UpdateWithResults(races: seq<Race>, scrape: Scraper)
    returns (races': seq<Race>, updatedCount: nat, alreadyFinishedCount: nat, notYetCount: nat)
    ensures races' == Map(races, UpdatedRace(scrape))
    ensures alreadyFinishedCount == CountIf(races, Skipped)
    ensures updatedCount == CountIf(races, Fetched(scrape))
    ensures notYetCount == CountIf(races, NotYet(scrape))
  {
    races' := races;
    updatedCount, alreadyFinishedCount, notYetCount := 0, 0, 0;
    for i := 0 to |races|
      invariant |races'| == |races|
      invariant races'[..i] == Map(races[..i], UpdatedRace(scrape))
      invariant forall j :: i <= j < |races| ==> races'[j] == races[j]
      invariant alreadyFinishedCount == CountIf(races[..i], Skipped)
      invariant updatedCount == CountIf(races[..i], Fetched(scrape))
      invariant notYetCount == CountIf(races[..i], NotYet(scrape))
    {
      CountIfSnoc(races, i, Skipped);
      CountIfSnoc(races, i, Fetched(scrape));
      CountIfSnoc(races, i, NotYet(scrape));
      MapSnoc(races, i, UpdatedRace(scrape));
      assert races'[i] == races[i];
      var race, skipped, fetched := UpdateRace(races'[i], scrape);
      races' := races'[i := race];
      assert races'[..i + 1] == races'[..i] + [races'[i]];
      alreadyFinishedCount, updatedCount, notYetCount :=
        Tally(alreadyFinishedCount, updatedCount, notYetCount, skipped, fetched);
    }
    assert races[..|races|] == races;
  }

  lemma CountIfSnoc<T>(xs: seq<T>, i: nat, p: T -> bool)
    requires i < |xs|
    ensures CountIf(xs[..i + 1], p) == CountIf(xs[..i], p) + (if p(xs[i]) then 1 else 0)
  {
    assert xs[..i + 1] == xs[..i] + [xs[i]];
    CountIfAppend(xs[..i], [xs[i]], p);
  }

  lemma MapSnoc<T, U>(xs: seq<T>, i: nat, f: T -> U)
    requires i < |xs|
    ensures Map(xs[..i + 1], f) == Map(xs[..i], f) + [f(xs[i])]
  {
    assert xs[..i + 1][..i] == xs[..i];
  }

  /** Every race is counted exactly once. */
  lemma {:induction false} CountsAddUp(races: seq<Race>, scrape: Scraper)
    ensures CountIf(races, Skipped) + CountIf(races, Fetched(scrape)) + CountIf(races, NotYet(scrape)) == |races|
  {
    if races != [] {
      CountsAddUp(races[1..], scrape);
    }
  }

  /** With the same pages, a second pass changes nothing more. */
  lemma UpdateIdempotent(races: seq<Race>, scrape: Scraper)
    ensures Map(Map(races, UpdatedRace(scrape)), UpdatedRace(scrape)) == Map(races, UpdatedRace(scrape))
  {
    var f := UpdatedRace(scrape);
    var once := Map(races, f);
    MapAt(races, f);
    MapAt(once, f);
    assert forall i :: 0 <= i < |races| ==> f(f(races[i])) == f(races[i]);
  }

  /** A race given a result with payouts is skipped by the next pass. */
  lemma FetchedThenSkipped(race: Race, scrape: Scraper)
    requires Fetched(scrape)(race)
    requires HasPayouts(scrape(race.venueCode, race.raceNumber).value)
    ensures Skipped(UpdatedRace(scrape)(race))
  {
  }
}
