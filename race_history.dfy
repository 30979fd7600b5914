/**
 * src/pages/RaceHistory.jsx: the month toggle, the scan of the 89 days before
 * today with the per-date model comparison, the month grouping, the choice
 * of the month shown expanded, and the month summary.
 */
module RaceHistory {
  import opened Wrappers
  import opened Strings
  import opened Seqs
  import opened Sorting
  import opened Bets
  import opened Grouping
  import RaceDetail

  // ---------------------------------------------------------------- toggle

  /** `prev[k]` read as a condition: an absent key is falsy. */
  predicate Expanded(m: map<string, bool>, k: string)
  {
    k in m && m[k]
  }

  /** `toggleMonth(k)`: `{ ...prev, [k]: !prev[k] }`. */
  function ToggleMonth(m: map<string, bool>, k: string): (r: map<string, bool>)
    ensures k in r && r[k] == !Expanded(m, k)
    ensures forall j :: j != k ==> (j in r <==> j in m)
    ensures forall j :: j != k && j in m ==> r[j] == m[j]
  {
    m[k := !Expanded(m, k)]
  }

  /** Toggling flips exactly one month: every other month keeps its state. */
  lemma ToggleFlipsOne(m: map<string, bool>, k: string)
    ensures Expanded(ToggleMonth(m, k), k) == !Expanded(m, k)
    ensures forall j :: j != k ==> Expanded(ToggleMonth(m, k), j) == Expanded(m, j)
  {
  }

  /** Toggling the same month twice restores what every month shows. */
  lemma ToggleTwice(m: map<string, bool>, k: string)
    ensures forall j :: Expanded(ToggleMonth(ToggleMonth(m, k), k), j) == Expanded(m, j)
  {
    ToggleFlipsOne(m, k);
    ToggleFlipsOne(ToggleMonth(m, k), k);
  }

  // ---------------------------------------------------------------- one date

  /** `result.payouts?.<bet>?.[key]`: undefined when the table or key is missing. */
  function Stored(table: Option<map<string, int>>, key: string): Option<int>
  {
    if table.Some? && key in table.value then Some(table.value[key]) else None
  }

  /** One hit test of the `forEach` body: on a hit, count it, then
      `if (payout) total += payout`, so a missing or zero payout adds nothing. */
  method Tick(hits: nat, payouts: int, hit: bool, table: Option<map<string, int>>, key: string)
    returns (hits': nat, payouts': int)
    ensures hits' == hits + (if hit then 1 else 0)
    ensures payouts' == payouts + (if hit then Lookup(table, key) else 0)
  {
    hits', payouts' := hits, payouts;
    if hit {
      hits' := hits' + 1;
      var payout := Stored(table, key);
      if payout.Some? && payout.value != 0 {
        payouts' := payouts' + payout.value;
      }
    }
  }

  /** The body of the `forEach` over finished races for one model: the same
      contributions as the detail page's counter step. */
  method CountRace(t: RaceDetail.Tally, race: Race, model: ModelKey) returns (u: RaceDetail.Tally)
    requires IsFinished(race.result)
    ensures RaceDetail.Stepped(t, u, race, model)
  {
    if model !in race.predictions {
      return t;
    }
    var p := race.predictions[model];
    var r := race.result.value;
    var win := p.topPick == r.rank1;
    var place := p.topPick == r.rank1 || p.topPick == r.rank2;
    var trifecta := r.rank1 in p.top3 && r.rank2 in p.top3 && r.rank3 in p.top3;
    var trio := At(p.top3, 0, r.rank1) && At(p.top3, 1, r.rank2) && At(p.top3, 2, r.rank3);
    assert win == Hit(p, r, Win) && place == Hit(p, r, Place);
    assert trifecta == Hit(p, r, Trifecta) && trio == Hit(p, r, Trio);
    var wh, wp := Tick(t.winHits, t.winPayouts, win, Table(r, Win), BetKey(p, r, Win));
    var ph, pp := Tick(t.placeHits, t.placePayouts, place, Table(r, Place), BetKey(p, r, Place));
    var fh, fp := Tick(t.trifectaHits, t.trifectaPayouts, trifecta, Table(r, Trifecta), BetKey(p, r, Trifecta));
    var oh, op := Tick(t.trioHits, t.trioPayouts, trio, Table(r, Trio), BetKey(p, r, Trio));
    Contribution(race, model, Win);
    Contribution(race, model, Place);
    Contribution(race, model, Trifecta);
    Contribution(race, model, Trio);
    u := RaceDetail.Tally(wh, ph, fh, oh, wp, pp, fp, op);
  }

  /** What one finished race with a prediction adds to a bet's counters. */
  lemma Contribution(race: Race, model: ModelKey, bet: Bet)
    requires IsFinished(race.result) && model in race.predictions
    ensures RaceDetail.Gain(race, model, bet) == if Hit(race.predictions[model], race.result.value, bet) then 1 else 0
    ensures RaceDetail.Pay(race, model, bet)
      == if Hit(race.predictions[model], race.result.value, bet)
         then Lookup(Table(race.result.value, bet), BetKey(race.predictions[model], race.result.value, bet)) else 0
  {
  }

  /** The counter loop of one model over a date's finished races. */
  method CountModel(finished: seq<Race>, model: ModelKey) returns (t: RaceDetail.Tally)
    requires forall i :: 0 <= i < |finished| ==> IsFinished(finished[i].result)
    ensures forall bet :: t.HitsOf(bet) == RaceDetail.HitCount(finished, model, bet)
    ensures forall bet :: t.PayoutsOf(bet) == RaceDetail.PayoutTotal(finished, model, bet)
  {
    t := RaceDetail.Tally(0, 0, 0, 0, 0, 0, 0, 0);
    for i := 0 to |finished|
      invariant RaceDetail.Counts(t, finished[..i], model)
    {
      var u := CountRace(t, finished[i], model);
      RaceDetail.CountsStep(t, u, finished[..i], finished[i], model);
      assert finished[..i] + [finished[i]] == finished[..i + 1];
      t := u;
    }
    assert finished[..|finished|] == finished;
  }

  /** One entry of `dates`. */
  datatype DateEntry = DateEntry(date: string, totalRaces: nat, finishedRaces: nat,
                                 modelComparison: seq<RaceDetail.Row>)

  /** `data.races || []`. */
  function RacesOf(data: Option<seq<Race>>): seq<Race>
  {
    if data.Some? then data.value else []
  }

  /** What a date's entry says about the file's races: their number, the
      number finished, and the three model rows over the finished ones. */
  ghost predicate EntryReports(e: DateEntry, date: string, data: Option<seq<Race>>)
  {
    var races := RacesOf(data);
    e.date == date && e.totalRaces == |races| && e.finishedRaces == |RaceDetail.Finished(races)|
    && |e.modelComparison| == 3
    && forall i :: 0 <= i < 3 ==> RaceDetail.RowReports(e.modelComparison[i], RaceDetail.Models[i], races)
  }

  /** The entry of a date whose file loaded: totals and the model comparison. */
  method DateEntryOf(date: string, data: Option<seq<Race>>) returns (e: DateEntry)
    ensures EntryReports(e, date, data)
  {
    var races := RacesOf(data);
    var finished := RaceDetail.Finished(races);
    RaceDetail.FinishedAreFinished(races);
    var finishedRaces := |finished|;
    var rows: seq<RaceDetail.Row> := [];
    for m := 0 to 3
      invariant |rows| == m
      invariant forall i :: 0 <= i < m ==> RaceDetail.RowReports(rows[i], RaceDetail.Models[i], races)
    {
      var t := CountModel(finished, RaceDetail.Models[m]);
      rows := rows + [RaceDetail.RowOf(RaceDetail.Models[m], t, finishedRaces)];
    }
    e := DateEntry(date, |races|, finishedRaces, rows);
  }

  /** The history rows agree with the detail page's ranking: rates in 0..1,
      win at most place, 3連単 at most 3連複, and all zero without finished races. */
  lemma EntryRowsOrdered(e: DateEntry, date: string, data: Option<seq<Race>>)
    requires EntryReports(e, date, data)
    ensures forall i, bet :: 0 <= i < 3 ==> 0.0 <= e.modelComparison[i].HitRate(bet) <= 1.0
    ensures forall i :: 0 <= i < 3 ==> e.modelComparison[i].winHitRate <= e.modelComparison[i].placeHitRate
    ensures forall i :: 0 <= i < 3 ==> e.modelComparison[i].trioHitRate <= e.modelComparison[i].trifectaHitRate
    ensures forall i :: 0 <= i < 3 ==> e.modelComparison[i].races == e.finishedRaces
  {
    forall i | 0 <= i < 3
      ensures forall bet :: 0.0 <= e.modelComparison[i].HitRate(bet) <= 1.0
      ensures e.modelComparison[i].winHitRate <= e.modelComparison[i].placeHitRate
      ensures e.modelComparison[i].trioHitRate <= e.modelComparison[i].trifectaHitRate
    {
      RaceDetail.RowRatesOrdered(e.modelComparison[i], RaceDetail.Models[i], RacesOf(data));
    }
  }

  // ---------------------------------------------------------------- the scan

  /** The offsets scanned: 1 to 89 days before today. */
  function Offsets(): (r: seq<nat>)
    ensures |r| == 89
    ensures forall k :: 0 <= k < 89 ==> r[k] == k + 1
  {
    seq(89, k requires 0 <= k => (k + 1) as nat)
  }

  /** The dates, newest first, whose file loaded (`fetch` gives None for a
      missing file or a failed request, else the file's `races`, if any). */
  function Available(dateAt: nat -> string, fetch: string -> Option<Option<seq<Race>>>): seq<string>
  {
    FilterMap(Offsets(), (i: nat) => fetch(dateAt(i)).Some?, dateAt)
  }

  /** The date of an entry. */
  function DateOf(e: DateEntry): string
  {
    e.date
  }

  /** The loop over the offsets: fetch each date's file and push its entry
      when it loaded; `dateAt(i)` is the date i days before today. */
  method ScanDates(dateAt: nat -> string, fetch: string -> Option<Option<seq<Race>>>) returns (dates: seq<DateEntry>)
    ensures Map(dates, DateOf) == Available(dateAt, fetch)
    ensures forall k :: 0 <= k < |dates| ==> fetch(dates[k].date).Some?
    ensures forall k :: 0 <= k < |dates| ==> EntryReports(dates[k], dates[k].date, fetch(dates[k].date).value)
  {
    var offs := Offsets();
    var ok := (i: nat) => fetch(dateAt(i)).Some?;
    dates := [];
    for i := 1 to 90
      invariant Map(dates, DateOf) == FilterMap(offs[..i - 1], ok, dateAt)
      invariant forall k :: 0 <= k < |dates| ==> fetch(dates[k].date).Some?
      invariant forall k :: 0 <= k < |dates| ==> EntryReports(dates[k], dates[k].date, fetch(dates[k].date).value)
    {
      assert offs[..i][..i - 1] == offs[..i - 1];
      assert offs[..i][i - 1] == i;
      var dateStr := dateAt(i);
      var response := fetch(dateStr);
      if response.Some? {
        var e := DateEntryOf(dateStr, response.value);
        assert (dates + [e])[..|dates|] == dates;
        dates := dates + [e];
      }
    }
    assert offs[..89] == offs;
  }

  /** Today (offset 0) is never scanned, and nothing older than 89 days is. */
  lemma AvailableOffsets(dateAt: nat -> string, fetch: string -> Option<Option<seq<Race>>>)
    ensures forall d :: d in Available(dateAt, fetch) <==> exists i :: 1 <= i <= 89 && fetch(dateAt(i)).Some? && d == dateAt(i)
    ensures |Available(dateAt, fetch)| <= 89
  {
    var offs := Offsets();
    var ok := (i: nat) => fetch(dateAt(i)).Some?;
    FilterMapMembers(offs, ok, dateAt);
    FilterMapAtMost(offs, ok, dateAt);
    forall d | d in Available(dateAt, fetch)
      ensures exists i :: 1 <= i <= 89 && fetch(dateAt(i)).Some? && d == dateAt(i)
    {
      var k :| 0 <= k < |offs| && ok(offs[k]) && d == dateAt(offs[k]);
      assert 1 <= offs[k] <= 89;
    }
    forall d | exists i :: 1 <= i <= 89 && fetch(dateAt(i)).Some? && d == dateAt(i)
      ensures d in Available(dateAt, fetch)
    {
      var i :| 1 <= i <= 89 && fetch(dateAt(i)).Some? && d == dateAt(i);
      assert offs[i - 1] == i;
    }
  }

  lemma {:induction false} FilterMapAtMost<T(!new), U>(xs: seq<T>, p: T -> bool, f: T --> U)
    requires forall x :: p(x) ==> f.requires(x)
    ensures |FilterMap(xs, p, f)| <= |xs|
  {
    if xs != [] {
      FilterMapAtMost(xs[..|xs| - 1], p, f);
    }
  }

  // ---------------------------------------------------------------- months

  /** `b.date.localeCompare(a.date)`: the later date first. */
  predicate NewerFirst(a: DateEntry, b: DateEntry)
  {
    StrLt(b.date, a.date)
  }

  lemma NewerFirstIsStrictWeak()
    ensures StrictWeakOrder(NewerFirst)
  {
    StrKeyDescIsStrictWeak(NewerFirst, DateOf);
  }

  /** A month group with its dates sorted newest first. */
  function SortedGroup(g: Group<string, DateEntry>): Group<string, DateEntry>
  {
    Group(g.key, Sort(g.members, NewerFirst))
  }

  /** The month key of an entry: `formatDate(date).yearMonth`, given as `ym`. */
  function MonthOf(ym: string -> string): DateEntry -> string
  {
    (e: DateEntry) => ym(e.date)
  }

  /** `grouped` after the `forEach` and the per-month sort, in key-creation order. */
  function Grouped(dates: seq<DateEntry>, ym: string -> string): seq<Group<string, DateEntry>>
  {
    Map(GroupBy(dates, MonthOf(ym)), SortedGroup)
  }

  /** `formatDate(...).yearMonth`: `${year}年${month}月`, month not zero-padded. */
  function YearMonth(year: nat, month: nat): string
  {
    NatToString(year) + "年" + NatToString(month) + "月"
  }

  /** The grouping `forEach`: create the month's array on first sight, then push. */
  method FileByMonth(dates: seq<DateEntry>, ym: string -> string) returns (grouped: seq<Group<string, DateEntry>>)
    ensures grouped == GroupBy(dates, MonthOf(ym))
  {
    grouped := [];
    for i := 0 to |dates|
      invariant grouped == GroupBy(dates[..i], MonthOf(ym))
    {
      assert dates[..i + 1][..i] == dates[..i];
      var yearMonth := ym(dates[i].date);
      match Find(grouped, yearMonth, KeyOf()) {
        case None =>
          grouped := grouped + [Group(yearMonth, [dates[i]])];
        case Some(k) =>
          grouped := grouped[k := Group(yearMonth, grouped[k].members + [dates[i]])];
      }
    }
    assert dates[..|dates|] == dates;
  }

  /** The grouping followed by the sort of each month's dates, newest first. */
  method GroupByMonth(dates: seq<DateEntry>, ym: string -> string) returns (grouped: seq<Group<string, DateEntry>>)
    ensures grouped == Grouped(dates, ym)
  {
    var filed := FileByMonth(dates, ym);
    grouped := [];
    for j := 0 to |filed|
      invariant grouped == Map(filed[..j], SortedGroup)
    {
      assert filed[..j + 1][..j] == filed[..j];
      grouped := grouped + [SortedGroup(filed[j])];
    }
    assert filed[..|filed|] == filed;
  }

  lemma GroupedAt(dates: seq<DateEntry>, ym: string -> string)
    ensures |Grouped(dates, ym)| == |GroupBy(dates, MonthOf(ym))|
    ensures forall g :: 0 <= g < |Grouped(dates, ym)| ==> Grouped(dates, ym)[g] == SortedGroup(GroupBy(dates, MonthOf(ym))[g])
  {
    MapAt(GroupBy(dates, MonthOf(ym)), SortedGroup);
  }

  /** One month group: non-empty, exactly the dates of its month, newest first. */
  lemma GroupedMembers(dates: seq<DateEntry>, ym: string -> string, g: nat)
    requires g < |Grouped(dates, ym)|
    ensures forall e :: e in Grouped(dates, ym)[g].members <==> e in dates && ym(e.date) == Grouped(dates, ym)[g].key
    ensures Sorted(Grouped(dates, ym)[g].members, NewerFirst)
    ensures |Grouped(dates, ym)[g].members| > 0
  {
    var gs := GroupBy(dates, MonthOf(ym));
    GroupedAt(dates, ym);
    GroupBySpec(dates, MonthOf(ym));
    GroupsNonEmpty(dates, MonthOf(ym));
    var m := gs[g].members;
    assert m == Filter(dates, HasKey(MonthOf(ym), gs[g].key));
    FilterMembers(dates, HasKey(MonthOf(ym), gs[g].key));
    var s := Sort(m, NewerFirst);
    assert Grouped(dates, ym)[g].members == s;
    forall e ensures e in s <==> e in m {
      assert e in s <==> e in multiset(s);
      assert e in m <==> e in multiset(m);
    }
    NewerFirstIsStrictWeak();
    SortSorted(m, NewerFirst);
  }

  /** Each month group holds exactly the dates of that month, newest first;
      no month appears twice and every date has its month's group. */
  lemma GroupedSpec(dates: seq<DateEntry>, ym: string -> string)
    ensures DistinctKeys(Grouped(dates, ym))
    ensures forall g, e :: 0 <= g < |Grouped(dates, ym)| ==>
      (e in Grouped(dates, ym)[g].members <==> e in dates && ym(e.date) == Grouped(dates, ym)[g].key)
    ensures forall g :: 0 <= g < |Grouped(dates, ym)| ==> Sorted(Grouped(dates, ym)[g].members, NewerFirst)
    ensures forall i :: 0 <= i < |dates| ==> exists g :: 0 <= g < |Grouped(dates, ym)| && Grouped(dates, ym)[g].key == ym(dates[i].date)
  {
    var gs := GroupBy(dates, MonthOf(ym));
    var hs := Grouped(dates, ym);
    GroupedAt(dates, ym);
    GroupBySpec(dates, MonthOf(ym));
    forall g | 0 <= g < |hs|
      ensures forall e :: e in hs[g].members <==> e in dates && ym(e.date) == hs[g].key
      ensures Sorted(hs[g].members, NewerFirst)
    {
      GroupedMembers(dates, ym, g);
    }
    forall i | 0 <= i < |dates|
      ensures exists g :: 0 <= g < |hs| && hs[g].key == ym(dates[i].date)
    {
      var g := Find(gs, MonthOf(ym)(dates[i]), KeyOf()).value;
      assert hs[g].key == gs[g].key;
    }
  }

  /** The keys of the groups. */
  function Keys(gs: seq<Group<string, DateEntry>>): seq<string>
  {
    Map(gs, KeyOf())
  }

  /** `Object.keys(grouped).sort().reverse()`: the months in reverse
      code-unit order of their keys, the order in which they are listed. */
  function MonthOrder(keys: seq<string>): seq<string>
  {
    Reverse(Sort(keys, StrLt))
  }

  /** `…reverse()[0]`, as written: the greatest key in code-unit order, if any. */
  function LatestMonth(keys: seq<string>): Option<string>
  {
    if keys == [] then None else Some(MonthOrder(keys)[0])
  }

  /** The latest month is a key that no other key sorts after. */
  lemma LatestMonthSpec(keys: seq<string>)
    ensures LatestMonth(keys).Some? <==> keys != []
    ensures LatestMonth(keys).Some? ==> LatestMonth(keys).value in keys
    ensures LatestMonth(keys).Some? ==> forall k :: k in keys ==> !StrLt(LatestMonth(keys).value, k)
  {
    if keys != [] {
      var s := Sort(keys, StrLt);
      StrLtIsStrictWeak();
      SortSorted(keys, StrLt);
      assert MonthOrder(keys)[0] == s[|s| - 1];
      assert s[|s| - 1] in multiset(keys);
      forall k | k in keys ensures !StrLt(s[|s| - 1], k) {
        assert k in multiset(s);
        var j :| 0 <= j < |s| && s[j] == k;
        if j < |s| - 1 {
          assert !StrLt(s[|s| - 1], s[j]);
        } else {
          StrLtIrreflexive(k);
        }
      }
    }
  }

  lemma {:induction false} StrLtAfterPrefix(p: string, a: string, b: string)
    requires StrLt(a, b)
    ensures StrLt(p + a, p + b)
  {
    if p == [] {
      assert p + a == a && p + b == b;
    } else {
      assert (p + a)[1..] == p[1..] + a && (p + b)[1..] == p[1..] + b;
      assert (p + a)[0] == p[0] == (p + b)[0];
      StrLtAfterPrefix(p[1..], a, b);
    }
  }

  /** Month keys are not zero-padded, so within a year October to December
      sort before February to September. */
  lemma MonthKeysUnpadded(year: nat, m1: nat, m2: nat)
    requires 10 <= m1 <= 12 && 2 <= m2 <= 9
    ensures StrLt(YearMonth(year, m1), YearMonth(year, m2))
  {
    var a := NatToString(m1) + "月";
    var b := NatToString(m2) + "月";
    assert NatToString(m1)[0] == '1';
    assert NatToString(m2) == [DigitChar(m2)];
    assert a[0] < b[0];
    var p := NatToString(year) + "年";
    StrLtAfterPrefix(p, a, b);
    assert YearMonth(year, m1) == p + a && YearMonth(year, m2) == p + b;
  }

  /** As written, with September and October of one year present the month
      chosen to start expanded is September. */
  lemma SeptemberSortsAfterOctober(year: nat)
    ensures LatestMonth([YearMonth(year, 10), YearMonth(year, 9)]) == Some(YearMonth(year, 9))
  {
    var oct := YearMonth(year, 10);
    var sep := YearMonth(year, 9);
    MonthKeysUnpadded(year, 10, 9);
    if StrLt(sep, oct) {
      StrLtTransitive(oct, sep, oct);
      StrLtIrreflexive(oct);
    }
    assert [oct, sep][1..] == [sep];
    assert Sort([sep], StrLt) == [sep];
    assert Sort([oct, sep], StrLt) == [oct, sep];
  }

  /** The date of a month's first entry, its newest once the group is sorted. */
  function NewestDate(g: Group<string, DateEntry>): string
  {
    if g.members == [] then "" else g.members[0].date
  }

  /** The months ordered by their newest date, latest first. */
  predicate NewerMonth(g: Group<string, DateEntry>, h: Group<string, DateEntry>)
  {
    StrLt(NewestDate(h), NewestDate(g))
  }

  /** The evidently intended choice: the month holding the newest date. */
  function NewestMonth(grouped: seq<Group<string, DateEntry>>): Option<string>
  {
    if grouped == [] then None else Some(Sort(grouped, NewerMonth)[0].key)
  }

  /** A month's newest date is not older than any of its dates. */
  lemma GroupNewest(dates: seq<DateEntry>, ym: string -> string, g: nat, d: DateEntry)
    requires g < |Grouped(dates, ym)| && d in Grouped(dates, ym)[g].members
    ensures !StrLt(NewestDate(Grouped(dates, ym)[g]), d.date)
  {
    GroupedMembers(dates, ym, g);
    var m := Grouped(dates, ym)[g].members;
    var k :| 0 <= k < |m| && m[k] == d;
    if k > 0 {
      assert !NewerFirst(m[k], m[0]);
    } else {
      StrLtIrreflexive(d.date);
    }
  }

  /** The first month in newest-first order has the newest date of all months. */
  lemma FirstMonthNewest(hs: seq<Group<string, DateEntry>>, h: Group<string, DateEntry>)
    requires h in hs
    ensures !StrLt(NewestDate(Sort(hs, NewerMonth)[0]), NewestDate(h))
  {
    var s := Sort(hs, NewerMonth);
    StrKeyDescIsStrictWeak(NewerMonth, NewestDate);
    SortSorted(hs, NewerMonth);
    assert h in multiset(s);
    var j :| 0 <= j < |s| && s[j] == h;
    if j > 0 {
      assert !NewerMonth(s[j], s[0]);
    } else {
      StrLtIrreflexive(NewestDate(h));
    }
  }

  /** The month chosen holds the newest of all the dates (ISO dates compare
      chronologically as strings), and exists exactly when some date does. */
  lemma NewestMonthSpec(dates: seq<DateEntry>, ym: string -> string)
    ensures NewestMonth(Grouped(dates, ym)).Some? <==> dates != []
    ensures NewestMonth(Grouped(dates, ym)).Some? ==>
      exists e :: e in dates && ym(e.date) == NewestMonth(Grouped(dates, ym)).value
        && forall d :: d in dates ==> !StrLt(e.date, d.date)
  {
    var hs := Grouped(dates, ym);
    GroupedSpec(dates, ym);
    if dates == [] {
      GroupedAt(dates, ym);
    } else {
      assert |hs| > 0;
      var s := Sort(hs, NewerMonth);
      assert s[0] in multiset(hs);
      var g0 :| 0 <= g0 < |hs| && hs[g0] == s[0];
      GroupedMembers(dates, ym, g0);
      var e := s[0].members[0];
      assert e in s[0].members;
      assert NewestDate(s[0]) == e.date;
      StrLtIsStrictWeak();
      forall d | d in dates ensures !StrLt(e.date, d.date) {
        var i :| 0 <= i < |dates| && dates[i] == d;
        var g :| 0 <= g < |hs| && hs[g].key == ym(dates[i].date);
        GroupNewest(dates, ym, g, d);
        FirstMonthNewest(hs, hs[g]);
      }
    }
  }

  /** The expansion state set after loading: only the month of the newest date. */
  function InitialExpanded(grouped: seq<Group<string, DateEntry>>): map<string, bool>
  {
    match NewestMonth(grouped)
    case Some(k) => map[k := true]
    case None => map[]
  }

  /** Only the newest month starts expanded. */
  lemma InitialExpandedSpec(grouped: seq<Group<string, DateEntry>>)
    ensures forall k :: Expanded(InitialExpanded(grouped), k) <==> NewestMonth(grouped) == Some(k)
  {
  }

  // ---------------------------------------------------------------- month summary

  /** The month summary: races, the standard model's win rate in percent
      (0 when there are no races; printing with one decimal is left out), days. */
  datatype MonthSummary = MonthSummary(totalRaces: nat, avgWinRate: real, days: nat)

  /** The standard model's estimated win hits of one date:
      `winHitRate * races` of the first row keyed `standard`, 0 without one. */
  function StandardWinHits(e: DateEntry): real
  {
    match Find(e.modelComparison, Standard, (r: RaceDetail.Row) => r.key)
    case Some(j) => e.modelComparison[j].winHitRate * e.modelComparison[j].races as real
    case None => 0.0
  }

  /** The `forEach` accumulator: the standard win hits of the dates, added in order. */
  function TotalWinHits(dates: seq<DateEntry>): real
  {
    if dates == [] then 0.0 else TotalWinHits(dates[..|dates| - 1]) + StandardWinHits(dates[|dates| - 1])
  }

  /** The `reduce` over `finishedRaces`. */
  function FinishedOf(e: DateEntry): int
  {
    e.finishedRaces
  }

  /** `getMonthSummary`. */
  method MonthSummaryOf(dates: seq<DateEntry>) returns (s: MonthSummary)
    ensures s.days == |dates|
    ensures s.totalRaces == SumOf(dates, FinishedOf)
    ensures s.totalRaces == 0 ==> s.avgWinRate == 0.0
    ensures s.totalRaces > 0 ==> s.avgWinRate == (TotalWinHits(dates) / s.totalRaces as real) * 100.0
  {
    var totalRaces := SumOfNat(dates);
    var totalWinHits := 0.0;
    for i := 0 to |dates|
      invariant totalWinHits == TotalWinHits(dates[..i])
    {
      assert dates[..i + 1][..i] == dates[..i];
      totalWinHits := totalWinHits + StandardWinHits(dates[i]);
    }
    assert dates[..|dates|] == dates;
    var avg := if totalRaces > 0 then (totalWinHits / totalRaces as real) * 100.0 else 0.0;
    s := MonthSummary(totalRaces, avg, |dates|);
  }

  /** The `reduce`: the sum of the dates' finished races, never negative. */
  function SumOfNat(dates: seq<DateEntry>): (n: nat)
    ensures n == SumOf(dates, FinishedOf)
  {
    if dates == [] then 0 else dates[0].finishedRaces + SumOfNat(dates[1..])
  }

  /** The rate read back off a row: its hit rate times its races is its hit count. */
  lemma RateTimesRaces(rate: real, hits: nat, races: nat)
    requires hits <= races && rate == RaceDetail.Rate(hits, races)
    ensures rate * races as real == hits as real
  {
    if races > 0 {
      assert rate * races as real == hits as real;
    }
  }

  /** A row's win rate and race count, read off what it reports. */
  lemma RowWin(row: RaceDetail.Row, model: ModelKey, races: seq<Race>)
    requires RaceDetail.RowReports(row, model, races)
    ensures row.races == |RaceDetail.Finished(races)|
    ensures row.winHitRate == RaceDetail.Rate(RaceDetail.HitCount(RaceDetail.Finished(races), model, Win), row.races)
    ensures RaceDetail.HitCount(RaceDetail.Finished(races), model, Win) <= row.races
  {
    assert row.HitRate(Win) == row.winHitRate;
    RaceDetail.HitCountAtMostRaces(RaceDetail.Finished(races), model, Win);
  }

  /** A first row keyed `standard` is the one `find` returns. */
  lemma StandardFirst(e: DateEntry)
    requires |e.modelComparison| > 0 && e.modelComparison[0].key == Standard
    ensures StandardWinHits(e) == e.modelComparison[0].winHitRate * e.modelComparison[0].races as real
  {
    assert Find(e.modelComparison, Standard, (r: RaceDetail.Row) => r.key) == Some(0);
  }

  /** A date whose standard row reports h wins has h standard win hits. */
  lemma StandardWinHitsOf(e: DateEntry, h: nat)
    requires |e.modelComparison| > 0 && e.modelComparison[0].key == Standard
    requires h <= e.modelComparison[0].races
    requires e.modelComparison[0].winHitRate == RaceDetail.Rate(h, e.modelComparison[0].races)
    ensures StandardWinHits(e) == h as real
  {
    StandardFirst(e);
    RateTimesRaces(e.modelComparison[0].winHitRate, h, e.modelComparison[0].races);
  }

  /** For entries built by the scan, a date's standard win hits are the
      standard model's win count over its finished races. */
  lemma StandardWinHitsCount(e: DateEntry, date: string, data: Option<seq<Race>>)
    requires EntryReports(e, date, data)
    ensures StandardWinHits(e) == RaceDetail.HitCount(RaceDetail.Finished(RacesOf(data)), Standard, Win) as real
  {
    var row := e.modelComparison[0];
    assert RaceDetail.RowReports(row, RaceDetail.Models[0], RacesOf(data));
    RowWin(row, Standard, RacesOf(data));
    StandardWinHitsOf(e, RaceDetail.HitCount(RaceDetail.Finished(RacesOf(data)), Standard, Win));
  }

  /** The standard model's win count over the finished races of the dates' files. */
  ghost function StandardWins(dates: seq<DateEntry>, fetch: string -> Option<Option<seq<Race>>>): nat
    requires forall k :: 0 <= k < |dates| ==> fetch(dates[k].date).Some?
  {
    if dates == [] then 0
    else
      var e := dates[|dates| - 1];
      StandardWins(dates[..|dates| - 1], fetch)
      + RaceDetail.HitCount(RaceDetail.Finished(RacesOf(fetch(e.date).value)), Standard, Win)
  }

  /** For scanned entries the accumulated win hits are the standard model's
      win count over the month's finished races, so the month's rate weighs
      every finished race alike rather than averaging daily rates. */
  lemma {:induction false} TotalWinHitsCount(dates: seq<DateEntry>, fetch: string -> Option<Option<seq<Race>>>)
    requires forall k :: 0 <= k < |dates| ==> fetch(dates[k].date).Some?
    requires forall k :: 0 <= k < |dates| ==> EntryReports(dates[k], dates[k].date, fetch(dates[k].date).value)
    ensures TotalWinHits(dates) == StandardWins(dates, fetch) as real
  {
    if dates != [] {
      var n := |dates| - 1;
      assert forall k :: 0 <= k < n ==> dates[..n][k] == dates[k];
      TotalWinHitsCount(dates[..n], fetch);
      StandardWinHitsCount(dates[n], dates[n].date, fetch(dates[n].date).value);
    }
  }
}
