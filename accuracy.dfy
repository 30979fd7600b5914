/**
 * scripts/calculate-accuracy.js: the per-race accuracy record, the summary
 * statistics over a list of scored races, the date split, the choice of last
 * month, the prediction-file selection and the pass over all day files that
 * builds `summary.json` (overall, yesterday, this month, last month and the
 * daily history).
 */
module CalculateAccuracy {
  import opened Wrappers
  import opened Strings
  import opened Seqs
  import opened Sorting
  import opened Bets

  // ---------------------------------------------------------------- one race

  /** `calculateRaceAccuracy`: null fields unless the race is finished; then the
      win, any-order and exact-order judgements. */
  function RaceAccuracy(p: Pick, result: Option<Result>): (a: Accuracy)
    ensures !IsFinished(result) ==> a == Unscored
  {
    if !IsFinished(result) then Unscored
    else
      var r := result.value;
      Accuracy(Some(p.topPick == r.rank1),
               Some(r.rank1 in p.top3 && r.rank2 in p.top3 && r.rank3 in p.top3),
               Some(At(p.top3, 0, r.rank1) && At(p.top3, 1, r.rank2) && At(p.top3, 2, r.rank3)))
  }

  /** The record is all null exactly when the race is not finished. */
  lemma RaceAccuracyNull(p: Pick, result: Option<Result>)
    ensures RaceAccuracy(p, result).topPickHit.None? <==> !IsFinished(result)
    ensures RaceAccuracy(p, result) == Unscored <==> !IsFinished(result)
  {
  }

  /** On a finished race the three fields are the 単勝, 3連複 and 3連単 judgements. */
  lemma RaceAccuracyHits(p: Pick, result: Option<Result>)
    requires IsFinished(result)
    ensures RaceAccuracy(p, result).topPickHit == Some(Hit(p, result.value, Win))
    ensures RaceAccuracy(p, result).top3Hit == Some(Hit(p, result.value, Trifecta))
    ensures RaceAccuracy(p, result).top3Included == Some(Hit(p, result.value, Trio))
  {
  }

  /** An exact-order hit is an any-order hit. */
  lemma ExactImpliesIncluded(p: Pick, result: Option<Result>)
    requires RaceAccuracy(p, result).top3Included == Some(true)
    ensures RaceAccuracy(p, result).top3Hit == Some(true)
  {
    RaceAccuracyHits(p, result);
    TrioImpliesTrifecta(p, result.value);
  }

  // ---------------------------------------------------------------- summaries

  /** A race after scoring: `{ ...race, date }` with `race.accuracy` set. */
  datatype Scored = Scored(date: string, race: Race, accuracy: Accuracy)

  /** The statistics record of `calculateSummaryStats`. */
  datatype Summary = Summary(
    totalRaces: nat, finishedRaces: nat,
    topPickHits: nat, topPickHitRate: real,
    top3Hits: nat, top3HitRate: real,
    top3IncludedHits: nat, top3IncludedRate: real)

  /** The all-zero summary. */
  const Zero: Summary := Summary(0, 0, 0, 0.0, 0, 0.0, 0, 0.0)

  /** `r.result?.finished && r.accuracy`: every race is scored before a summary is
      taken, so the accuracy object is always present. */
  predicate Counted(s: Scored)
  {
    IsFinished(s.race.result)
  }

  /** Truthiness of the three accuracy fields (null and false are falsy). */
  predicate TopPickHit(s: Scored) { s.accuracy.topPickHit == Some(true) }
  predicate Top3Hit(s: Scored) { s.accuracy.top3Hit == Some(true) }
  predicate Top3Included(s: Scored) { s.accuracy.top3Included == Some(true) }

  /** `hits / finished` as an exact rate. */
  function Rate(hits: nat, finished: nat): real
    requires finished > 0
  {
    hits as real / finished as real
  }

  /** `calculateSummaryStats`: counts over the finished races and the three rates. */
  function SummaryStats(races: seq<Scored>): (s: Summary)
    ensures CountIf(races, Counted) == 0 ==> s == Zero
    ensures s.totalRaces == s.finishedRaces == CountIf(races, Counted)
    ensures s.topPickHits <= s.finishedRaces && s.top3Hits <= s.finishedRaces
    ensures s.top3IncludedHits <= s.finishedRaces
  {
    var finished := Filter(races, Counted);
    if |finished| == 0 then Zero
    else
      var n := |finished|;
      var a := CountIf(finished, TopPickHit);
      var b := CountIf(finished, Top3Hit);
      var c := CountIf(finished, Top3Included);
      Summary(n, n, a, Rate(a, n), b, Rate(b, n), c, Rate(c, n))
  }

  /** A rate of at most all races lies in 0..1. */
  lemma RateSpec(hits: nat, finished: nat)
    requires 0 < finished && hits <= finished
    ensures 0.0 <= Rate(hits, finished) <= 1.0
  {
  }

  /** Fewer hits give a lower rate. */
  lemma RateMono(h: nat, k: nat, finished: nat)
    requires 0 < finished && h <= k
    ensures Rate(h, finished) <= Rate(k, finished)
  {
  }

  /** Each rate is its hit count over the finished races, between 0 and 1. */
  lemma SummaryRates(races: seq<Scored>)
    requires SummaryStats(races).finishedRaces > 0
    ensures SummaryStats(races).topPickHitRate == SummaryStats(races).topPickHits as real / SummaryStats(races).finishedRaces as real
    ensures SummaryStats(races).top3HitRate == SummaryStats(races).top3Hits as real / SummaryStats(races).finishedRaces as real
    ensures SummaryStats(races).top3IncludedRate == SummaryStats(races).top3IncludedHits as real / SummaryStats(races).finishedRaces as real
    ensures 0.0 <= SummaryStats(races).topPickHitRate <= 1.0
    ensures 0.0 <= SummaryStats(races).top3HitRate <= 1.0
    ensures 0.0 <= SummaryStats(races).top3IncludedRate <= 1.0
  {
    var fin := Filter(races, Counted);
    var n := |fin|;
    var a := CountIf(fin, TopPickHit);
    var b := CountIf(fin, Top3Hit);
    var c := CountIf(fin, Top3Included);
    assert SummaryStats(races) == Summary(n, n, a, Rate(a, n), b, Rate(b, n), c, Rate(c, n));
    RateSpec(a, n);
    RateSpec(b, n);
    RateSpec(c, n);
  }

  /** The race carries the record `calculateRaceAccuracy` computes for it. */
  predicate ScoredRight(s: Scored)
  {
    s.accuracy == RaceAccuracy(s.race.prediction, s.race.result)
  }

  /** Every race carries its own record. */
  ghost predicate Consistent(races: seq<Scored>)
  {
    forall s :: s in races ==> ScoredRight(s)
  }

  /** Over consistently scored races there are no more exact-order hits than
      any-order hits, and the rates follow. */
  lemma SummaryExactAtMostIncluded(races: seq<Scored>)
    requires Consistent(races)
    ensures SummaryStats(races).top3IncludedHits <= SummaryStats(races).top3Hits
    ensures SummaryStats(races).top3IncludedRate <= SummaryStats(races).top3HitRate
  {
    var finished := Filter(races, Counted);
    FilterMembers(races, Counted);
    forall x | x in finished && Top3Included(x) ensures Top3Hit(x) {
      ExactImpliesIncluded(x.race.prediction, x.race.result);
    }
    CountIfMono(finished, Top3Included, Top3Hit);
    var s := SummaryStats(races);
    if s.finishedRaces > 0 {
      RateMono(s.top3IncludedHits, s.top3Hits, s.finishedRaces);
    }
  }

  /** A filter of consistently scored races is consistent. */
  lemma FilterConsistent(races: seq<Scored>, p: Scored -> bool)
    requires Consistent(races)
    ensures Consistent(Filter(races, p))
  {
    FilterMembers(races, p);
  }

  // ---------------------------------------------------------------- dates

  /** A JavaScript number read off a date part: a value, NaN, or `undefined`
      for a part the string does not have. */
  datatype JsNum = Num(n: int) | NaN | Undefined

  /** `===` on such values: NaN equals nothing, `undefined` equals itself. */
  predicate StrictEq(a: JsNum, b: JsNum)
  {
    (a.Num? && b.Num? && a.n == b.n) || (a.Undefined? && b.Undefined?)
  }

  /** `Number(part)`. */
  function NumberOf(s: string): JsNum
  {
    match JsNumber(s)
    case Some(n) => Num(n)
    case None => NaN
  }

  /** `parts[k]` of `dateStr.split('-').map(Number)`. */
  function DatePart(parts: seq<string>, k: nat): JsNum
  {
    if k < |parts| then NumberOf(parts[k]) else Undefined
  }

  datatype DateInfo = DateInfo(year: JsNum, month: JsNum, day: JsNum)

  /** `getDateInfo`. */
  function DateInfoOf(dateStr: string): DateInfo
  {
    var parts := Split(dateStr, '-');
    DateInfo(DatePart(parts, 0), DatePart(parts, 1), DatePart(parts, 2))
  }

  /** A `YYYY-MM-DD` date of digit runs reads back as its three numbers. */
  lemma DateInfoOfDate(y: string, m: string, d: string)
    requires y != "" && m != "" && d != ""
    requires AllDigits(y) && AllDigits(m) && AllDigits(d)
    ensures DateInfoOf(y + "-" + m + "-" + d) == DateInfo(Num(DigitsValue(y)), Num(DigitsValue(m)), Num(DigitsValue(d)))
  {
    assert '-' !in y && '-' !in m && '-' !in d by {
      assert !IsDigit('-');
    }
    SplitThree(y, m, d);
    DigitsAreTrimmed(y);
    DigitsAreTrimmed(m);
    DigitsAreTrimmed(d);
  }

  lemma DigitsAreTrimmed(s: string)
    requires s != "" && AllDigits(s)
    ensures JsNumber(s) == Some(DigitsValue(s))
  {
    assert !IsJsSpace(s[0]) && !IsJsSpace(s[|s| - 1]);
  }

  /** `new Date(year, month - 2, 1)` read back as (`getFullYear()`, `getMonth() + 1`):
      years 0 to 99 mean 1900 to 1999, and the month index rolls over into the year. */
  function LastMonth(year: int, month: int): (int, int)
  {
    var y := if 0 <= year <= 99 then 1900 + year else year;
    (y + (month - 2) / 12, (month - 2) % 12 + 1)
  }

  /** Last month of January is December of the previous year; otherwise it is
      the previous month of the same year. */
  lemma LastMonthSpec(year: int, month: int)
    requires year >= 100 && 1 <= month <= 12
    ensures month == 1 ==> LastMonth(year, month) == (year - 1, 12)
    ensures month > 1 ==> LastMonth(year, month) == (year, month - 1)
  {
  }

  /** The month it names always lies in 1..12. */
  lemma LastMonthInRange(year: int, month: int)
    ensures 1 <= LastMonth(year, month).1 <= 12
  {
  }

  /** Last month of the date's (year, month); NaN when either is not a number. */
  function LastMonthOf(year: JsNum, month: JsNum): (JsNum, JsNum)
  {
    if year.Num? && month.Num? then
      var (y, m) := LastMonth(year.n, month.n);
      (Num(y), Num(m))
    else (NaN, NaN)
  }

  /** The month filter: the race's date splits into this year and month. */
  function InMonth(year: JsNum, month: JsNum): Scored -> bool
  {
    (s: Scored) => var info := DateInfoOf(s.date); StrictEq(info.year, year) && StrictEq(info.month, month)
  }

  /** The yesterday filter. */
  function OnDate(date: string): Scored -> bool
  {
    (s: Scored) => s.date == date
  }

  // ---------------------------------------------------------------- files

  /** `f.endsWith('.json') && f !== 'summary.json'`. */
  predicate IsPredictionFile(f: string)
  {
    EndsWith(f, ".json") && f != "summary.json"
  }

  /** The prediction files in `sort()` order. */
  function PredictionFiles(files: seq<string>): seq<string>
  {
    Sort(Filter(files, IsPredictionFile), StrLt)
  }

  /** Exactly the `.json` files other than `summary.json`, each as often as listed,
      in ascending name order. */
  lemma PredictionFilesSpec(files: seq<string>)
    ensures forall f :: f in PredictionFiles(files) <==> f in files && IsPredictionFile(f)
    ensures multiset(PredictionFiles(files)) == multiset(Filter(files, IsPredictionFile))
    ensures Sorted(PredictionFiles(files), StrLt)
  {
    FilterMembers(files, IsPredictionFile);
    var r := PredictionFiles(files);
    assert forall f :: f in r <==> f in multiset(r);
    StrLtIsStrictWeak();
    SortSorted(Filter(files, IsPredictionFile), StrLt);
  }

  // ---------------------------------------------------------------- the pass

  /** One day's prediction file. */
  datatype DayFile = DayFile(date: string, races: seq<Race>)

  /** One `dailyStats` entry. */
  datatype DailyStat = DailyStat(date: string, totalRaces: nat, topPickHitRate: real,
                                 top3HitRate: real, top3IncludedRate: real)

  /** The totals and rates a period entry of the summary keeps. */
  datatype Rates = Rates(totalRaces: nat, topPickHitRate: real, top3HitRate: real, top3IncludedRate: real)

  /** `summary.json` without its `lastUpdated` stamp. */
  datatype SummaryFile = SummaryFile(
    overall: Summary,
    yesterdayDate: string, yesterday: Rates,
    thisYear: JsNum, thisMonth: JsNum, thisMonthStats: Rates,
    lastYear: JsNum, lastMonth: JsNum, lastMonthStats: Rates,
    dailyHistory: seq<DailyStat>)

  function RatesOf(s: Summary): Rates
  {
    Rates(s.totalRaces, s.topPickHitRate, s.top3HitRate, s.top3IncludedRate)
  }

  /** Scoring a race of the file dated `date`. */
  function ScoreOf(date: string): Race -> Scored
  {
    (race: Race) => Scored(date, race, RaceAccuracy(race.prediction, race.result))
  }

  /** The file's races after the scoring loop. */
  function Scores(day: DayFile): seq<Scored>
  {
    Map(day.races, ScoreOf(day.date))
  }

  /** Whether the day's summary has a finished race. */
  predicate HasFinished(day: DayFile)
  {
    SummaryStats(Scores(day)).finishedRaces > 0
  }

  /** The `dailyStats` entry of a day. */
  function DayStat(day: DayFile): DailyStat
  {
    var s := SummaryStats(Scores(day));
    DailyStat(day.date, s.totalRaces, s.topPickHitRate, s.top3HitRate, s.top3IncludedRate)
  }

  /** `dailyStats`: one entry per day with a finished race, in file order. */
  function DailyStats(days: seq<DayFile>): seq<DailyStat>
  {
    FilterMap(days, HasFinished, DayStat)
  }

  /** `allRaces`: every scored race of every file, in file order. */
  function AllRaces(days: seq<DayFile>): seq<Scored>
  {
    Flatten(Map(days, Scores))
  }

  /** The summary built after the pass, for the clock's today and yesterday. */
  function SummaryAfter(allRaces: seq<Scored>, dailyStats: seq<DailyStat>, today: string, yesterday: string): SummaryFile
  {
    var info := DateInfoOf(today);
    var (lastYear, lastMonth) := LastMonthOf(info.year, info.month);
    SummaryFile(
      SummaryStats(allRaces),
      yesterday, RatesOf(SummaryStats(Filter(allRaces, OnDate(yesterday)))),
      info.year, info.month, RatesOf(SummaryStats(Filter(allRaces, InMonth(info.year, info.month)))),
      lastYear, lastMonth, RatesOf(SummaryStats(Filter(allRaces, InMonth(lastYear, lastMonth)))),
      LastN(dailyStats, 30))
  }

  /** The whole script: no summary when there is no prediction file, otherwise
      the summary over the files read in name order. */
  function SummaryOf(files: seq<string>, read: string -> DayFile, today: string, yesterday: string): Option<SummaryFile>
  {
    var days := Map(PredictionFiles(files), read);
    if days == [] then None
    else Some(SummaryAfter(AllRaces(days), DailyStats(days), today, yesterday))
  }

  /** One more race extends the scored prefix and the count of finished races. */
  lemma ScoreStep(races: seq<Race>, j: nat, date: string)
    requires j < |races|
    ensures Map(races[..j + 1], ScoreOf(date)) == Map(races[..j], ScoreOf(date)) + [ScoreOf(date)(races[j])]
    ensures CountIf(races[..j + 1], (race: Race) => IsFinished(race.result))
         == CountIf(races[..j], (race: Race) => IsFinished(race.result)) + (if IsFinished(races[j].result) then 1 else 0)
  {
    var fin := (race: Race) => IsFinished(race.result);
    assert races[..j + 1][..j] == races[..j];
    assert races[..j + 1] == races[..j] + [races[j]];
    CountIfAppend(races[..j], [races[j]], fin);
  }

  /** The inner loop over one file's races: set each race's accuracy, push
      `{ ...race, date }` to `allRaces`, and count the races with a non-null
      `topPickHit`. */
  method ScoreDay(allRaces: seq<Scored>, data: DayFile) returns (allRaces': seq<Scored>, scored: seq<Scored>, updatedRaces: nat)
    ensures scored == Scores(data)
    ensures allRaces' == allRaces + scored
    ensures updatedRaces == CountIf(data.races, (race: Race) => IsFinished(race.result))
  {
    allRaces' := allRaces;
    scored := [];
    updatedRaces := 0;
    for j := 0 to |data.races|
      invariant scored == Map(data.races[..j], ScoreOf(data.date))
      invariant allRaces' == allRaces + scored
      invariant updatedRaces == CountIf(data.races[..j], (race: Race) => IsFinished(race.result))
    {
      var race := data.races[j];
      var accuracy := RaceAccuracy(race.prediction, race.result);
      RaceAccuracyNull(race.prediction, race.result);
      ScoreStep(data.races, j, data.date);
      var s := Scored(data.date, race, accuracy);
      assert ScoreOf(data.date)(race) == s;
      scored := scored + [s];
      allRaces' := allRaces' + [s];
      if accuracy.topPickHit.Some? {
        updatedRaces := updatedRaces + 1;
      }
    }
    assert data.races[..|data.races|] == data.races;
  }

  /** `calculateAccuracy` over the directory listing `files`, reading each file
      with `read`; returns the summary (None when the script exits for lack
      of files) and the races of each file as written back, in file order. */
  method CalculateAccuracy(files: seq<string>, read: string -> DayFile, today: string, yesterday: string)
    returns (summary: Option<SummaryFile>, written: seq<seq<Scored>>)
    ensures summary == SummaryOf(files, read, today, yesterday)
    ensures written == Map(Map(PredictionFiles(files), read), Scores)
  {
    var predictionFiles := PredictionFiles(files);
    ghost var days := Map(predictionFiles, read);
    if |predictionFiles| == 0 {
      return None, [];
    }
    MapAt(predictionFiles, read);
    var allRaces: seq<Scored> := [];
    var dailyStats: seq<DailyStat> := [];
    written := [];
    for i := 0 to |predictionFiles|
      invariant allRaces == AllRaces(days[..i])
      invariant dailyStats == DailyStats(days[..i])
      invariant written == Map(days[..i], Scores)
    {
      var data := read(predictionFiles[i]);
      assert data == days[i];
      var scored, updatedRaces;
      allRaces, scored, updatedRaces := ScoreDay(allRaces, data);
      DayStep(days, i);
      var dayStats := SummaryStats(scored);
      if dayStats.finishedRaces > 0 {
        dailyStats := dailyStats + [DailyStat(data.date, dayStats.totalRaces, dayStats.topPickHitRate,
                                              dayStats.top3HitRate, dayStats.top3IncludedRate)];
      }
      written := written + [scored];
    }
    assert days[..|predictionFiles|] == days;
    summary := Some(SummaryAfter(allRaces, dailyStats, today, yesterday));
  }

  /** One more file extends the three accumulators by that file's share. */
  lemma DayStep(days: seq<DayFile>, i: nat)
    requires i < |days|
    ensures AllRaces(days[..i + 1]) == AllRaces(days[..i]) + Scores(days[i])
    ensures DailyStats(days[..i + 1]) == DailyStats(days[..i]) + (if HasFinished(days[i]) then [DayStat(days[i])] else [])
    ensures Map(days[..i + 1], Scores) == Map(days[..i], Scores) + [Scores(days[i])]
  {
    var pre := days[..i + 1];
    assert pre[..i] == days[..i];
    assert pre == days[..i] + [days[i]];
    FlattenSnoc(Map(days[..i], Scores), Scores(days[i]));
  }

  // ---------------------------------------------------------------- properties

  /** A file's scored races carry their own records. */
  lemma ScoresConsistent(day: DayFile)
    ensures Consistent(Scores(day))
  {
    var f := ScoreOf(day.date);
    MapAt(day.races, f);
    forall s | s in Scores(day) ensures ScoredRight(s) {
      var k :| 0 <= k < |Scores(day)| && Scores(day)[k] == s;
      assert s == f(day.races[k]);
    }
  }

  /** Every race of the pass carries its own accuracy record. */
  lemma {:induction false} AllRacesConsistent(days: seq<DayFile>)
    ensures Consistent(AllRaces(days))
  {
    if days != [] {
      var n := |days| - 1;
      AllRacesConsistent(days[..n]);
      DayStep(days, n);
      assert days[..n + 1] == days;
      ScoresConsistent(days[n]);
    }
  }

  /** The overall count of finished races is the sum of the files' counts. */
  lemma OverallIsSumOfDays(days: seq<DayFile>)
    ensures SummaryStats(AllRaces(days)).finishedRaces == SumOf(Map(days, Scores), xs => CountIf(xs, Counted))
  {
    CountIfFlatten(Map(days, Scores), Counted);
  }

  /** `dailyStats` holds the record of exactly the days with a finished race. */
  lemma DailyStatsMembers(days: seq<DayFile>)
    ensures forall e :: e in DailyStats(days) <==> exists k :: 0 <= k < |days| && HasFinished(days[k]) && e == DayStat(days[k])
  {
    FilterMapMembers(days, HasFinished, DayStat);
  }

  /** A day's record counts its finished races. */
  lemma DayStatTotal(day: DayFile)
    ensures DayStat(day).totalRaces == SummaryStats(Scores(day)).finishedRaces
  {
  }

  /** The daily history is the last (at most) 30 entries of `dailyStats`, and
      every entry has a finished race. */
  lemma DailyHistorySpec(days: seq<DayFile>)
    ensures |LastN(DailyStats(days), 30)| <= 30
    ensures LastN(DailyStats(days), 30) == DailyStats(days)[|DailyStats(days)| - |LastN(DailyStats(days), 30)|..]
    ensures forall e :: e in LastN(DailyStats(days), 30) ==> e.totalRaces > 0
  {
    var all := DailyStats(days);
    var h := LastN(all, 30);
    DailyStatsMembers(days);
    forall e | e in h ensures e.totalRaces > 0 {
      assert e in all;
      var k :| 0 <= k < |days| && HasFinished(days[k]) && e == DayStat(days[k]);
      DayStatTotal(days[k]);
    }
  }

  /** In every period of the summary there are no more exact-order than
      any-order hits. */
  lemma SummaryPeriodsOrdered(files: seq<string>, read: string -> DayFile, today: string, yesterday: string)
    requires SummaryOf(files, read, today, yesterday).Some?
    ensures var s := SummaryOf(files, read, today, yesterday).value;
      s.overall.top3IncludedHits <= s.overall.top3Hits
      && s.yesterday.top3IncludedRate <= s.yesterday.top3HitRate
      && s.thisMonthStats.top3IncludedRate <= s.thisMonthStats.top3HitRate
      && s.lastMonthStats.top3IncludedRate <= s.lastMonthStats.top3HitRate
  {
    var days := Map(PredictionFiles(files), read);
    var all := AllRaces(days);
    AllRacesConsistent(days);
    SummaryExactAtMostIncluded(all);
    var info := DateInfoOf(today);
    var (ly, lm) := LastMonthOf(info.year, info.month);
    FilterConsistent(all, OnDate(yesterday));
    SummaryExactAtMostIncluded(Filter(all, OnDate(yesterday)));
    FilterConsistent(all, InMonth(info.year, info.month));
    SummaryExactAtMostIncluded(Filter(all, InMonth(info.year, info.month)));
    FilterConsistent(all, InMonth(ly, lm));
    SummaryExactAtMostIncluded(Filter(all, InMonth(ly, lm)));
  }

  /** A period's race count never exceeds the overall count. */
  lemma PeriodAtMostOverall(races: seq<Scored>, p: Scored -> bool)
    ensures SummaryStats(Filter(races, p)).totalRaces <= SummaryStats(races).totalRaces
  {
    CountIfOfFilter(races, p, Counted);
  }
}
