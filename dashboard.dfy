/**
 * src/components/AccuracyDashboard.jsx: what the accuracy panel decides
 * from `summary.json` — whether there is data, the best 3連単 day of this
 * month, and the recent-days table.
 */
module Dashboard {
  import opened Wrappers
  import opened Seqs
  import opened Bets
  import opened CalculateAccuracy

  /** The part of a `dailyHistory` day the panel reads: its date, its race
      count and `actualRecovery?.trio?.recoveryRate`, absent when the day
      has no recovery record. */
  datatype Day = Day(date: string, totalRaces: nat, trioRecovery: Option<real>)

  /** `summary.overall.totalRaces > 0`. */
  predicate HasData(overallTotalRaces: nat)
  {
    overallTotalRaces > 0
  }

  /** On a summary built from the prediction files, there is data exactly
      when some scored race is finished. */
  lemma HasDataIffFinished(files: seq<string>, read: string -> DayFile, today: string, yesterday: string)
    requires SummaryOf(files, read, today, yesterday).Some?
    ensures HasData(SummaryOf(files, read, today, yesterday).value.overall.totalRaces)
      <==> exists s :: s in AllRaces(Map(PredictionFiles(files), read)) && Counted(s)
  {
    var races := AllRaces(Map(PredictionFiles(files), read));
    CountIfPositive(races, Counted);
  }

  lemma {:induction false} CountIfPositive<T>(xs: seq<T>, p: T -> bool)
    ensures CountIf(xs, p) > 0 <==> exists x :: x in xs && p(x)
  {
    if xs != [] {
      CountIfPositive(xs[1..], p);
      assert xs == [xs[0]] + xs[1..];
    }
  }

  /** `current.actualRecovery?.trio?.recoveryRate || 0`. */
  function TrioRate(d: Day): real
  {
    if d.trioRecovery.Some? then d.trioRecovery.value else 0.0
  }

  /** The day's `getDateInfo` year and month are `===` this month's. */
  function InThisMonth(year: JsNum, month: JsNum): Day -> bool
  {
    (d: Day) => StrictEq(DateInfoOf(d.date).year, year) && StrictEq(DateInfoOf(d.date).month, month)
  }

  /** The `reduce` without a seed: keep the running best unless the next day
      is strictly better. */
  function Best(days: seq<Day>): Day
    requires days != []
  {
    if |days| == 1 then days[0]
    else
      var best := Best(days[..|days| - 1]);
      var current := days[|days| - 1];
      if TrioRate(current) > TrioRate(best) then current else best
  }

  /** The best of the history days p selects: null without history or
      without such a day. */
  function BestAmong(history: seq<Day>, p: Day -> bool): Option<Day>
  {
    if history == [] then None
    else
      var days := Filter(history, p);
      if days == [] then None else Some(Best(days))
  }

  /** `bestTrioDay`: the best day of this month. */
  function BestTrioDay(history: seq<Day>, year: JsNum, month: JsNum): Option<Day>
  {
    BestAmong(history, InThisMonth(year, month))
  }

  /** The best day is the first day whose rate is the greatest. */
  lemma {:induction false} BestSpec(days: seq<Day>) returns (k: nat)
    requires days != []
    ensures k < |days| && days[k] == Best(days)
    ensures forall j :: 0 <= j < |days| ==> TrioRate(days[j]) <= TrioRate(Best(days))
    ensures forall j :: 0 <= j < k ==> TrioRate(days[j]) < TrioRate(Best(days))
  {
    if |days| == 1 {
      k := 0;
    } else {
      var n := |days| - 1;
      var init := days[..n];
      var b := BestSpec(init);
      assert forall j :: 0 <= j < n ==> init[j] == days[j];
      if TrioRate(days[n]) > TrioRate(Best(init)) {
        k := n;
      } else {
        k := b;
      }
    }
  }

  /** The best selected day is null exactly when p selects no history day;
      otherwise it is a selected day with the greatest 3連単 recovery among
      them (a missing rate counting as 0), the earliest such day. */
  lemma BestAmongSpec(history: seq<Day>, p: Day -> bool) returns (k: nat)
    ensures BestAmong(history, p).None? <==> forall d :: d in history ==> !p(d)
    ensures BestAmong(history, p).Some? ==>
      var b := BestAmong(history, p).value;
      b in history && p(b) && forall d :: d in history && p(d) ==> TrioRate(d) <= TrioRate(b)
    ensures BestAmong(history, p).Some? ==>
      var days := Filter(history, p);
      k < |days| && days[k] == BestAmong(history, p).value
      && forall j :: 0 <= j < k ==> TrioRate(days[j]) < TrioRate(days[k])
  {
    var days := Filter(history, p);
    FilterMembers(history, p);
    k := 0;
    if days != [] {
      assert history != [];
      k := BestSpec(days);
      assert days[0] in days;
      forall d | d in history && p(d) ensures TrioRate(d) <= TrioRate(Best(days)) {
        var j :| 0 <= j < |days| && days[j] == d;
      }
    } else if history != [] {
      assert forall d :: d in history ==> !p(d);
    }
  }

  /** `bestTrioDay` is null exactly when no history day falls in this
      month's year and month; otherwise it lies in this month and no day of
      this month has a greater 3連単 recovery. */
  lemma BestTrioDaySpec(history: seq<Day>, year: JsNum, month: JsNum)
    ensures BestTrioDay(history, year, month).None? <==> forall d :: d in history ==> !InThisMonth(year, month)(d)
    ensures BestTrioDay(history, year, month).Some? ==>
      var b := BestTrioDay(history, year, month).value;
      b in history && InThisMonth(year, month)(b)
      && forall d :: d in history && InThisMonth(year, month)(d) ==> TrioRate(d) <= TrioRate(b)
  {
    var _ := BestAmongSpec(history, InThisMonth(year, month));
  }

  /** `bestTrioDay && bestTrioDay.actualRecovery?.trio?.recoveryRate > 0`:
      an undefined rate is not greater than 0. */
  predicate ShowsBest(best: Option<Day>)
  {
    best.Some? && best.value.trioRecovery.Some? && best.value.trioRecovery.value > 0.0
  }

  /** The best panel appears exactly when there is a best day whose rate is positive. */
  lemma ShowsBestSpec(best: Option<Day>)
    ensures ShowsBest(best) <==> best.Some? && TrioRate(best.value) > 0.0
  {
  }

  /** `dailyHistory.slice(-7).reverse()`. */
  function Recent(history: seq<Day>): (r: seq<Day>)
    ensures |r| <= 7
  {
    Reverse(LastN(history, 7))
  }

  /** The recent table shows the last seven days, newest first: its i-th row
      is the i-th day from the end; all days when there are fewer. */
  lemma RecentSpec(history: seq<Day>)
    ensures |Recent(history)| == if |history| < 7 then |history| else 7
    ensures forall i :: 0 <= i < |Recent(history)| ==> Recent(history)[i] == history[|history| - 1 - i]
    ensures |Recent(history)| > 0 <==> history != []
  {
    var last := LastN(history, 7);
    forall i | 0 <= i < |Recent(history)| ensures Recent(history)[i] == history[|history| - 1 - i] {
      assert Recent(history)[i] == last[|last| - 1 - i];
      assert last[|last| - 1 - i] == history[|history| - |last| + (|last| - 1 - i)];
    }
  }
}
