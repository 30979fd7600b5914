/**
 * src/components/HitRaces.jsx: the winning races of a day (`extractHitRaces`:
 * filter, per-race hit list and payout total, raceId parsing, sort by payout),
 * the 14-day list, the period choice and the per-venue statistics
 * (`calculateVenueStats`).
 */
module HitRaces {
  import opened Wrappers
  import opened Strings
  import opened Seqs
  import opened Sorting
  import opened Bets
  import opened Grouping
  import Predictions

  // ---------------------------------------------------------------- records

  /** One `{ type, payout }` entry of `hitTypes`. */
  datatype HitType = HitType(kind: string, payout: int)

  /** One entry of the hit-race list. */
  datatype HitRace = HitRace(
    raceId: string, venue: string, raceNumber: Option<int>, date: string,
    placeCode: Option<int>, hitTypes: seq<HitType>, totalPayout: int,
    prediction: Pick, result: Result)

  /** The label pushed for a bet type. */
  function TypeLabel(b: Bet): string
  {
    match b
    case Win => "単勝"
    case Place => "複勝"
    case Trifecta => "3連複"
    case Trio => "3連単"
  }

  // ---------------------------------------------------------------- the filter

  /** The filter: a final result and at least one of the four hits. */
  predicate IsHitRace(race: Race)
  {
    && IsFinished(race.result)
    && (Hit(race.prediction, race.result.value, Win) || Hit(race.prediction, race.result.value, Place)
        || Hit(race.prediction, race.result.value, Trifecta) || Hit(race.prediction, race.result.value, Trio))
  }

  /** A race passes the filter exactly when it is finished and its hit list is non-empty. */
  lemma IsHitRaceIffHits(race: Race)
    ensures IsHitRace(race) <==> IsFinished(race.result) && Hits(race.prediction, race.result.value) != []
  {
    if IsFinished(race.result) {
      HitsEmpty(race.prediction, race.result.value);
    }
  }

  // ---------------------------------------------------------------- one entry

  /** The entry pushed for bet type b: its label and the ticket's payout (0 when missing). */
  function Entry(p: Pick, r: Result, b: Bet): HitType
    requires r.Final?
  {
    HitType(TypeLabel(b), BetPayout(p, r, b))
  }

  /** The entry builder for one prediction and result. */
  function EntryOf(p: Pick, r: Result): Bet -> HitType
    requires r.Final?
  {
    b => Entry(p, r, b)
  }

  /** `hitTypes`: one entry per bet type hit, in the order 単勝, 複勝, 3連複, 3連単. */
  function HitTypesOf(p: Pick, r: Result): seq<HitType>
    requires r.Final?
  {
    Map(Hits(p, r), EntryOf(p, r))
  }

  /** The sum of the entries' payouts. */
  function PayoutSum(ts: seq<HitType>): int
  {
    if ts == [] then 0 else PayoutSum(ts[..|ts| - 1]) + ts[|ts| - 1].payout
  }

  /** `parts[k]`, printed as `undefined` when the id has fewer parts. */
  function Part(parts: seq<string>, k: nat): string
  {
    if k < |parts| then parts[k] else "undefined"
  }

  /** `stadiumNames[parseInt(placeCode)] || `${placeCode}番``. */
  function VenueName(names: map<int, string>, placeCode: string): string
  {
    match JsParseInt(placeCode)
    case Some(c) => if c in names && names[c] != "" then names[c] else placeCode + "番"
    case None => placeCode + "番"
  }

  /** The entry the map step builds for a race that passed the filter. */
  function HitRaceOf(race: Race, names: map<int, string>): HitRace
    requires IsFinished(race.result)
  {
    var r := race.result.value;
    var parts := Split(race.raceId, '-');
    var types := HitTypesOf(race.prediction, r);
    HitRace(race.raceId, VenueName(names, Part(parts, 3)), JsParseInt(Part(parts, 4)),
            Part(parts, 0) + "-" + Part(parts, 1) + "-" + Part(parts, 2),
            JsParseInt(Part(parts, 3)), types, PayoutSum(types), race.prediction, r)
  }

  /** What the push for bet type b adds: its entry when b hits, nothing otherwise. */
  function Push(p: Pick, r: Result, b: Bet): seq<HitType>
    requires r.Final?
  {
    if Hit(p, r, b) then [Entry(p, r, b)] else []
  }

  /** The hit list is the four conditional pushes in turn. */
  lemma HitTypesInSteps(p: Pick, r: Result)
    requires r.Final?
    ensures HitTypesOf(p, r) == Push(p, r, Win) + Push(p, r, Place) + Push(p, r, Trifecta) + Push(p, r, Trio)
  {
    var f := EntryOf(p, r);
    var w := if Hit(p, r, Win) then [Win] else [];
    var pl := if Hit(p, r, Place) then [Place] else [];
    var t := if Hit(p, r, Trifecta) then [Trifecta] else [];
    var o := if Hit(p, r, Trio) then [Trio] else [];
    MapAppend(w + pl + t, o, f);
    MapAppend(w + pl, t, f);
    MapAppend(w, pl, f);
    assert Map(w, f) == Push(p, r, Win);
    assert Map(pl, f) == Push(p, r, Place);
    assert Map(t, f) == Push(p, r, Trifecta);
    assert Map(o, f) == Push(p, r, Trio);
  }

  /** The total of a concatenation adds the totals of its parts. */
  lemma {:induction false} PayoutSumAppend(ts: seq<HitType>, us: seq<HitType>)
    ensures PayoutSum(ts + us) == PayoutSum(ts) + PayoutSum(us)
  {
    if us != [] {
      var vs := ts + us;
      assert vs[..|vs| - 1] == ts + us[..|us| - 1];
      PayoutSumAppend(ts, us[..|us| - 1]);
    } else {
      assert ts + us == ts;
    }
  }

  /** The source's four conditions are the four hits. */
  lemma HitConditions(p: Pick, r: Result)
    requires r.Final?
    ensures Hit(p, r, Win) <==> p.topPick == r.rank1
    ensures Hit(p, r, Place) <==> p.topPick == r.rank1 || p.topPick == r.rank2
    ensures Hit(p, r, Trifecta) <==> r.rank1 in p.top3 && r.rank2 in p.top3 && r.rank3 in p.top3
    ensures Hit(p, r, Trio) <==> At(p.top3, 0, r.rank1) && At(p.top3, 1, r.rank2) && At(p.top3, 2, r.rank3)
  {
  }

  /** One `if (…) { hitTypes.push({ type, payout }); totalPayout += payout; }`. */
  method PushIf(hit: bool, kind: string, payout: int, hitTypes: seq<HitType>, totalPayout: int)
    returns (hitTypes': seq<HitType>, totalPayout': int)
    requires totalPayout == PayoutSum(hitTypes)
    ensures hitTypes' == hitTypes + (if hit then [HitType(kind, payout)] else [])
    ensures totalPayout' == PayoutSum(hitTypes')
  {
    hitTypes' := hitTypes;
    totalPayout' := totalPayout;
    if hit {
      PayoutSumAppend(hitTypes, [HitType(kind, payout)]);
      hitTypes' := hitTypes' + [HitType(kind, payout)];
      totalPayout' := totalPayout' + payout;
    }
  }

  /** A push under the source's condition for bet type b, with b's label and
      payout, adds what `Push` says. */
  lemma PushMatches(p: Pick, r: Result, b: Bet, cond: bool, kind: string)
    requires r.Final?
    requires cond <==> Hit(p, r, b)
    requires kind == TypeLabel(b)
    ensures (if cond then [HitType(kind, BetPayout(p, r, b))] else []) == Push(p, r, b)
  {
  }

  /** The `hitTypes` pushes and the `totalPayout` additions, in the order
      単勝, 複勝, 3連複, 3連単; each payout is the ticket's stored payout, 0 when missing. */
  method HitTypesEntry(p: Pick, r: Result) returns (hitTypes: seq<HitType>, totalPayout: int)
    requires r.Final?
    ensures hitTypes == HitTypesOf(p, r)
    ensures totalPayout == PayoutSum(hitTypes)
  {
    HitConditions(p, r);
    var c1 := p.topPick == r.rank1;
    var c2 := p.topPick == r.rank1 || p.topPick == r.rank2;
    var c3 := r.rank1 in p.top3 && r.rank2 in p.top3 && r.rank3 in p.top3;
    var c4 := At(p.top3, 0, r.rank1) && At(p.top3, 1, r.rank2) && At(p.top3, 2, r.rank3);
    PushMatches(p, r, Win, c1, "単勝");
    PushMatches(p, r, Place, c2, "複勝");
    PushMatches(p, r, Trifecta, c3, "3連複");
    PushMatches(p, r, Trio, c4, "3連単");
    hitTypes, totalPayout := PushIf(c1, "単勝", BetPayout(p, r, Win), [], 0);
    assert hitTypes == Push(p, r, Win);
    hitTypes, totalPayout := PushIf(c2, "複勝", BetPayout(p, r, Place), hitTypes, totalPayout);
    hitTypes, totalPayout := PushIf(c3, "3連複", BetPayout(p, r, Trifecta), hitTypes, totalPayout);
    hitTypes, totalPayout := PushIf(c4, "3連単", BetPayout(p, r, Trio), hitTypes, totalPayout);
    HitTypesInSteps(p, r);
  }

  /** The map step: the hit list and total, the parts of the race id, the venue name. */
  method HitRaceEntry(race: Race, names: map<int, string>) returns (h: HitRace)
    requires IsFinished(race.result)
    ensures h == HitRaceOf(race, names)
  {
    var p := race.prediction;
    var r := race.result.value;
    var hitTypes, totalPayout := HitTypesEntry(p, r);
    var parts := Split(race.raceId, '-');
    var date := Part(parts, 0) + "-" + Part(parts, 1) + "-" + Part(parts, 2);
    var placeCode := Part(parts, 3);
    var raceNo := Part(parts, 4);
    h := HitRace(race.raceId, VenueName(names, placeCode), JsParseInt(raceNo), date,
                 JsParseInt(placeCode), hitTypes, totalPayout, p, r);
  }

  /** The entries name exactly the bet types hit, in the fixed order, each
      with the payout stored under its key; a 単勝 entry comes with a 複勝
      one and a 3連単 entry with a 3連複 one. */
  lemma HitTypesSpec(p: Pick, r: Result)
    requires r.Final?
    ensures |HitTypesOf(p, r)| == |Hits(p, r)|
    ensures forall k :: 0 <= k < |Hits(p, r)| ==>
      HitTypesOf(p, r)[k] == HitType(TypeLabel(Hits(p, r)[k]), BetPayout(p, r, Hits(p, r)[k]))
    ensures forall b :: b in Hits(p, r) <==> Hit(p, r, b)
    ensures forall i, j :: 0 <= i < j < |Hits(p, r)| ==> Rank(Hits(p, r)[i]) < Rank(Hits(p, r)[j])
    ensures Win in Hits(p, r) ==> Place in Hits(p, r)
    ensures Trio in Hits(p, r) ==> Trifecta in Hits(p, r)
  {
    MapAt(Hits(p, r), EntryOf(p, r));
    HitsSpec(p, r);
    if Win in Hits(p, r) {
      WinImpliesPlace(p, r);
    }
    if Trio in Hits(p, r) {
      TrioImpliesTrifecta(p, r);
    }
  }

  // ---------------------------------------------------------------- the list

  /** The map over the races that pass the filter, in order. */
  function Mapped(races: seq<Race>, names: map<int, string>): seq<HitRace>
  {
    FilterMap(races, IsHitRace, (race: Race) requires IsFinished(race.result) => HitRaceOf(race, names))
  }

  /** `(a, b) => b.totalPayout - a.totalPayout`: the larger payout first. */
  predicate PayoutFirst(a: HitRace, b: HitRace)
  {
    a.totalPayout > b.totalPayout
  }

  function TotalPayout(h: HitRace): int
  {
    h.totalPayout
  }

  /** extractHitRaces. */
  function Extracted(races: seq<Race>, names: map<int, string>): seq<HitRace>
  {
    Sort(Mapped(races, names), PayoutFirst)
  }

  method ExtractHitRaces(predictions: seq<Race>, names: map<int, string>) returns (hits: seq<HitRace>)
    ensures hits == Extracted(predictions, names)
  {
    var mapped: seq<HitRace> := [];
    for i := 0 to |predictions|
      invariant mapped == Mapped(predictions[..i], names)
    {
      assert predictions[..i + 1][..i] == predictions[..i];
      if IsHitRace(predictions[i]) {
        var h := HitRaceEntry(predictions[i], names);
        mapped := mapped + [h];
      }
    }
    assert predictions[..|predictions|] == predictions;
    hits := Sort(mapped, PayoutFirst);
  }

  /** The mapped entries are exactly those of the races passing the filter. */
  lemma MappedMembers(races: seq<Race>, names: map<int, string>)
    ensures forall h :: h in Mapped(races, names) <==>
      exists k :: 0 <= k < |races| && IsHitRace(races[k]) && h == HitRaceOf(races[k], names)
  {
    FilterMapMembers(races, IsHitRace, (race: Race) requires IsFinished(race.result) => HitRaceOf(race, names));
  }

  /** The list holds an entry for every race that is finished and hit and for
      no other, each with a non-empty hit list, ordered by total payout from
      the largest, equal totals kept in file order. */
  lemma ExtractedSpec(races: seq<Race>, names: map<int, string>, z: HitRace)
    ensures forall h :: h in Extracted(races, names) <==>
      exists k :: 0 <= k < |races| && IsHitRace(races[k]) && h == HitRaceOf(races[k], names)
    ensures forall h :: h in Extracted(races, names) ==> h.hitTypes != []
    ensures forall i, j :: 0 <= i < j < |Extracted(races, names)| ==>
      Extracted(races, names)[i].totalPayout >= Extracted(races, names)[j].totalPayout
    ensures Filter(Extracted(races, names), y => Equiv(PayoutFirst, y, z))
         == Filter(Mapped(races, names), y => Equiv(PayoutFirst, y, z))
  {
    var m := Mapped(races, names);
    var e := Extracted(races, names);
    MappedMembers(races, names);
    forall h ensures h in e <==> h in m {
      assert h in e <==> h in multiset(e);
    }
    forall h | h in e ensures h.hitTypes != [] {
      var k :| 0 <= k < |races| && IsHitRace(races[k]) && h == HitRaceOf(races[k], names);
      IsHitRaceIffHits(races[k]);
    }
    KeyDescIsStrictWeak(PayoutFirst, TotalPayout);
    SortSorted(m, PayoutFirst);
    SortStable(m, z, PayoutFirst);
  }

  /** The 14-day list: each day's list after the previous ones. */
  function AllDays(days: seq<seq<Race>>, names: map<int, string>): seq<HitRace>
  {
    if days == [] then [] else AllDays(days[..|days| - 1], names) + Extracted(days[|days| - 1], names)
  }

  method AllHitRaces(days: seq<seq<Race>>, names: map<int, string>) returns (all: seq<HitRace>)
    ensures all == AllDays(days, names)
  {
    all := [];
    for i := 0 to |days|
      invariant all == AllDays(days[..i], names)
    {
      assert days[..i + 1][..i] == days[..i];
      var hits := ExtractHitRaces(days[i], names);
      all := all + hits;
    }
    assert days[..|days|] == days;
  }

  // ---------------------------------------------------------------- raceId

  lemma PadNoDash(n: nat)
    ensures '-' !in Predictions.Pad2(n)
  {
    NatToStringHasNoDash(n);
    var s := NatToString(n);
    if |s| < 2 {
      assert Predictions.Pad2(n) == "0" + s;
    }
  }

  /** Splitting a race id built from a `YYYY-MM-DD` date yields the three date
      parts, then the padded venue code and race number. */
  lemma RaceIdSplits(y: string, m: string, d: string, venueCode: nat, raceNo: nat)
    requires '-' !in y && '-' !in m && '-' !in d
    ensures var parts := Split(Predictions.RaceId(y + "-" + m + "-" + d, venueCode, raceNo), '-');
      |parts| == 5 && parts[0] == y && parts[1] == m && parts[2] == d
      && parts[3] == Predictions.Pad2(venueCode) && parts[4] == Predictions.Pad2(raceNo)
  {
    PadNoDash(venueCode);
    PadNoDash(raceNo);
    SplitFive(y, m, d, Predictions.Pad2(venueCode), Predictions.Pad2(raceNo));
  }

  /** The entry of a race whose id was built by generate-predictions gives
      back the date, the venue code and the race number, and names the venue
      by the code (falling back to the padded code and 番). */
  lemma RaceIdRoundTrip(race: Race, names: map<int, string>, y: string, m: string, d: string, venueCode: nat, raceNo: nat)
    requires IsFinished(race.result)
    requires '-' !in y && '-' !in m && '-' !in d
    requires race.raceId == Predictions.RaceId(y + "-" + m + "-" + d, venueCode, raceNo)
    ensures HitRaceOf(race, names).date == y + "-" + m + "-" + d
    ensures HitRaceOf(race, names).placeCode == Some(venueCode)
    ensures HitRaceOf(race, names).raceNumber == Some(raceNo)
    ensures HitRaceOf(race, names).venue ==
      if venueCode in names && names[venueCode] != "" then names[venueCode]
      else Predictions.Pad2(venueCode) + "番"
  {
    RaceIdSplits(y, m, d, venueCode, raceNo);
    ParseIntOfPadded(venueCode);
    ParseIntOfPadded(raceNo);
  }

  // ---------------------------------------------------------------- periods

  /** `selectedPeriod`: today's or yesterday's list, the 14-day list otherwise. */
  function SelectPeriod(period: string, today: seq<HitRace>, yesterday: seq<HitRace>, all: seq<HitRace>)
    : (r: seq<HitRace>)
    ensures period == "today" ==> r == today
    ensures period == "yesterday" ==> r == yesterday
    ensures period != "today" && period != "yesterday" ==> r == all
  {
    if period == "today" then today else if period == "yesterday" then yesterday else all
  }

  /** The list of the first i days is a prefix of the list of all days. */
  lemma {:induction false} AllDaysPrefix(days: seq<seq<Race>>, i: nat, names: map<int, string>)
    returns (rest: seq<HitRace>)
    requires i <= |days|
    ensures AllDays(days, names) == AllDays(days[..i], names) + rest
  {
    if i == |days| {
      assert days[..i] == days;
      rest := [];
    } else {
      var n := |days|;
      var r := AllDaysPrefix(days[..n - 1], i, names);
      assert days[..n - 1][..i] == days[..i];
      var a := AllDays(days[..i], names);
      var e := Extracted(days[n - 1], names);
      assert AllDays(days, names) == AllDays(days[..n - 1], names) + e;
      AppendAssoc(a, r, e);
      rest := r + e;
    }
  }

  lemma OneDay(d: seq<Race>, names: map<int, string>)
    ensures AllDays([d], names) == Extracted(d, names)
  {
    assert [d][..0] == [];
  }

  lemma TwoDays(d0: seq<Race>, d1: seq<Race>, names: map<int, string>)
    ensures AllDays([d0, d1], names) == Extracted(d0, names) + Extracted(d1, names)
  {
    assert [d0, d1][..1] == [d0];
    OneDay(d0, names);
  }

  /** The 14-day list starts with the lists of its first two days. */
  lemma FirstTwoDays(days: seq<seq<Race>>, names: map<int, string>) returns (rest: seq<HitRace>)
    requires |days| >= 2
    ensures AllDays(days, names) == Extracted(days[0], names) + Extracted(days[1], names) + rest
  {
    rest := AllDaysPrefix(days, 2, names);
    TakeTwo(days);
    TwoDays(days[0], days[1], names);
  }

  lemma TakeTwo<T>(s: seq<T>)
    requires |s| >= 2
    ensures s[..2] == [s[0], s[1]]
  {
  }

  /** The 14-day loop starts with today (i = 0) and yesterday (i = 1), so
      whichever period is selected, its hit races are among the 14-day list,
      and today's and yesterday's together occur in it at least as often. */
  lemma PeriodWithinAll(period: string, days: seq<seq<Race>>, names: map<int, string>)
    requires |days| >= 2
    ensures var today := Extracted(days[0], names);
      var yesterday := Extracted(days[1], names);
      var all := AllDays(days, names);
      && multiset(today) + multiset(yesterday) <= multiset(all)
      && forall h :: h in SelectPeriod(period, today, yesterday, all) ==> h in all
  {
    var rest := FirstTwoDays(days, names);
    var today := Extracted(days[0], names);
    var yesterday := Extracted(days[1], names);
    ThreeParts(AllDays(days, names), today, yesterday, rest);
  }

  /** A list made of three parts holds each of the first two. */
  lemma ThreeParts<T>(all: seq<T>, a: seq<T>, b: seq<T>, c: seq<T>)
    requires all == a + b + c
    ensures multiset(a) + multiset(b) <= multiset(all)
    ensures forall x :: x in a || x in b ==> x in all
  {
    assert multiset(all) == multiset(a) + multiset(b) + multiset(c);
  }

  // ---------------------------------------------------------------- venue stats

  /** One entry of the per-venue statistics. */
  datatype VenueStat = VenueStat(venue: string, hitCount: nat, totalPayout: int)

  function VenueOfHit(h: HitRace): string
  {
    h.venue
  }

  function StatVenue(s: VenueStat): string
  {
    s.venue
  }

  function HitCount(s: VenueStat): int
  {
    s.hitCount
  }

  /** The sum of the races' payout totals. */
  function PayoutTotal(hs: seq<HitRace>): int
  {
    if hs == [] then 0 else PayoutTotal(hs[..|hs| - 1]) + hs[|hs| - 1].totalPayout
  }

  /** The statistics of one venue's group. */
  function StatOf(g: Group<string, HitRace>): VenueStat
  {
    VenueStat(g.key, |g.members|, PayoutTotal(g.members))
  }

  function StatsOfGroups(gs: seq<Group<string, HitRace>>): (ss: seq<VenueStat>)
    ensures |ss| == |gs| && forall k :: 0 <= k < |gs| ==> ss[k] == StatOf(gs[k])
  {
    seq(|gs|, k requires 0 <= k < |gs| => StatOf(gs[k]))
  }

  /** `Object.values(venueStats)`: one entry per venue in first-appearance order. */
  function Stats(hits: seq<HitRace>): seq<VenueStat>
  {
    StatsOfGroups(GroupBy(hits, VenueOfHit))
  }

  /** `(a, b) => b.hitCount - a.hitCount`. */
  predicate CountFirst(a: VenueStat, b: VenueStat)
  {
    a.hitCount > b.hitCount
  }

  /** calculateVenueStats over a list of hit races. */
  function VenueStatsOf(hits: seq<HitRace>): seq<VenueStat>
  {
    Sort(Stats(hits), CountFirst)
  }

  /** The counters are found where the groups are. */
  lemma StatsFind(gs: seq<Group<string, HitRace>>, v: string)
    ensures Find(StatsOfGroups(gs), v, StatVenue) == Find(gs, v, KeyOf())
  {
    FindSameKeys(StatsOfGroups(gs), gs, v, StatVenue, KeyOf());
  }

  /** Filing the first race of a venue starts its counters at one race. */
  lemma StatsStepNew(gs: seq<Group<string, HitRace>>, x: HitRace)
    requires Find(gs, x.venue, KeyOf()).None?
    ensures StatsOfGroups(AddTo(gs, x, VenueOfHit)) == StatsOfGroups(gs) + [VenueStat(x.venue, 1, x.totalPayout)]
  {
    assert [x][..0] == [];
    assert PayoutTotal([x]) == x.totalPayout;
    assert AddTo(gs, x, VenueOfHit) == gs + [Group(x.venue, [x])];
  }

  /** Filing a further race of a venue adds one race and its payout. */
  lemma StatsStepExisting(gs: seq<Group<string, HitRace>>, x: HitRace, j: nat)
    requires Find(gs, x.venue, KeyOf()) == Some(j)
    ensures StatsOfGroups(AddTo(gs, x, VenueOfHit)) ==
      StatsOfGroups(gs)[j := VenueStat(x.venue, StatsOfGroups(gs)[j].hitCount + 1,
                                       StatsOfGroups(gs)[j].totalPayout + x.totalPayout)]
  {
    var ms := gs[j].members;
    assert (ms + [x])[..|ms|] == ms;
    assert AddTo(gs, x, VenueOfHit) == gs[j := Group(x.venue, ms + [x])];
  }

  /** The `forEach`: creates a venue's counters on its first race, then
      counts the race and adds its payout total. */
  method Tally(hitRaces: seq<HitRace>) returns (venueStats: seq<VenueStat>)
    ensures venueStats == Stats(hitRaces)
  {
    venueStats := [];
    for i := 0 to |hitRaces|
      invariant venueStats == Stats(hitRaces[..i])
    {
      assert hitRaces[..i + 1] == hitRaces[..i] + [hitRaces[i]];
      venueStats := TallyRace(hitRaces[..i], hitRaces[i], venueStats);
    }
    assert hitRaces[..|hitRaces|] == hitRaces;
  }

  /** One call of the `forEach` callback: the counters of the races seen so
      far become those of the races seen and this one. */
  method TallyRace(seen: seq<HitRace>, race: HitRace, venueStats: seq<VenueStat>) returns (next: seq<VenueStat>)
    requires venueStats == Stats(seen)
    ensures next == Stats(seen + [race])
  {
    assert (seen + [race])[..|seen|] == seen;
    var gs := GroupBy(seen, VenueOfHit);
    assert Stats(seen + [race]) == StatsOfGroups(AddTo(gs, race, VenueOfHit));
    StatsFind(gs, race.venue);
    var j: nat;
    next := venueStats;
    match Find(venueStats, race.venue, StatVenue) {
      case None =>
        StatsStepNew(gs, race);
        next := next + [VenueStat(race.venue, 0, 0)];
        j := |next| - 1;
      case Some(k) =>
        StatsStepExisting(gs, race, k);
        j := k;
    }
    next := next[j := VenueStat(race.venue, next[j].hitCount + 1, next[j].totalPayout + race.totalPayout)];
  }

  /** calculateVenueStats: the list of the selected period, tallied by venue
      and sorted by hit count from the largest. */
  method CalculateVenueStats(period: string, today: seq<HitRace>, yesterday: seq<HitRace>, all: seq<HitRace>)
    returns (stats: seq<VenueStat>)
    ensures stats == VenueStatsOf(SelectPeriod(period, today, yesterday, all))
  {
    var hitRaces: seq<HitRace>;
    if period == "today" {
      hitRaces := today;
    } else if period == "yesterday" {
      hitRaces := yesterday;
    } else {
      hitRaces := all;
    }
    var venueStats := Tally(hitRaces);
    stats := Sort(venueStats, CountFirst);
  }

  function SumCounts(ss: seq<VenueStat>): int
  {
    SumOf(ss, HitCount)
  }

  lemma {:induction false} SumOfSnoc<T>(xs: seq<T>, x: T, f: T -> int)
    ensures SumOf(xs + [x], f) == SumOf(xs, f) + f(x)
  {
    if xs == [] {
      assert [x][1..] == [];
    } else {
      assert (xs + [x])[1..] == xs[1..] + [x];
      SumOfSnoc(xs[1..], x, f);
    }
  }

  lemma {:induction false} CountsAreMembers(gs: seq<Group<string, HitRace>>)
    ensures SumCounts(StatsOfGroups(gs)) == TotalMembers(gs)
  {
    if gs != [] {
      var n := |gs| - 1;
      CountsAreMembers(gs[..n]);
      assert StatsOfGroups(gs) == StatsOfGroups(gs[..n]) + [StatOf(gs[n])];
      SumOfSnoc(StatsOfGroups(gs[..n]), StatOf(gs[n]), HitCount);
    }
  }

  /** The venues' hit counts add up to the number of hit races. */
  lemma VenueStatsTotal(hits: seq<HitRace>)
    ensures SumCounts(VenueStatsOf(hits)) == |hits|
  {
    SortSumOf(Stats(hits), CountFirst, HitCount);
    CountsAreMembers(GroupBy(hits, VenueOfHit));
    GroupByTotal(hits, VenueOfHit);
  }

  /** Each venue appears once, with the number of its hit races and the sum of
      their payout totals; every venue of the list has an entry. */
  lemma VenueStatsPerVenue(hits: seq<HitRace>)
    ensures DistinctBy(VenueStatsOf(hits), StatVenue)
    ensures forall s :: s in VenueStatsOf(hits) ==>
      s.hitCount == |Filter(hits, HasKey(VenueOfHit, s.venue))|
      && s.totalPayout == PayoutTotal(Filter(hits, HasKey(VenueOfHit, s.venue)))
    ensures forall h :: h in hits ==> exists s :: s in VenueStatsOf(hits) && s.venue == h.venue
  {
    var gs := GroupBy(hits, VenueOfHit);
    var ss := Stats(hits);
    GroupBySpec(hits, VenueOfHit);
    SortKeepsDistinct(ss, CountFirst, StatVenue);
    forall s | s in VenueStatsOf(hits) ensures
      s.hitCount == |Filter(hits, HasKey(VenueOfHit, s.venue))|
      && s.totalPayout == PayoutTotal(Filter(hits, HasKey(VenueOfHit, s.venue)))
    {
      assert s in multiset(ss);
      var k :| 0 <= k < |ss| && ss[k] == s;
    }
    forall h | h in hits ensures exists s :: s in VenueStatsOf(hits) && s.venue == h.venue {
      var i :| 0 <= i < |hits| && hits[i] == h;
      var k := Find(gs, VenueOfHit(hits[i]), KeyOf()).value;
      assert ss[k] in multiset(VenueStatsOf(hits));
    }
  }

  /** Venues come by hit count from the largest; equal counts keep the order
      in which the venues first appear. */
  lemma VenueStatsOrder(hits: seq<HitRace>, z: VenueStat)
    ensures forall i, j :: 0 <= i < j < |VenueStatsOf(hits)| ==>
      VenueStatsOf(hits)[i].hitCount >= VenueStatsOf(hits)[j].hitCount
    ensures Filter(VenueStatsOf(hits), y => Equiv(CountFirst, y, z)) == Filter(Stats(hits), y => Equiv(CountFirst, y, z))
    ensures FirstSeenOrder(GroupBy(hits, VenueOfHit), hits, VenueOfHit)
  {
    KeyDescIsStrictWeak(CountFirst, HitCount);
    SortSorted(Stats(hits), CountFirst);
    SortStable(Stats(hits), z, CountFirst);
    GroupByOrder(hits, VenueOfHit);
  }
}
