/**
 * src/pages/RaceDetail.jsx: the per-venue grouping of a day's races, the
 * model-key mapping of the model switch, the hit badges of a race card, the
 * per-model comparison table and the recovery-rate colour.
 */
module RaceDetail {
  import opened Wrappers
  import opened Seqs
  import opened Sorting
  import opened Bets
  import opened Grouping

  // ---------------------------------------------------------------- colour

  /** The three colours of a recovery rate. */
  datatype Colour = Green | Amber | Red {
    /** The CSS colour. */
    function Css(): string
    {
      match this
      case Green => "#10b981"
      case Amber => "#f59e0b"
      case Red => "#ef4444"
    }

    /** How good the colour says the rate is: 2 for green, 0 for red. */
    function Level(): nat
    {
      match this
      case Green => 2
      case Amber => 1
      case Red => 0
    }
  }

  /** `getRecoveryColor`: green from 100 %, amber from 90 %, red below. */
  function RecoveryColour(rate: real): (c: Colour)
    ensures c == Green <==> rate >= 1.0
    ensures c == Red <==> rate < 0.9
  {
    if rate >= 1.0 then Green else if rate >= 0.9 then Amber else Red
  }

  /** A higher recovery rate never gets a worse colour. */
  lemma RecoveryColourMonotone(a: real, b: real)
    requires a <= b
    ensures RecoveryColour(a).Level() <= RecoveryColour(b).Level()
  {
  }

  // ---------------------------------------------------------------- models

  /** The three models in table order. */
  const Models: seq<ModelKey> := [Standard, SafeBet, UpsetFocus]

  /** The display name of a model. */
  function ModelName(k: ModelKey): string
  {
    match k
    case Standard => "スタンダード"
    case SafeBet => "本命狙い"
    case UpsetFocus => "穴狙い"
  }

  /** The value the model switch stores for each model. */
  function Slug(k: ModelKey): string
  {
    match k
    case Standard => "standard"
    case SafeBet => "safe-bet"
    case UpsetFocus => "upset-focus"
  }

  /** `model === 'safe-bet' ? 'safeBet' : model === 'upset-focus' ? 'upsetFocus' : 'standard'`. */
  function ModelKeyOf(model: string): (k: ModelKey)
    ensures k == SafeBet <==> model == "safe-bet"
    ensures k == UpsetFocus <==> model == "upset-focus"
    ensures k == Standard <==> model != "safe-bet" && model != "upset-focus"
  {
    if model == "safe-bet" then SafeBet
    else if model == "upset-focus" then UpsetFocus
    else Standard
  }

  /** Switching to a model and reading the key back gives that model. */
  lemma ModelKeyOfSlug(k: ModelKey)
    ensures ModelKeyOf(Slug(k)) == k
  {
  }

  // ---------------------------------------------------------------- badges

  /** The short badge label of a bet type. */
  function Label(b: Bet): string
  {
    match b
    case Win => "単"
    case Place => "複"
    case Trifecta => "3複"
    case Trio => "3単"
  }

  /** The hit badges of a race card for the selected model: none unless the
      race is finished and has a prediction for that model. */
  function Badges(race: Race, model: string): seq<Bet>
  {
    var k := ModelKeyOf(model);
    if IsFinished(race.result) && k in race.predictions then Hits(race.predictions[k], race.result.value)
    else []
  }

  /** A badge is shown exactly for a bet type the selected model's prediction
      hits on a finished race, in the order 単, 複, 3複, 3単. */
  lemma BadgesSpec(race: Race, model: string)
    ensures forall b :: b in Badges(race, model) <==>
      IsFinished(race.result) && ModelKeyOf(model) in race.predictions
      && Hit(race.predictions[ModelKeyOf(model)], race.result.value, b)
    ensures forall i, j :: 0 <= i < j < |Badges(race, model)| ==>
      Rank(Badges(race, model)[i]) < Rank(Badges(race, model)[j])
  {
    var k := ModelKeyOf(model);
    if IsFinished(race.result) && k in race.predictions {
      HitsSpec(race.predictions[k], race.result.value);
    }
  }

  // ---------------------------------------------------------------- comparison

  /** `races.filter(r => r.result?.finished)`. */
  function Finished(races: seq<Race>): seq<Race>
  {
    Filter(races, (r: Race) => IsFinished(r.result))
  }

  /** The race is finished, has a prediction for the model, and that prediction hits the bet. */
  predicate Scores(race: Race, model: ModelKey, bet: Bet)
  {
    IsFinished(race.result) && model in race.predictions
    && Hit(race.predictions[model], race.result.value, bet)
  }

  /** The number of races on which the model hits the bet. */
  function HitCount(races: seq<Race>, model: ModelKey, bet: Bet): nat
  {
    if races == [] then 0
    else HitCount(races[..|races| - 1], model, bet) + Gain(races[|races| - 1], model, bet)
  }

  /** The total payout of the model's hits on the bet, a missing payout
      counting as 0 (`payout || 0`, and equally `if (payout) total += payout`). */
  function PayoutTotal(races: seq<Race>, model: ModelKey, bet: Bet): int
  {
    if races == [] then 0
    else
      var race := races[|races| - 1];
      PayoutTotal(races[..|races| - 1], model, bet)
      + Pay(race, model, bet)
  }

  /** The eight counters of the comparison loop. */
  datatype Tally = Tally(
    winHits: nat, placeHits: nat, trifectaHits: nat, trioHits: nat,
    winPayouts: int, placePayouts: int, trifectaPayouts: int, trioPayouts: int)
  {
    function HitsOf(bet: Bet): nat
    {
      match bet
      case Win => winHits
      case Place => placeHits
      case Trifecta => trifectaHits
      case Trio => trioHits
    }

    function PayoutsOf(bet: Bet): int
    {
      match bet
      case Win => winPayouts
      case Place => placePayouts
      case Trifecta => trifectaPayouts
      case Trio => trioPayouts
    }
  }

  /** The counters agree with the hit counts and payout totals over races. */
  ghost predicate Counts(t: Tally, races: seq<Race>, model: ModelKey)
  {
    forall bet :: t.HitsOf(bet) == HitCount(races, model, bet) && t.PayoutsOf(bet) == PayoutTotal(races, model, bet)
  }

  /** What one race adds to the hit counter of a bet. */
  function Gain(race: Race, model: ModelKey, bet: Bet): nat
  {
    if Scores(race, model, bet) then 1 else 0
  }

  /** What one race adds to the payout counter of a bet. */
  function Pay(race: Race, model: ModelKey, bet: Bet): int
  {
    if Scores(race, model, bet) then BetPayout(race.predictions[model], race.result.value, bet) else 0
  }

  /** u is t with one race's contributions added. */
  predicate Stepped(t: Tally, u: Tally, race: Race, model: ModelKey)
  {
    u.winHits == t.winHits + Gain(race, model, Win)
    && u.placeHits == t.placeHits + Gain(race, model, Place)
    && u.trifectaHits == t.trifectaHits + Gain(race, model, Trifecta)
    && u.trioHits == t.trioHits + Gain(race, model, Trio)
    && u.winPayouts == t.winPayouts + Pay(race, model, Win)
    && u.placePayouts == t.placePayouts + Pay(race, model, Place)
    && u.trifectaPayouts == t.trifectaPayouts + Pay(race, model, Trifecta)
    && u.trioPayouts == t.trioPayouts + Pay(race, model, Trio)
  }

  /** Adding one race's contributions keeps the counters in step with the races seen. */
  lemma CountsStep(t: Tally, u: Tally, races: seq<Race>, race: Race, model: ModelKey)
    requires Counts(t, races, model) && Stepped(t, u, race, model)
    ensures Counts(u, races + [race], model)
  {
    var rs := races + [race];
    assert rs[..|rs| - 1] == races && rs[|rs| - 1] == race;
    forall bet
      ensures u.HitsOf(bet) == HitCount(rs, model, bet) && u.PayoutsOf(bet) == PayoutTotal(rs, model, bet)
    {
      match bet
      case Win =>
      case Place =>
      case Trifecta =>
      case Trio =>
    }
  }

  /** The body of the `forEach`: one finished race's contribution to the counters. */
  method CountRace(t: Tally, race: Race, model: ModelKey) returns (u: Tally)
    requires IsFinished(race.result)
    ensures u.winHits == t.winHits + Gain(race, model, Win)
    ensures u.placeHits == t.placeHits + Gain(race, model, Place)
    ensures u.trifectaHits == t.trifectaHits + Gain(race, model, Trifecta)
    ensures u.trioHits == t.trioHits + Gain(race, model, Trio)
    ensures u.winPayouts == t.winPayouts + Pay(race, model, Win)
    ensures u.placePayouts == t.placePayouts + Pay(race, model, Place)
    ensures u.trifectaPayouts == t.trifectaPayouts + Pay(race, model, Trifecta)
    ensures u.trioPayouts == t.trioPayouts + Pay(race, model, Trio)
  {
    if model !in race.predictions {
      return t;
    }
    var p := race.predictions[model];
    var r := race.result.value;
    var win := p.topPick == r.rank1;
    var place := p.topPick == r.rank1 || p.topPick == r.rank2;
    var trifecta := r.rank1 in p.top3 && r.rank2 in p.top3 && r.rank3 in p.top3;
    var trio := At(p.top3, 0, r.rank1) && At(p.top3, 1, r.rank2) && At(p.top3, 2, r.rank3);
    assert win == Hit(p, r, Win) && place == Hit(p, r, Place);
    assert trifecta == Hit(p, r, Trifecta) && trio == Hit(p, r, Trio);
    u := Tally(
      t.winHits + (if win then 1 else 0),
      t.placeHits + (if place then 1 else 0),
      t.trifectaHits + (if trifecta then 1 else 0),
      t.trioHits + (if trio then 1 else 0),
      t.winPayouts + (if win then BetPayout(p, r, Win) else 0),
      t.placePayouts + (if place then BetPayout(p, r, Place) else 0),
      t.trifectaPayouts + (if trifecta then BetPayout(p, r, Trifecta) else 0),
      t.trioPayouts + (if trio then BetPayout(p, r, Trio) else 0));
  }

  /** The counter loop over the finished races for one model. */
  method CountModel(finished: seq<Race>, model: ModelKey) returns (t: Tally)
    requires forall i :: 0 <= i < |finished| ==> IsFinished(finished[i].result)
    ensures forall bet :: t.HitsOf(bet) == HitCount(finished, model, bet)
    ensures forall bet :: t.PayoutsOf(bet) == PayoutTotal(finished, model, bet)
  {
    t := Tally(0, 0, 0, 0, 0, 0, 0, 0);
    for i := 0 to |finished|
      invariant Counts(t, finished[..i], model)
    {
      var u := CountRace(t, finished[i], model);
      CountsStep(t, u, finished[..i], finished[i], model);
      assert finished[..i] + [finished[i]] == finished[..i + 1];
      t := u;
    }
    assert finished[..|finished|] == finished;
  }

  /** A hit rate: hits per finished race, 0 when there are none. */
  function Rate(hits: int, races: nat): real
  {
    if races > 0 then hits as real / races as real else 0.0
  }

  /** A recovery rate: payouts on a 100-yen stake per finished race, 0 when there are none. */
  function Recovery(payouts: int, races: nat): real
  {
    if races > 0 then (payouts as real / 100.0) / races as real else 0.0
  }

  /** One row of the comparison table. */
  datatype Row = Row(
    key: ModelKey, name: string, races: nat,
    winHitRate: real, winRecoveryRate: real,
    placeHitRate: real, placeRecoveryRate: real,
    trifectaHitRate: real, trifectaRecoveryRate: real,
    trioHitRate: real, trioRecoveryRate: real)
  {
    function HitRate(bet: Bet): real
    {
      match bet
      case Win => winHitRate
      case Place => placeHitRate
      case Trifecta => trifectaHitRate
      case Trio => trioHitRate
    }

    function RecoveryRate(bet: Bet): real
    {
      match bet
      case Win => winRecoveryRate
      case Place => placeRecoveryRate
      case Trifecta => trifectaRecoveryRate
      case Trio => trioRecoveryRate
    }
  }

  /** The row built from a model's counters over n finished races. */
  function RowOf(model: ModelKey, t: Tally, n: nat): (row: Row)
    ensures row.key == model && row.name == ModelName(model) && row.races == n
    ensures forall bet :: row.HitRate(bet) == Rate(t.HitsOf(bet), n) && row.RecoveryRate(bet) == Recovery(t.PayoutsOf(bet), n)
  {
    Row(model, ModelName(model), n,
      Rate(t.winHits, n), Recovery(t.winPayouts, n),
      Rate(t.placeHits, n), Recovery(t.placePayouts, n),
      Rate(t.trifectaHits, n), Recovery(t.trifectaPayouts, n),
      Rate(t.trioHits, n), Recovery(t.trioPayouts, n))
  }

  /** What the row of a model over a day's races says, bet by bet. */
  ghost predicate RowReports(row: Row, model: ModelKey, races: seq<Race>)
  {
    var finished := Finished(races);
    row.key == model && row.name == ModelName(model) && row.races == |finished|
    && forall bet ::
      row.HitRate(bet) == Rate(HitCount(finished, model, bet), |finished|)
      && row.RecoveryRate(bet) == Recovery(PayoutTotal(finished, model, bet), |finished|)
  }

  lemma FinishedAreFinished(races: seq<Race>)
    ensures forall i :: 0 <= i < |Finished(races)| ==> IsFinished(Finished(races)[i].result)
  {
    FilterMembers(races, (r: Race) => IsFinished(r.result));
    forall i | 0 <= i < |Finished(races)| ensures IsFinished(Finished(races)[i].result) {
      assert Finished(races)[i] in Finished(races);
    }
  }

  /** The rows for the three models over a day's races. */
  method ComparisonRows(races: seq<Race>) returns (rows: seq<Row>)
    ensures |rows| == 3
    ensures forall i :: 0 <= i < 3 ==> RowReports(rows[i], Models[i], races)
  {
    var finished := Finished(races);
    FinishedAreFinished(races);
    rows := [];
    for m := 0 to 3
      invariant |rows| == m
      invariant forall i :: 0 <= i < m ==> RowReports(rows[i], Models[i], races)
    {
      var t := CountModel(finished, Models[m]);
      rows := rows + [RowOf(Models[m], t, |finished|)];
    }
  }

  /** `getModelComparison`: no table without race data, else one row per model. */
  method ModelComparison(races: Option<seq<Race>>) returns (table: Option<seq<Row>>)
    ensures table.None? <==> races.None?
    ensures table.Some? ==> |table.value| == 3
    ensures table.Some? ==> forall i :: 0 <= i < 3 ==> RowReports(table.value[i], Models[i], races.value)
  {
    if races.None? {
      return None;
    }
    var rows := ComparisonRows(races.value);
    table := Some(rows);
  }

  // ---------------------------------------------------------------- counting lemmas

  /** No bet hits more often than there are races. */
  lemma {:induction false} HitCountAtMostRaces(races: seq<Race>, model: ModelKey, bet: Bet)
    ensures HitCount(races, model, bet) <= |races|
  {
    if races != [] {
      HitCountAtMostRaces(races[..|races| - 1], model, bet);
    }
  }

  /** Counting one bet never exceeds counting a bet it implies. */
  lemma {:induction false} HitCountMono(races: seq<Race>, model: ModelKey, a: Bet, b: Bet)
    requires forall p, r :: Hit(p, r, a) ==> Hit(p, r, b)
    ensures HitCount(races, model, a) <= HitCount(races, model, b)
  {
    if races != [] {
      HitCountMono(races[..|races| - 1], model, a, b);
    }
  }

  /** Every win is a place, so `winHits <= placeHits`. */
  lemma WinHitsAtMostPlaceHits(races: seq<Race>, model: ModelKey)
    ensures HitCount(races, model, Win) <= HitCount(races, model, Place)
  {
    forall p, r | Hit(p, r, Win) ensures Hit(p, r, Place) {
      WinImpliesPlace(p, r);
    }
    HitCountMono(races, model, Win, Place);
  }

  /** Every exact-order hit is an any-order hit, so `trio3Hits <= trifecta3Hits`. */
  lemma TrioHitsAtMostTrifectaHits(races: seq<Race>, model: ModelKey)
    ensures HitCount(races, model, Trio) <= HitCount(races, model, Trifecta)
  {
    forall p, r | Hit(p, r, Trio) ensures Hit(p, r, Trifecta) {
      TrioImpliesTrifecta(p, r);
    }
    HitCountMono(races, model, Trio, Trifecta);
  }

  /** A finished race without the model's prediction adds nothing to its hits
      but still counts as a finished race. */
  lemma RaceWithoutPredictionCounts(races: seq<Race>, race: Race, model: ModelKey, bet: Bet)
    requires IsFinished(race.result) && model !in race.predictions
    ensures HitCount(races + [race], model, bet) == HitCount(races, model, bet)
    ensures PayoutTotal(races + [race], model, bet) == PayoutTotal(races, model, bet)
    ensures |Finished(races + [race])| == |Finished(races)| + 1
  {
    assert (races + [race])[..|races|] == races;
    FilterAppend(races, [race], (r: Race) => IsFinished(r.result));
  }

  /** A rate computed from counts within the finished races lies in [0, 1]. */
  lemma RateBounds(hits: int, races: nat)
    requires 0 <= hits <= races
    ensures 0.0 <= Rate(hits, races) <= 1.0
  {
    if races > 0 {
      assert hits as real <= races as real;
    }
  }

  /** More hits never give a lower rate over the same races. */
  lemma RateMono(a: int, b: int, races: nat)
    requires a <= b
    ensures Rate(a, races) <= Rate(b, races)
  {
  }

  /** Every row's hit rates lie in [0, 1], its win rate is at most its place
      rate and its 3連単 rate at most its 3連複 rate. */
  lemma RowRatesOrdered(row: Row, model: ModelKey, races: seq<Race>)
    requires RowReports(row, model, races)
    ensures forall bet :: 0.0 <= row.HitRate(bet) <= 1.0
    ensures row.winHitRate <= row.placeHitRate
    ensures row.trioHitRate <= row.trifectaHitRate
  {
    var finished := Finished(races);
    forall bet ensures 0.0 <= row.HitRate(bet) <= 1.0 {
      HitCountAtMostRaces(finished, model, bet);
      RateBounds(HitCount(finished, model, bet), |finished|);
    }
    WinHitsAtMostPlaceHits(finished, model);
    RateMono(HitCount(finished, model, Win), HitCount(finished, model, Place), |finished|);
    assert row.HitRate(Win) == row.winHitRate && row.HitRate(Place) == row.placeHitRate;
    TrioHitsAtMostTrifectaHits(finished, model);
    RateMono(HitCount(finished, model, Trio), HitCount(finished, model, Trifecta), |finished|);
    assert row.HitRate(Trio) == row.trioHitRate && row.HitRate(Trifecta) == row.trifectaHitRate;
  }

  /** With no finished race every rate of every row is 0. */
  lemma NoFinishedRacesZeroRates(row: Row, model: ModelKey, races: seq<Race>)
    requires RowReports(row, model, races)
    requires Finished(races) == []
    ensures row.races == 0
    ensures forall bet :: row.HitRate(bet) == 0.0 && row.RecoveryRate(bet) == 0.0
  {
  }

  // ---------------------------------------------------------------- venues

  /** A venue of the day: its code, its name and its races. */
  datatype Venue = Venue(placeCd: int, placeName: string, races: seq<Race>)

  /** The venue code a race is filed under. */
  function Code(race: Race): int
  {
    race.venueCode
  }

  /** `(a, b) => a.raceNumber - b.raceNumber`. */
  predicate RaceNumberLt(a: Race, b: Race)
  {
    a.raceNumber < b.raceNumber
  }

  /** `(a, b) => a.placeCd - b.placeCd`. */
  predicate PlaceLt(a: Venue, b: Venue)
  {
    a.placeCd < b.placeCd
  }

  /** A dictionary entry as a venue: named after its first race, races sorted by number. */
  function VenueOf(g: Group<int, Race>): Venue
  {
    Venue(g.key, if g.members == [] then "" else g.members[0].venue, Sort(g.members, RaceNumberLt))
  }

  /** The entries of the venue dictionary in the order they were created. */
  function Unsorted(races: seq<Race>): (vs: seq<Venue>)
    ensures |vs| == |GroupBy(races, Code)|
    ensures forall i :: 0 <= i < |vs| ==> vs[i] == VenueOf(GroupBy(races, Code)[i])
  {
    var gs := GroupBy(races, Code);
    seq(|gs|, i requires 0 <= i < |gs| => VenueOf(gs[i]))
  }

  /** The venue list of a day: the dictionary's entries sorted by venue code. */
  function VenuesOf(races: seq<Race>): seq<Venue>
  {
    Sort(Unsorted(races), PlaceLt)
  }

  /** The `forEach` of `fetchRaceData`: file every race under its venue code. */
  method FileByVenue(races: seq<Race>) returns (venueMap: seq<Group<int, Race>>)
    ensures venueMap == GroupBy(races, Code)
  {
    venueMap := [];
    for i := 0 to |races|
      invariant venueMap == GroupBy(races[..i], Code)
    {
      assert races[..i + 1][..i] == races[..i];
      var race := races[i];
      match Find(venueMap, race.venueCode, KeyOf()) {
        case None =>
          venueMap := venueMap + [Group(race.venueCode, [race])];
        case Some(k) =>
          venueMap := venueMap[k := Group(race.venueCode, venueMap[k].members + [race])];
      }
    }
    assert races[..|races|] == races;
  }

  /** The grouping in `fetchRaceData`: file every race under its venue code,
      sort each venue's races by number, then the venues by code. */
  method GroupByVenue(races: seq<Race>) returns (venues: seq<Venue>)
    ensures venues == VenuesOf(races)
  {
    var venueMap := FileByVenue(races);
    var vs: seq<Venue> := [];
    for j := 0 to |venueMap|
      invariant |vs| == j
      invariant forall k :: 0 <= k < j ==> vs[k] == VenueOf(venueMap[k])
    {
      vs := vs + [VenueOf(venueMap[j])];
    }
    assert vs == Unsorted(races);
    venues := Sort(vs, PlaceLt);
  }

  /** The races filed under venue code c. */
  function AtVenue(races: seq<Race>, c: int): seq<Race>
  {
    Filter(races, HasKey(Code, c))
  }

  /** Venues are in strictly ascending code order, so no code has two venues. */
  lemma VenuesAscending(races: seq<Race>)
    ensures forall i, j :: 0 <= i < j < |VenuesOf(races)| ==> VenuesOf(races)[i].placeCd < VenuesOf(races)[j].placeCd
  {
    var gs := GroupBy(races, Code);
    var us := Unsorted(races);
    var vs := VenuesOf(races);
    GroupBySpec(races, Code);
    assert DistinctBy(us, (v: Venue) => v.placeCd);
    SortKeepsDistinct(us, PlaceLt, (v: Venue) => v.placeCd);
    KeyAscIsStrictWeak(PlaceLt, (v: Venue) => v.placeCd);
    SortSorted(us, PlaceLt);
    forall i, j | 0 <= i < j < |vs| ensures vs[i].placeCd < vs[j].placeCd {
      assert !PlaceLt(vs[j], vs[i]);
    }
  }

  /** Each venue holds exactly the races with its code, sorted by race number,
      and is named after the first of them. */
  lemma VenuesHoldTheirRaces(races: seq<Race>)
    ensures forall g :: 0 <= g < |VenuesOf(races)| ==>
      var v := VenuesOf(races)[g];
      AtVenue(races, v.placeCd) != []
      && multiset(v.races) == multiset(AtVenue(races, v.placeCd))
      && Sorted(v.races, RaceNumberLt)
      && v.placeName == AtVenue(races, v.placeCd)[0].venue
  {
    var gs := GroupBy(races, Code);
    var us := Unsorted(races);
    var vs := VenuesOf(races);
    GroupBySpec(races, Code);
    GroupsNonEmpty(races, Code);
    forall g | 0 <= g < |vs|
      ensures AtVenue(races, vs[g].placeCd) != []
      ensures multiset(vs[g].races) == multiset(AtVenue(races, vs[g].placeCd))
      ensures Sorted(vs[g].races, RaceNumberLt)
      ensures vs[g].placeName == AtVenue(races, vs[g].placeCd)[0].venue
    {
      assert vs[g] in multiset(us);
      var u :| 0 <= u < |us| && us[u] == vs[g];
      assert gs[u].members == AtVenue(races, gs[u].key);
      KeyAscIsStrictWeak(RaceNumberLt, (r: Race) => r.raceNumber);
      SortSorted(gs[u].members, RaceNumberLt);
    }
  }

  /** Every race's venue code has a venue. */
  lemma EveryRaceHasVenue(races: seq<Race>)
    ensures forall i :: 0 <= i < |races| ==>
      exists g :: 0 <= g < |VenuesOf(races)| && VenuesOf(races)[g].placeCd == races[i].venueCode
  {
    var gs := GroupBy(races, Code);
    var us := Unsorted(races);
    var vs := VenuesOf(races);
    GroupBySpec(races, Code);
    forall i | 0 <= i < |races|
      ensures exists g :: 0 <= g < |vs| && vs[g].placeCd == races[i].venueCode
    {
      var u := Find(gs, Code(races[i]), KeyOf()).value;
      assert us[u] in multiset(vs);
      var g :| 0 <= g < |vs| && vs[g] == us[u];
    }
  }
}
