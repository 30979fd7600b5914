/**
 * src/App.jsx, the effect that runs when a venue is selected: the races of
 * the selected venue become race cards with an id, a start time computed
 * from the race number, and defaults for missing weather readings.
 */
module AppRaces {
  import opened Wrappers
  import opened Strings
  import opened Seqs

  /** A race of `allVenuesData` as the API returns it; a missing or null
      reading is None. */
  datatype Race = Race(date: string, placeCd: int, raceNo: int, weather: Option<string>,
                       waveHeight: Option<real>, windVelocity: Option<real>)

  /** A venue of `allVenuesData`; `races` is None when the field is missing. */
  datatype Venue = Venue(placeCd: int, placeName: string, races: Option<seq<Race>>)

  /** A formatted race. */
  datatype Card = Card(id: string, venue: string, raceNumber: int, startTime: string,
                       weather: string, wave: real, wind: real, rawData: Race)

  const BaseHour: int := 10
  const BaseMinute: int := 30

  /** JavaScript `a % b` for b > 0: the remainder takes the sign of a. */
  function JsRem(a: int, b: int): (r: int)
    requires b > 0
    ensures a >= 0 ==> r == a % b
    ensures -b < r < b
  {
    if a >= 0 then a % b else -((-a) % b)
  }

  /** `baseMinute + (race.raceNo - 1) * 30`. */
  function TotalMinutes(raceNo: int): int
  {
    BaseMinute + (raceNo - 1) * 30
  }

  /** `baseHour + Math.floor(totalMinutes / 60)` (Dafny's `/` by a positive
      divisor rounds down, as `Math.floor` does). */
  function Hour(raceNo: int): int
  {
    BaseHour + TotalMinutes(raceNo) / 60
  }

  /** `totalMinutes % 60`. */
  function Minute(raceNo: int): int
  {
    JsRem(TotalMinutes(raceNo), 60)
  }

  /** `${hour}:${minute.toString().padStart(2, '0')}`. */
  function StartTime(raceNo: int): string
  {
    IntToString(Hour(raceNo)) + ":" + PadStart(IntToString(Minute(raceNo)), 2, '0')
  }

  /** The minutes after midnight the start time stands for. */
  function ClockMinutes(raceNo: int): int
  {
    60 * Hour(raceNo) + Minute(raceNo)
  }

  /** From race 1 on, race n starts 30·(n − 1) minutes after 10:30, on the
      hour or at half past, and its minutes print as two digits. */
  lemma StartTimeSpec(raceNo: int)
    requires raceNo >= 1
    ensures ClockMinutes(raceNo) == 10 * 60 + 30 + 30 * (raceNo - 1)
    ensures Minute(raceNo) == 0 || Minute(raceNo) == 30
    ensures Hour(raceNo) >= 10
    ensures StartTime(raceNo) == NatToString(Hour(raceNo)) + ":" + (if Minute(raceNo) == 0 then "00" else "30")
  {
    var t := TotalMinutes(raceNo);
    assert t == 30 * raceNo;
    assert t == 60 * (t / 60) + t % 60;
    if raceNo % 2 == 0 {
      assert t % 60 == 0 by { assert t == 60 * (raceNo / 2); }
    } else {
      assert t % 60 == 30 by { assert t == 60 * (raceNo / 2) + 30; }
    }
    var m := NatToString(Minute(raceNo));
    if Minute(raceNo) == 0 {
      assert m == "0";
      assert PadStart(m, 2, '0') == "00";
    } else {
      assert NatToString(3) == "3";
      assert m == NatToString(3) + [DigitChar(0)];
      assert m == "30";
    }
  }

  /** Each race starts 30 minutes after the one before it. */
  lemma NextRace(raceNo: int)
    requires raceNo >= 1
    ensures ClockMinutes(raceNo + 1) == ClockMinutes(raceNo) + 30
  {
    StartTimeSpec(raceNo);
    StartTimeSpec(raceNo + 1);
  }

  /** Race 1 starts at 10:30. */
  lemma FirstRace()
    ensures StartTime(1) == "10:30"
  {
    StartTimeSpec(1);
    assert Hour(1) == 10 && Minute(1) == 30;
    assert NatToString(10) == NatToString(1) + [DigitChar(0)];
    assert NatToString(10) == "10";
  }

  /** `${race.date}-${race.placeCd}-${race.raceNo}`. */
  function RaceId(race: Race): string
  {
    race.date + "-" + IntToString(race.placeCd) + "-" + IntToString(race.raceNo)
  }

  /** For a `YYYY-MM-DD` date the id splits at its dashes into the date's
      three parts, the venue code and the race number, unpadded, and both
      numbers read back. */
  lemma RaceIdSpec(race: Race, y: string, m: string, d: string)
    requires race.date == y + "-" + m + "-" + d
    requires '-' !in y && '-' !in m && '-' !in d
    requires race.placeCd >= 0 && race.raceNo >= 0
    ensures Split(RaceId(race), '-') == [y, m, d, NatToString(race.placeCd), NatToString(race.raceNo)]
    ensures JsParseInt(Split(RaceId(race), '-')[3]) == Some(race.placeCd)
    ensures JsParseInt(Split(RaceId(race), '-')[4]) == Some(race.raceNo)
  {
    var p := NatToString(race.placeCd);
    var n := NatToString(race.raceNo);
    assert IntToString(race.placeCd) == p && IntToString(race.raceNo) == n;
    var id := y + "-" + m + "-" + d + "-" + p + "-" + n;
    assert RaceId(race) == id;
    NatToStringHasNoDash(race.placeCd);
    NatToStringHasNoDash(race.raceNo);
    SplitFive(y, m, d, p, n);
    var parts := Split(id, '-');
    assert parts == [y, m, d, p, n] by {
      assert |parts| == 5;
      assert parts[0] == y && parts[1] == m && parts[2] == d && parts[3] == p && parts[4] == n;
    }
    ParseIntOfNatToString(race.placeCd);
    ParseIntOfNatToString(race.raceNo);
  }

  /** `race.weather || '不明'`: undefined, null and the empty string are falsy. */
  function WeatherOrUnknown(w: Option<string>): string
  {
    if w.None? || w.value == "" then "不明" else w.value
  }

  /** `x || 0` on a number: undefined, null and 0 are falsy. */
  function OrZero(x: Option<real>): real
  {
    if x.None? || x.value == 0.0 then 0.0 else x.value
  }

  /** The card of one race of the venue named `venueName`. */
  function CardOf(venueName: string): Race -> Card
  {
    (race: Race) => Card(RaceId(race), venueName, race.raceNo, StartTime(race.raceNo),
                         WeatherOrUnknown(race.weather), OrZero(race.waveHeight),
                         OrZero(race.windVelocity), race)
  }

  /** A card never shows empty weather; it shows the reading whenever the
      reading is truthy, and 0 for a missing wave or wind reading. */
  lemma CardSpec(venueName: string, race: Race)
    ensures CardOf(venueName)(race).weather != ""
    ensures race.weather.Some? && race.weather.value != "" ==> CardOf(venueName)(race).weather == race.weather.value
    ensures race.weather.None? ==> CardOf(venueName)(race).weather == "不明"
    ensures race.waveHeight.None? ==> CardOf(venueName)(race).wave == 0.0
    ensures race.waveHeight.Some? ==> CardOf(venueName)(race).wave == race.waveHeight.value
    ensures race.windVelocity.None? ==> CardOf(venueName)(race).wind == 0.0
    ensures race.windVelocity.Some? ==> CardOf(venueName)(race).wind == race.windVelocity.value
    ensures CardOf(venueName)(race).raceNumber == race.raceNo && CardOf(venueName)(race).rawData == race
  {
    assert "不明" != "";
  }

  /** `allVenuesData.find(v => v.placeCd === selectedVenueId)`. */
  function FindVenue(all: seq<Venue>, placeCd: int): Option<Venue>
  {
    if all == [] then None
    else if all[0].placeCd == placeCd then Some(all[0])
    else FindVenue(all[1..], placeCd)
  }

  lemma {:induction false} FindVenueSpec(all: seq<Venue>, placeCd: int) returns (k: nat)
    ensures FindVenue(all, placeCd).None? <==> forall j :: 0 <= j < |all| ==> all[j].placeCd != placeCd
    ensures FindVenue(all, placeCd).Some? ==>
      k < |all| && all[k] == FindVenue(all, placeCd).value && all[k].placeCd == placeCd
      && forall j :: 0 <= j < k ==> all[j].placeCd != placeCd
  {
    k := 0;
    if all != [] && all[0].placeCd != placeCd {
      var k' := FindVenueSpec(all[1..], placeCd);
      assert forall j :: 0 < j < |all| ==> all[j] == all[1..][j - 1];
      k := k' + 1;
    }
  }

  /** What the effect does to the race list: None when it does not run (no
      venue selected, or no venue data yet); the empty list when the venue
      or its races are missing; else one card per race. */
  function RacesFor(selected: Option<int>, all: seq<Venue>): Option<seq<Card>>
  {
    if selected.None? || selected.value == 0 || |all| == 0 then None
    else
      var v := FindVenue(all, selected.value);
      if v.None? || v.value.races.None? then Some([])
      else Some(Map(v.value.races.value, CardOf(v.value.placeName)))
  }

  /** The race list is left alone exactly when no venue is selected or there
      is no venue data; it is empty when no venue has the selected code or
      that venue has no races; otherwise its i-th card is the card of the
      i-th race of the first venue with that code, under that venue's name. */
  lemma RacesForSpec(selected: Option<int>, all: seq<Venue>)
    ensures RacesFor(selected, all).None? <==> selected.None? || selected.value == 0 || all == []
    ensures RacesFor(selected, all).Some? && (forall j :: 0 <= j < |all| ==> all[j].placeCd != selected.value)
      ==> RacesFor(selected, all) == Some([])
    ensures RacesFor(selected, all).Some? && RacesFor(selected, all).value != [] ==>
      exists k :: 0 <= k < |all| && all[k].placeCd == selected.value
        && (forall j :: 0 <= j < k ==> all[j].placeCd != selected.value)
        && all[k].races.Some?
        && |RacesFor(selected, all).value| == |all[k].races.value|
        && forall i :: 0 <= i < |all[k].races.value| ==>
             RacesFor(selected, all).value[i] == CardOf(all[k].placeName)(all[k].races.value[i])
  {
    if !(selected.None? || selected.value == 0 || all == []) {
      var k := FindVenueSpec(all, selected.value);
      var v := FindVenue(all, selected.value);
      if v.Some? && v.value.races.Some? {
        MapAt(v.value.races.value, CardOf(v.value.placeName));
      }
    }
  }
}
