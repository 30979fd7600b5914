/**
 * api/scrape-races.js: the serverless endpoint that serves the morning's
 * pre-race information. It builds the page address, merges the exhibition
 * and start-exhibition cells of a page into six racers, scrapes at most three
 * venues with races 1 to 3 each, and keeps the result in a module-level
 * cache for five minutes. Pages arrive as already extracted cell texts; the
 * clock reading and the date are parameters.
 */
module ScrapeApi {
  import opened Wrappers
  import opened Strings
  import opened Seqs
  import opened Sorting
  import ScrapeResults

  // ---------------------------------------------------------------- address

  /** `jcd`: a `0` in front of codes below 10. */
  function Jcd(placeCd: int): string
  {
    if placeCd < 10 then "0" + IntToString(placeCd) else IntToString(placeCd)
  }

  /** `getUrl`: the page `content` for a race, with the dashes of the date removed. */
  function GetUrl(date: string, placeCd: int, raceNo: int, content: string): string
  {
    "https://www.boatrace.jp/owpc/pc/race/" + content + "?rno=" + IntToString(raceNo)
    + "&jcd=" + Jcd(placeCd) + "&hd=" + RemoveChar(date, '-')
  }

  /** For a venue code the `jcd` is the code padded to two digits, which reads back as the code. */
  lemma JcdIsPadded(placeCd: nat)
    ensures Jcd(placeCd) == PadStart(NatToString(placeCd), 2, '0')
    ensures JsParseInt(Jcd(placeCd)) == Some(placeCd)
  {
    if placeCd < 10 {
      assert PadStart(NatToString(placeCd), 2, '0') == "0" + NatToString(placeCd);
    }
    ParseIntOfPadded(placeCd);
  }

  /** The endpoint's address of the result page is the one the result
      scraper of scripts/scrape-results.js fetches. */
  lemma GetUrlIsResultUrl(date: string, placeCd: nat, raceNo: int)
    ensures GetUrl(date, placeCd, raceNo, "raceresult") == ScrapeResults.ResultUrl(placeCd, raceNo, date)
  {
    JcdIsPadded(placeCd);
    assert "https://www.boatrace.jp/owpc/pc/race/" + "raceresult" + "?rno="
      == "https://www.boatrace.jp/owpc/pc/race/raceresult?rno=";
  }

  // ---------------------------------------------------------------- one page

  /** `'\xa0'`, the non-breaking space the site puts in empty cells. */
  const Nbsp: string := "\U{A0}"

  /** `v === '\xa0' || v === '' ? '' : v`. */
  function Blanked(v: string): (r: string)
    ensures r == "" <==> v == Nbsp || v == ""
  {
    if v == Nbsp || v == "" then "" else v
  }

  /** `trim()` already removes a non-breaking space, so on a trimmed cell the
      blanking changes nothing. */
  lemma BlankedTrimmed(s: string)
    ensures Blanked(JsTrim(s)) == JsTrim(s)
  {
    var t := TrimLeft(s, IsJsSpace);
    TrimLeftSpec(s, IsJsSpace);
    TrimRightSpec(t, IsJsSpace);
    var r := JsTrim(s);
    if r != [] {
      assert r[0] == t[0];
      assert !IsJsSpace(r[0]);
      assert r != Nbsp;
    }
  }

  /** An `arr1` entry: the exhibition time and tilt of one row. */
  datatype Exhibit = Exhibit(et: string, tilt: string)

  /** An `arr2` entry: the start-exhibition number and time, and the
      1-based position of the boat image. */
  datatype Start = Start(estNumber: string, estTime: string, originalIndex: nat)

  /** One of the six `racers`. */
  datatype RacerData = RacerData(number: nat, et: string, tilt: string, est: string, esc: string)

  /** The texts of one `.table1_boatImage1`: its number and its time. */
  datatype BoatImage = BoatImage(number: string, time: string)

  /** What the model reads of a before-information page: the weather
      titles, the `td` texts of each `.is-fs12` row, and the boat images. */
  datatype BeforePage = BeforePage(titles: seq<string>, rows: seq<seq<string>>, images: seq<BoatImage>)

  /** The record a race yields. */
  datatype BeforeInfo = BeforeInfo(date: string, placeCd: int, raceNo: int, weather: string, racers: seq<RacerData>)

  /** The exhibition cells of a row with at least six cells: the fifth and sixth. */
  function ExhibitOf(tds: seq<string>): Exhibit
    requires |tds| >= 6
  {
    Exhibit(Blanked(JsTrim(tds[4])), Blanked(JsTrim(tds[5])))
  }

  /** `arr1`: one entry per row with at least six cells, in order. */
  function Exhibits(rows: seq<seq<string>>): (r: seq<Exhibit>)
    ensures |r| <= |rows|
  {
    if rows == [] then []
    else
      var row := rows[|rows| - 1];
      Exhibits(rows[..|rows| - 1]) + (if |row| >= 6 then [ExhibitOf(row)] else [])
  }

  /** The entry of the i-th boat image; an `F` (flying) in the time shows as `-`. */
  function StartOf(images: seq<BoatImage>, i: nat): Start
    requires i < |images|
  {
    Start(JsTrim(images[i].number), ReplaceFirst(JsTrim(images[i].time), 'F', '-'), i + 1)
  }

  /** `arr2` before sorting: one entry per boat image, in order. */
  function Starts(images: seq<BoatImage>): (r: seq<Start>)
    ensures |r| == |images|
    ensures forall i :: 0 <= i < |images| ==> r[i] == StartOf(images, i)
  {
    if images == [] then []
    else
      var n := |images| - 1;
      assert forall i :: 0 <= i < n ==> StartOf(images[..n], i) == StartOf(images, i);
      Starts(images[..n]) + [StartOf(images, n)]
  }

  /** `parseInt(EST_Number) || 0`: NaN counts as 0. */
  function EstKey(s: Start): int
  {
    match JsParseInt(s.estNumber)
    case Some(v) => v
    case None => 0
  }

  /** The comparator `aNum - bNum`: a smaller number first. */
  predicate EstBefore(a: Start, b: Start)
  {
    EstKey(a) < EstKey(b)
  }

  /** `arr2` after the stable sort. */
  function SortedStarts(images: seq<BoatImage>): seq<Start>
  {
    Sort(Starts(images), EstBefore)
  }

  /** The start entries by number: ascending, a permutation of the images'
      entries, boats with the same number in image order. */
  lemma SortedStartsSpec(images: seq<BoatImage>, z: Start)
    ensures Sorted(SortedStarts(images), EstBefore)
    ensures multiset(SortedStarts(images)) == multiset(Starts(images))
    ensures Filter(SortedStarts(images), y => Equiv(EstBefore, y, z)) == Filter(Starts(images), y => Equiv(EstBefore, y, z))
  {
    KeyAscIsStrictWeak(EstBefore, EstKey);
    SortSorted(Starts(images), EstBefore);
    SortStable(Starts(images), z, EstBefore);
  }

  /** The i-th racer: number i + 1, the i-th exhibition and start entries, `''` where missing. */
  function RacerAt(arr1: seq<Exhibit>, arr2: seq<Start>, i: nat): RacerData
  {
    RacerData(i + 1,
      if i < |arr1| then arr1[i].et else "",
      if i < |arr1| then arr1[i].tilt else "",
      if i < |arr2| then arr2[i].estTime else "",
      if i < |arr2| then arr2[i].estNumber else "")
  }

  /** The `for (let i = 0; i < 6; i++)` loop that builds `racers`. */
  method MergeRacers(arr1: seq<Exhibit>, arr2: seq<Start>) returns (racers: seq<RacerData>)
    ensures |racers| == 6
    ensures forall i :: 0 <= i < 6 ==> racers[i] == RacerAt(arr1, arr2, i)
  {
    racers := [];
    for i := 0 to 6
      invariant |racers| == i
      invariant forall k :: 0 <= k < i ==> racers[k] == RacerAt(arr1, arr2, k)
    {
      var racerData := RacerData(i + 1,
        if i < |arr1| then arr1[i].et else "",
        if i < |arr1| then arr1[i].tilt else "",
        if i < |arr2| then arr2[i].estTime else "",
        if i < |arr2| then arr2[i].estNumber else "");
      racers := racers + [racerData];
    }
  }

  /** The second weather title, `''` without one. */
  function Weather(titles: seq<string>): string
  {
    if |titles| > 1 then JsTrim(titles[1]) else ""
  }

  /** The record `getBeforeinfo` builds from a page it could fetch. */
  function BeforeInfoOf(date: string, placeCd: int, raceNo: int, page: BeforePage): BeforeInfo
  {
    var arr1 := Exhibits(page.rows);
    var arr2 := SortedStarts(page.images);
    BeforeInfo(date, placeCd, raceNo, Weather(page.titles), seq(6, i requires 0 <= i < 6 => RacerAt(arr1, arr2, i)))
  }

  /** Every record has six racers numbered 1 to 6; a racer without an
      exhibition row or a start entry gets `''` for those fields, and a
      start entry comes from the image with the i-th smallest number. */
  lemma BeforeInfoRacers(date: string, placeCd: int, raceNo: int, page: BeforePage)
    ensures var rs := BeforeInfoOf(date, placeCd, raceNo, page).racers;
      |rs| == 6
      && (forall i :: 0 <= i < 6 ==> rs[i].number == i + 1)
      && (forall i :: 0 <= i < 6 && i >= |Exhibits(page.rows)| ==> rs[i].et == "" && rs[i].tilt == "")
      && (forall i :: 0 <= i < 6 && i >= |page.images| ==> rs[i].est == "" && rs[i].esc == "")
      && (forall i :: 0 <= i < 6 && i < |page.images| ==> rs[i].esc == SortedStarts(page.images)[i].estNumber)
  {
  }

  /** The cells `arr1` reads, numbered from the first row with six cells. */
  lemma {:induction false} ExhibitsSpec(rows: seq<seq<string>>)
    ensures |Exhibits(rows)| == CountIf(rows, (r: seq<string>) => |r| >= 6)
    ensures forall e :: e in Exhibits(rows) ==> exists r :: r in rows && |r| >= 6 && e == ExhibitOf(r)
  {
    if rows != [] {
      var n := |rows| - 1;
      ExhibitsSpec(rows[..n]);
      assert rows == rows[..n] + [rows[n]];
      CountIfAppend(rows[..n], [rows[n]], (r: seq<string>) => |r| >= 6);
      forall e | e in Exhibits(rows) ensures exists r :: r in rows && |r| >= 6 && e == ExhibitOf(r) {
        if e in Exhibits(rows[..n]) {
          var r :| r in rows[..n] && |r| >= 6 && e == ExhibitOf(r);
          assert r in rows;
        } else {
          assert rows[n] in rows;
        }
      }
    }
  }

  /** The `.weather1_bodyUnitLabelTitle` loop that keeps the title at index 1. */
  method WeatherOf(titles: seq<string>) returns (weather: string)
    ensures weather == Weather(titles)
  {
    weather := "";
    for i := 0 to |titles|
      invariant weather == Weather(titles[..i])
    {
      if i == 1 {
        weather := JsTrim(titles[i]);
      }
    }
    assert titles[..|titles|] == titles;
  }

  /** The `.is-fs12` loop that pushes the exhibition entries into `arr1`. */
  method CollectExhibits(rows: seq<seq<string>>) returns (arr1: seq<Exhibit>)
    ensures arr1 == Exhibits(rows)
  {
    arr1 := [];
    for i := 0 to |rows|
      invariant arr1 == Exhibits(rows[..i])
    {
      assert rows[..i + 1][..i] == rows[..i];
      var tds := rows[i];
      if |tds| >= 6 {
        var et := JsTrim(tds[4]);
        var tilt := JsTrim(tds[5]);
        arr1 := arr1 + [Exhibit(if et == Nbsp || et == "" then "" else et,
                                if tilt == Nbsp || tilt == "" then "" else tilt)];
      }
    }
    assert rows[..|rows|] == rows;
  }

  /** The `.table1_boatImage1` loop that pushes the start entries into `arr2`. */
  method CollectStarts(images: seq<BoatImage>) returns (arr2: seq<Start>)
    ensures arr2 == Starts(images)
  {
    arr2 := [];
    for i := 0 to |images|
      invariant |arr2| == i
      invariant forall k :: 0 <= k < i ==> arr2[k] == StartOf(images, k)
    {
      arr2 := arr2 + [Start(JsTrim(images[i].number), ReplaceFirst(JsTrim(images[i].time), 'F', '-'), i + 1)];
    }
  }

  /** `getBeforeinfo`: None when the request fails (`page` None), otherwise the record. */
  method GetBeforeinfo(date: string, placeCd: int, raceNo: int, page: Option<BeforePage>)
    returns (result: Option<BeforeInfo>)
    ensures result == if page.None? then None else Some(BeforeInfoOf(date, placeCd, raceNo, page.value))
  {
    if page.None? {
      return None;
    }
    var p := page.value;
    var weather := WeatherOf(p.titles);
    var arr1 := CollectExhibits(p.rows);
    var arr2 := CollectStarts(p.images);
    arr2 := Sort(arr2, EstBefore);
    var racers := MergeRacers(arr1, arr2);
    assert racers == BeforeInfoOf(date, placeCd, raceNo, p).racers;
    result := Some(BeforeInfo(date, placeCd, raceNo, weather, racers));
  }

  // ---------------------------------------------------------------- venues

  /** The venue names by code. */
  const Venues: map<int, string> := map[
    1 := "桐生", 2 := "戸田", 3 := "江戸川", 4 := "平和島", 5 := "多摩川", 6 := "浜名湖",
    7 := "蒲郡", 8 := "常滑", 9 := "津", 10 := "三国", 11 := "びわこ", 12 := "住之江",
    13 := "尼崎", 14 := "鳴門", 15 := "丸亀", 16 := "児島", 17 := "宮島", 18 := "徳山",
    19 := "下関", 20 := "若松", 21 := "芦屋", 22 := "福岡", 23 := "唐津", 24 := "大村"]

  /** `VENUES[placeCd] || \`レース場${placeCd}\``. */
  function PlaceName(placeCd: int): string
  {
    if placeCd in Venues then Venues[placeCd] else "レース場" + IntToString(placeCd)
  }

  /** The venues scraped and the races scraped at each. */
  const MaxVenues: nat := 3
  const MaxRaces: nat := 3

  /** The before-information page of (venue, race); None for a failed request. */
  type Pages = (int, int) -> Option<BeforePage>

  /** A venue's entry in the response. */
  datatype VenueRaces = VenueRaces(placeCd: int, placeName: string, races: seq<BeforeInfo>)

  /** What `getBeforeinfo` yields for race n of a venue. */
  function InfoAt(date: string, placeCd: int, pages: Pages): int -> Option<BeforeInfo>
  {
    (n: int) => if pages(placeCd, n).None? then None else Some(BeforeInfoOf(date, placeCd, n, pages(placeCd, n).value))
  }

  /** The race numbers 1 to `MAX_RACES`. */
  function RaceNumbers(): (r: seq<int>)
    ensures |r| == MaxRaces && forall k :: 0 <= k < |r| ==> r[k] == k + 1
  {
    [1, 2, 3]
  }

  /** What the three requests of a venue yield, by race number. */
  function Fetches(date: string, placeCd: int, pages: Pages): (r: seq<Option<BeforeInfo>>)
    ensures |r| == MaxRaces
    ensures forall k :: 0 <= k < MaxRaces ==> r[k] == InfoAt(date, placeCd, pages)(k + 1)
  {
    MapAt(RaceNumbers(), InfoAt(date, placeCd, pages));
    Map(RaceNumbers(), InfoAt(date, placeCd, pages))
  }

  /** A venue with the races that could be fetched; null without any. */
  function VenueResult(date: string, pages: Pages): int -> Option<VenueRaces>
  {
    (placeCd: int) =>
      var races := Somes(Fetches(date, placeCd, pages));
      if races == [] then None else Some(VenueRaces(placeCd, PlaceName(placeCd), races))
  }

  /** `allRaces`: the non-null venue results of the first three venues, in order. */
  function AllRaces(date: string, todayVenues: seq<int>, pages: Pages): seq<VenueRaces>
  {
    Somes(Map(FirstN(todayVenues, MaxVenues), VenueResult(date, pages)))
  }

  /** `results.forEach(result => { if (result) out.push(result) })`. */
  method KeepPresent<T>(results: seq<Option<T>>) returns (kept: seq<T>)
    ensures kept == Somes(results)
  {
    kept := [];
    for i := 0 to |results|
      invariant kept == Somes(results[..i])
    {
      assert results[..i + 1][..i] == results[..i];
      if results[i].Some? {
        kept := kept + [results[i].value];
      }
    }
    assert results[..|results|] == results;
  }

  /** The `racePromises` loop over races 1 to `MAX_RACES` of one venue. */
  method FetchVenue(date: string, placeCd: int, pages: Pages) returns (results: seq<Option<BeforeInfo>>)
    ensures results == Fetches(date, placeCd, pages)
  {
    results := [];
    for raceNo := 1 to MaxRaces + 1
      invariant |results| == raceNo - 1
      invariant forall k :: 0 <= k < raceNo - 1 ==> results[k] == InfoAt(date, placeCd, pages)(k + 1)
    {
      var r := GetBeforeinfo(date, placeCd, raceNo, pages(placeCd, raceNo));
      results := results + [r];
    }
  }

  /** One venue's promise: its fetched races, or null when there are none. */
  method ScrapeVenue(date: string, placeCd: int, pages: Pages) returns (venue: Option<VenueRaces>)
    ensures venue == VenueResult(date, pages)(placeCd)
  {
    var results := FetchVenue(date, placeCd, pages);
    var venueRaces := KeepPresent(results);
    if |venueRaces| > 0 {
      venue := Some(VenueRaces(placeCd, PlaceName(placeCd), venueRaces));
    } else {
      venue := None;
    }
  }

  /** The venue loop and the `forEach` that keeps the non-null venues. */
  method ScrapeAll(date: string, todayVenues: seq<int>, pages: Pages) returns (allRaces: seq<VenueRaces>)
    ensures allRaces == AllRaces(date, todayVenues, pages)
  {
    var limitedVenues := FirstN(todayVenues, MaxVenues);
    var venueResults: seq<Option<VenueRaces>> := [];
    for i := 0 to |limitedVenues|
      invariant venueResults == Map(limitedVenues[..i], VenueResult(date, pages))
    {
      assert limitedVenues[..i + 1][..i] == limitedVenues[..i];
      var v := ScrapeVenue(date, limitedVenues[i], pages);
      venueResults := venueResults + [v];
    }
    assert limitedVenues[..|limitedVenues|] == limitedVenues;
    allRaces := KeepPresent(venueResults);
  }

  /** A venue is left out exactly when none of its races 1 to 3 could be fetched. */
  lemma VenueOmitted(date: string, pages: Pages, placeCd: int)
    ensures VenueResult(date, pages)(placeCd).None? <==> forall n :: 1 <= n <= MaxRaces ==> pages(placeCd, n).None?
  {
    var xs := Fetches(date, placeCd, pages);
    SomesMembers(xs);
    if forall n :: 1 <= n <= MaxRaces ==> pages(placeCd, n).None? {
      assert forall k :: 0 <= k < |xs| ==> xs[k].None?;
    } else {
      var n :| 1 <= n <= MaxRaces && pages(placeCd, n).Some?;
      assert xs[n - 1].Some?;
    }
  }

  /** A venue in the answer carries its name and one to three records, each
      for that venue and for a race from 1 to 3 whose page could be fetched. */
  lemma VenueResultSpec(date: string, pages: Pages, placeCd: int)
    ensures VenueResult(date, pages)(placeCd).Some? ==>
      var v := VenueResult(date, pages)(placeCd).value;
      v.placeCd == placeCd && v.placeName == PlaceName(placeCd)
      && 1 <= |v.races| <= MaxRaces
      && forall r :: r in v.races ==> r.placeCd == placeCd && 1 <= r.raceNo <= MaxRaces && pages(placeCd, r.raceNo).Some?
  {
    var xs := Fetches(date, placeCd, pages);
    var races := Somes(xs);
    SomesMembers(xs);
    assert VenueResult(date, pages)(placeCd)
      == if races == [] then None else Some(VenueRaces(placeCd, PlaceName(placeCd), races));
    forall r: BeforeInfo | r in races ensures r.placeCd == placeCd && 1 <= r.raceNo <= MaxRaces && pages(placeCd, r.raceNo).Some? {
      var k :| 0 <= k < |xs| && xs[k] == Some(r);
      assert xs[k] == InfoAt(date, placeCd, pages)(k + 1);
      assert pages(placeCd, k + 1).Some?;
      assert r == BeforeInfoOf(date, placeCd, k + 1, pages(placeCd, k + 1).value);
    }
  }

  /** At most three venues are answered, each among the first three of the
      day's venues, in the day's order; a venue whose races all failed is
      absent. */
  lemma AllRacesSpec(date: string, todayVenues: seq<int>, pages: Pages)
    ensures |AllRaces(date, todayVenues, pages)| <= MaxVenues
    ensures forall v :: v in AllRaces(date, todayVenues, pages) <==>
      exists k :: 0 <= k < |FirstN(todayVenues, MaxVenues)| && VenueResult(date, pages)(todayVenues[k]) == Some(v)
  {
    var limited := FirstN(todayVenues, MaxVenues);
    SomesOfMap(limited, VenueResult(date, pages));
    assert forall k :: 0 <= k < |limited| ==> limited[k] == todayVenues[k];
  }

  // ---------------------------------------------------------------- the handler

  /** `CACHE_DURATION`: five minutes in milliseconds. */
  const CacheDuration: int := 5 * 60 * 1000

  /** The module-level `cache`: data and timestamp, null until the first scrape. */
  datatype CacheState = CacheState(data: Option<seq<VenueRaces>>, timestamp: Option<int>)

  /** One request: whether it is an OPTIONS preflight, `Date.now()`, the
      day's date, the venue codes open today, the pages, and whether the
      scraping block threw. */
  datatype Request = Request(isOptions: bool, now: int, date: string, todayVenues: seq<int>, pages: Pages, threw: bool)

  /** The responses: the empty 200 of a preflight; 200 with cached data and
      its age; 200 with no races; 200 with fresh data; 200 with stale data
      after an error; the 500 failure. */
  datatype Response =
    | Preflight
    | Cached(data: seq<VenueRaces>, cacheAge: int)
    | NoRaces
    | Fresh(data: seq<VenueRaces>)
    | Stale(data: seq<VenueRaces>)
    | Failure

  function Status(r: Response): int
  {
    if r.Failure? then 500 else 200
  }

  /** `cache.data && cache.timestamp && now - cache.timestamp < CACHE_DURATION`:
      a timestamp of 0 is falsy. */
  predicate Hit(c: CacheState, now: int)
  {
    c.data.Some? && c.timestamp.Some? && c.timestamp.value != 0 && now - c.timestamp.value < CacheDuration
  }

  /** `Math.floor((now - cache.timestamp) / 1000)`; Dafny's division by a
      positive divisor rounds down as `Math.floor` does. */
  function CacheAge(now: int, timestamp: int): int
  {
    (now - timestamp) / 1000
  }

  /** The handler: the response and the cache after it. */
  function Handled(c: CacheState, req: Request): (Response, CacheState)
  {
    if req.isOptions then (Preflight, c)
    else if Hit(c, req.now) then (Cached(c.data.value, CacheAge(req.now, c.timestamp.value)), c)
    else if req.threw then (if c.data.Some? then Stale(c.data.value) else Failure, c)
    else if req.todayVenues == [] then (NoRaces, c)
    else
      var all := AllRaces(req.date, req.todayVenues, req.pages);
      (Fresh(all), CacheState(Some(all), Some(req.now)))
  }

  /** The module-level cache object and the handler that reads and updates it. */
  class Cache {
    var data: Option<seq<VenueRaces>>
    var timestamp: Option<int>

    /** `{ data: null, timestamp: null }`. */
    constructor ()
      ensures data == None && timestamp == None
    {
      data := None;
      timestamp := None;
    }

    function State(): CacheState
      reads this
    {
      CacheState(data, timestamp)
    }

    /** `handler(req, res)`. */
    method Handle(req: Request) returns (response: Response)
      modifies this
      ensures (response, State()) == Handled(old(State()), req)
    {
      if req.isOptions {
        return Preflight;
      }
      var now := req.now;
      if data.Some? && timestamp.Some? && timestamp.value != 0 && now - timestamp.value < CacheDuration {
        return Cached(data.value, (now - timestamp.value) / 1000);
      }
      if req.threw {
        if data.Some? {
          return Stale(data.value);
        }
        return Failure;
      }
      if req.todayVenues == [] {
        return NoRaces;
      }
      var allRaces := ScrapeAll(req.date, req.todayVenues, req.pages);
      data := Some(allRaces);
      timestamp := Some(now);
      response := Fresh(allRaces);
    }
  }

  /** Cached data is served exactly when data and a non-zero timestamp exist
      and less than five minutes have passed; the answer is that data, and
      its age is the elapsed time in whole seconds, rounded down. */
  lemma ServedFromCache(c: CacheState, req: Request)
    requires !req.isOptions
    ensures Handled(c, req).0.Cached? <==> Hit(c, req.now)
    ensures Hit(c, req.now) ==>
      var r := Handled(c, req).0;
      r.data == c.data.value
      && r.cacheAge * 1000 <= req.now - c.timestamp.value < (r.cacheAge + 1) * 1000
      && (req.now >= c.timestamp.value ==> 0 <= r.cacheAge < 300)
  {
  }

  /** Only a fresh scrape changes the cache, and it stores the data it
      answers with and the request's time. */
  lemma CacheChangesOnlyOnScrape(c: CacheState, req: Request)
    ensures Handled(c, req).1 != c ==> Handled(c, req).0.Fresh?
    ensures Handled(c, req).0.Fresh? ==>
      Handled(c, req).1 == CacheState(Some(Handled(c, req).0.data), Some(req.now))
      && Handled(c, req).0.data == AllRaces(req.date, req.todayVenues, req.pages)
  {
  }

  /** On an error the stale cache is answered when there is data, and the
      500 failure otherwise. */
  lemma ErrorFallsBack(c: CacheState, req: Request)
    requires !req.isOptions && !Hit(c, req.now) && req.threw
    ensures c.data.Some? ==> Handled(c, req).0 == Stale(c.data.value)
    ensures c.data.None? <==> Status(Handled(c, req).0) == 500
    ensures Handled(c, req).1 == c
  {
  }

  /** After a fresh scrape at a non-zero time, a request less than five
      minutes later gets the same data from the cache. */
  lemma FreshThenCached(c: CacheState, req: Request, later: Request)
    requires Handled(c, req).0.Fresh? && req.now != 0
    requires !later.isOptions && req.now <= later.now < req.now + CacheDuration
    ensures Handled(Handled(c, req).1, later).0 == Cached(Handled(c, req).0.data, CacheAge(later.now, req.now))
  {
  }
}
